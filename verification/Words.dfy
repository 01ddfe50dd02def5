/** Whitespace-delimited words: splitting, counting and joining them. */
module Words {
  import opened Strings
  import opened Whitespace

  function WordLength(s: string): (n: nat)
    ensures n <= |s|
    ensures forall i :: 0 <= i < n ==> !IsSpace(s[i])
    ensures n < |s| ==> IsSpace(s[n])
  {
    if s == "" || IsSpace(s[0]) then 0 else 1 + WordLength(s[1..])
  }

  function SpaceLength(s: string): (n: nat)
    ensures n <= |s|
    ensures forall i :: 0 <= i < n ==> IsSpace(s[i])
    ensures n < |s| ==> !IsSpace(s[n])
  {
    if s == "" || !IsSpace(s[0]) then 0 else 1 + SpaceLength(s[1..])
  }

  // The maximal runs of non-space characters, in order.
  function WordsOf(s: string): seq<string> {
    if s == "" then []
    else if IsSpace(s[0]) then WordsOf(s[1..])
    else [s[..WordLength(s)]] + WordsOf(s[WordLength(s)..])
  }

  // `s.split(/\s+/)`: keeps an empty string where the text starts or ends with space.
  function SplitOnSpaces(s: string): seq<string> {
    var n := WordLength(s);
    if n == |s| then [s]
    else [s[..n]] + SplitOnSpaces(s[n + SpaceLength(s[n..])..])
  }

  function NonEmpty(texts: seq<string>): seq<string> {
    if texts == [] then []
    else (if texts[0] == "" then [] else [texts[0]]) + NonEmpty(texts[1..])
  }

  predicate IsWord(w: string) {
    w != "" && forall i :: 0 <= i < |w| ==> !IsSpace(w[i])
  }

  lemma {:induction false} WordsAreWords(s: string)
    ensures forall i :: 0 <= i < |WordsOf(s)| ==> IsWord(WordsOf(s)[i])
    decreases |s|
  {
    if s == "" {
    } else if IsSpace(s[0]) {
      WordsAreWords(s[1..]);
    } else {
      WordsAreWords(s[WordLength(s)..]);
    }
  }

  // Cutting at a space cuts between words.
  lemma {:induction false} WordsConcat(a: string, b: string)
    requires a == "" || b == "" || IsSpace(a[|a| - 1]) || IsSpace(b[0])
    ensures WordsOf(a + b) == WordsOf(a) + WordsOf(b)
    decreases |a|
  {
    hide IsSpace;
    if a == "" {
      assert a + b == b;
    } else if IsSpace(a[0]) {
      WordsConcat(a[1..], b);
      assert (a + b)[1..] == a[1..] + b && (a + b)[0] == a[0];
    } else {
      var n := WordLength(a);
      WordLengthConcat(a, b);
      hide WordLength;
      assert (a + b)[0] == a[0] && (a + b)[..n] == a[..n] && (a + b)[n..] == a[n..] + b;
      WordsConcat(a[n..], b);
      Regroup([a[..n]], WordsOf(a[n..]), WordsOf(b));
    }
  }

  lemma {:induction false} WordLengthConcat(a: string, b: string)
    requires a != "" && !IsSpace(a[0])
    requires b == "" || IsSpace(a[|a| - 1]) || IsSpace(b[0])
    ensures WordLength(a + b) == WordLength(a) > 0
  {
    var m, n := WordLength(a + b), WordLength(a);
    assert forall i :: 0 <= i < |a| ==> (a + b)[i] == a[i];
    assert b != "" ==> (a + b)[|a|] == b[0];
  }

  lemma {:induction false} SpacesHaveNoWords(s: string)
    requires AllSpace(s)
    ensures WordsOf(s) == []
  {
    if s != "" {
      SpacesHaveNoWords(s[1..]);
    }
  }

  lemma {:induction false} PaddingHasNoWords(before: string, s: string, after: string)
    requires AllSpace(before) && AllSpace(after)
    ensures WordsOf(before + s + after) == WordsOf(s)
  {
    hide IsSpace;
    hide WordsOf;
    SpacesHaveNoWords(before);
    SpacesHaveNoWords(after);
    WordsConcat(s, after);
    WordsConcat(before, s + after);
    assert before + s + after == before + (s + after);
  }

  lemma {:induction false} TrimKeepsWords(s: string)
    ensures WordsOf(Trim(s)) == WordsOf(s)
  {
    var before, after := TrimSplits(s);
    PaddingHasNoWords(before, Trim(s), after);
  }

  lemma {:induction false} WordsAcrossSpaces(a: string, spaces: string, b: string)
    requires spaces != "" && AllSpace(spaces)
    ensures WordsOf(a + spaces + b) == WordsOf(a) + WordsOf(b)
  {
    SpacesHaveNoWords(spaces);
    WordsConcat(spaces, b);
    WordsConcat(a, spaces + b);
    assert a + spaces + b == a + (spaces + b);
  }

  lemma {:induction false} OneWord(w: string)
    requires IsWord(w)
    ensures WordsOf(w) == [w]
  {
    assert WordLength(w) == |w| && w[..|w|] == w && w[|w|..] == "";
  }

  lemma {:induction false} WordOrNothing(w: string)
    requires forall i :: 0 <= i < |w| ==> !IsSpace(w[i])
    ensures WordsOf(w) == NonEmpty([w])
  {
    assert NonEmpty([w]) == (if w == "" then [] else [w]) + NonEmpty([]);
    if w != "" {
      OneWord(w);
    }
  }

  lemma {:induction false} SplitFindsWords(s: string)
    ensures NonEmpty(SplitOnSpaces(s)) == WordsOf(s)
    decreases |s|
  {
    hide WordsOf;
    hide NonEmpty;
    hide IsSpace;
    var n := WordLength(s);
    WordOrNothing(s[..n]);
    if n == |s| {
      assert s[..n] == s;
    } else {
      var m := n + SpaceLength(s[n..]);
      SplitFindsWords(s[m..]);
      NonEmptyCons(s[..n], SplitOnSpaces(s[m..]));
      assert s == s[..n] + s[n..m] + s[m..];
      WordsAcrossSpaces(s[..n], s[n..m], s[m..]);
    }
  }

  lemma {:induction false} NonEmptyCons(text: string, texts: seq<string>)
    ensures NonEmpty([text] + texts) == NonEmpty([text]) + NonEmpty(texts)
  {
    assert ([text] + texts)[1..] == texts;
    assert NonEmpty([text]) == (if text == "" then [] else [text]) + NonEmpty([]);
  }

  // A trimmed text splits without empty strings.
  lemma {:induction false} TrimmedSplitsClean(s: string)
    requires s != "" && Trimmed(s)
    ensures NonEmpty(SplitOnSpaces(s)) == SplitOnSpaces(s)
    decreases |s|
  {
    var n := WordLength(s);
    if n == |s| {
      assert NonEmpty([s]) == [s] + NonEmpty([]);
    } else {
      var m := n + SpaceLength(s[n..]);
      TrimmedSplitsClean(s[m..]);
      assert SplitOnSpaces(s)[1..] == SplitOnSpaces(s[m..]);
    }
  }

  // `countTokens`.
  function CountTokens(text: string): nat {
    var trimmed := Trim(text);
    if trimmed == "" then 0 else |SplitOnSpaces(trimmed)|
  }

  lemma {:induction false} CountTokensCountsWords(text: string)
    ensures CountTokens(text) == |WordsOf(text)|
  {
    var _, _ := TrimSplits(text);
    TrimKeepsWords(text);
    SplitFindsWords(Trim(text));
    if Trim(text) != "" {
      TrimmedSplitsClean(Trim(text));
    }
  }

  // Joining words with single spaces keeps them apart.
  lemma {:induction false} JoinKeepsWords(words: seq<string>)
    requires forall i :: 0 <= i < |words| ==> IsWord(words[i])
    ensures WordsOf(Join(words, " ")) == words
  {
    hide WordsOf;
    if words == [] {
      SpacesHaveNoWords("");
    } else {
      OneWord(words[0]);
      if |words| > 1 {
        JoinKeepsWords(words[1..]);
        WordsAcrossSpaces(words[0], " ", Join(words[1..], " "));
      }
    }
  }
}
