/** The sentence-boundary chunker: words conserved, chunks bounded, short sentences kept whole. */
module Chunker {
  import opened Strings
  import opened Whitespace
  import opened Words

  // ---------------------------------------------------------------------------
  // Sentences
  // ---------------------------------------------------------------------------

  predicate Closer(c: char) {
    c in {'\'', '"', ')', ']', '}'} || IsSpace(c)
  }

  // The lookbehind of the splitting expression: a sentence-ending mark, then only closers.
  predicate EndsSentence(before: string) {
    before != "" &&
    var c := before[|before| - 1];
    c in {'.', '!', '?'} || (Closer(c) && EndsSentence(before[..|before| - 1]))
  }

  // The first space in `s` that follows a sentence end; `before` is the text already passed.
  function FirstBreak(before: string, s: string): (k: nat)
    ensures k <= |s| && (k < |s| ==> IsSpace(s[k]))
    decreases |s|
  {
    if s == "" then 0
    else if IsSpace(s[0]) && EndsSentence(before) then 0
    else 1 + FirstBreak(before + [s[0]], s[1..])
  }

  // `text.split(/(?<=...)\s+/)`.
  function SentencePieces(before: string, s: string): seq<string>
    decreases |s|
  {
    var k := FirstBreak(before, s);
    if k == |s| then [s]
    else
      var m := k + SpaceLength(s[k..]);
      [s[..k]] + SentencePieces(before + s[..m], s[m..])
  }

  function TrimAll(texts: seq<string>): seq<string> {
    if texts == [] then [] else [Trim(texts[0])] + TrimAll(texts[1..])
  }

  function SplitIntoSentences(text: string): seq<string> {
    NonEmpty(TrimAll(SentencePieces("", text)))
  }

  function SentenceWords(sentence: string): seq<string> {
    NonEmpty(SplitOnSpaces(Trim(sentence)))
  }

  // Words of each sentence.
  function WordLists(sentences: seq<string>): (lists: seq<seq<string>>)
    ensures |lists| == |sentences|
    ensures forall i :: 0 <= i < |lists| ==> lists[i] == SentenceWords(sentences[i])
  {
    if sentences == [] then [] else [SentenceWords(sentences[0])] + WordLists(sentences[1..])
  }

  function Flatten(lists: seq<seq<string>>): seq<string> {
    if lists == [] then [] else lists[0] + Flatten(lists[1..])
  }

  lemma {:induction false} FlattenAppend(a: seq<seq<string>>, b: seq<seq<string>>)
    ensures Flatten(a + b) == Flatten(a) + Flatten(b)
  {
    if a == [] {
      assert a + b == b;
    } else {
      FlattenAppend(a[1..], b);
      assert (a + b)[1..] == a[1..] + b && (a + b)[0] == a[0];
      assert Flatten(a + b) == a[0] + (Flatten(a[1..]) + Flatten(b));
    }
  }

  lemma {:induction false} SentenceWordsAreWords(sentence: string)
    ensures SentenceWords(sentence) == WordsOf(sentence)
  {
    SplitFindsWords(Trim(sentence));
    TrimKeepsWords(sentence);
  }

  lemma {:induction false} KeptSentencesKeepWords(pieces: seq<string>)
    ensures Flatten(WordLists(NonEmpty(TrimAll(pieces)))) == Flatten(WordLists(pieces))
  {
    if pieces != [] {
      var kept := NonEmpty(TrimAll(pieces[1..]));
      KeptSentencesKeepWords(pieces[1..]);
      assert TrimAll(pieces)[1..] == TrimAll(pieces[1..]);
      assert WordLists(pieces)[1..] == WordLists(pieces[1..]);
      var t := Trim(pieces[0]);
      SentenceWordsAreWords(t);
      SentenceWordsAreWords(pieces[0]);
      TrimKeepsWords(pieces[0]);
      if t == "" {
        assert NonEmpty(TrimAll(pieces)) == kept;
      } else {
        assert NonEmpty(TrimAll(pieces)) == [t] + kept;
        assert WordLists([t] + kept)[1..] == WordLists(kept);
      }
    }
  }

  lemma {:induction false} FlattenFirst(sentence: string, rest: seq<string>)
    ensures Flatten(WordLists([sentence] + rest)) == SentenceWords(sentence) + Flatten(WordLists(rest))
  {
    hide SentenceWords;
    assert ([sentence] + rest)[1..] == rest;
    assert WordLists([sentence] + rest)[1..] == WordLists(rest);
  }

  lemma {:induction false} PiecesKeepWords(before: string, s: string)
    ensures Flatten(WordLists(SentencePieces(before, s))) == WordsOf(s)
    decreases |s|
  {
    hide WordsOf;
    hide SentenceWords;
    hide IsSpace;
    hide FirstBreak;
    hide SpaceLength;
    hide SentencePieces;
    hide AllSpace;
    var k := FirstBreak(before, s);
    PiecesUnfold(before, s);
    SentenceWordsAreWords(s[..k]);
    if k == |s| {
      assert s[..k] == s;
      assert Flatten(WordLists([s])) == SentenceWords(s) + Flatten([]);
    } else {
      SpacesAt(s, k);
      var m := k + SpaceLength(s[k..]);
      var rest := SentencePieces(before + s[..m], s[m..]);
      PiecesKeepWords(before + s[..m], s[m..]);
      assert s == s[..k] + s[k..m] + s[m..];
      WordsAcrossSpaces(s[..k], s[k..m], s[m..]);
      FlattenFirst(s[..k], rest);
      hide Flatten;
      hide WordLists;
    }
  }

  // ---------------------------------------------------------------------------
  // Packing
  // ---------------------------------------------------------------------------

  function Slices(words: seq<string>, maxTokens: nat): seq<seq<string>>
    requires maxTokens >= 1
  {
    if words == [] then []
    else if |words| <= maxTokens then [words]
    else [words[..maxTokens]] + Slices(words[maxTokens..], maxTokens)
  }

  // Sentences packed greedily behind the words held in `current`.
  function Pack(current: seq<string>, lists: seq<seq<string>>, maxTokens: nat): seq<seq<string>>
    requires maxTokens >= 1
    decreases |lists|
  {
    if lists == [] then (if current == [] then [] else [current])
    else if |lists[0]| > maxTokens then
      (if current == [] then [] else [current]) + Slices(lists[0], maxTokens) + Pack([], lists[1..], maxTokens)
    else if current != [] && |current| + |lists[0]| > maxTokens then
      [current] + Pack(lists[0], lists[1..], maxTokens)
    else
      Pack(current + lists[0], lists[1..], maxTokens)
  }

  lemma {:induction false} PackUnfolds(current: seq<string>, first: seq<string>, rest: seq<seq<string>>, maxTokens: nat)
    requires maxTokens >= 1
    ensures
      var packed := Pack(current, [first] + rest, maxTokens);
      var flush := current != [] && |current| + |first| > maxTokens;
      && (first == [] && |current| <= maxTokens ==> packed == Pack(current, rest, maxTokens))
      && (|first| > maxTokens && flush ==> packed == [current] + Slices(first, maxTokens) + Pack([], rest, maxTokens))
      && (|first| > maxTokens && !flush ==> packed == Slices(first, maxTokens) + Pack([], rest, maxTokens))
      && (|first| <= maxTokens && flush ==> packed == [current] + Pack(first, rest, maxTokens))
      && (|first| <= maxTokens && !flush ==> packed == Pack(current + first, rest, maxTokens))
  {
    hide Slices;
    var lists := [first] + rest;
    assert lists[1..] == rest;
    if first == [] {
      assert current + first == current;
    }
    if |first| > maxTokens && current == [] {
      assert [] + Slices(first, maxTokens) == Slices(first, maxTokens);
    }
  }

  datatype TextChunk = TextChunk(text: string, tokenCount: nat)

  function MakeChunk(words: seq<string>): TextChunk {
    TextChunk(Join(words, " "), |words|)
  }

  function MakeChunks(lists: seq<seq<string>>): seq<TextChunk> {
    if lists == [] then [] else [MakeChunk(lists[0])] + MakeChunks(lists[1..])
  }

  lemma {:induction false} MakeChunksAt(lists: seq<seq<string>>, i: nat)
    requires i < |lists|
    ensures |MakeChunks(lists)| == |lists| && MakeChunks(lists)[i] == MakeChunk(lists[i])
  {
    if |lists| > 1 {
      MakeChunksAt(lists[1..], if i > 0 then i - 1 else 0);
    } else {
      assert MakeChunks(lists) == [MakeChunk(lists[0])] + MakeChunks([]);
    }
  }

  lemma {:induction false} MakeChunksAppend(a: seq<seq<string>>, b: seq<seq<string>>)
    ensures MakeChunks(a + b) == MakeChunks(a) + MakeChunks(b)
  {
    hide MakeChunk;
    if a == [] {
      assert a + b == b;
    } else {
      MakeChunksAppend(a[1..], b);
      assert (a + b)[0] == a[0] && (a + b)[1..] == a[1..] + b;
      Regroup([MakeChunk(a[0])], MakeChunks(a[1..]), MakeChunks(b));
    }
  }

  lemma {:induction false} MakeChunksPush(lists: seq<seq<string>>, words: seq<string>)
    ensures MakeChunks(lists + [words]) == MakeChunks(lists) + [MakeChunk(words)]
  {
    MakeChunksAppend(lists, [words]);
    assert MakeChunks([words]) == [MakeChunk(words)] + MakeChunks([]);
  }

  datatype ChunkResult = RangeError | Chunks(chunks: seq<TextChunk>)

  ghost function ChunkLists(text: string, maxTokens: nat): seq<seq<string>>
    requires maxTokens >= 1
  {
    Pack([], WordLists(SplitIntoSentences(Trim(text))), maxTokens)
  }

  lemma {:induction false} SlicesUnfold(words: seq<string>, maxTokens: nat)
    requires maxTokens >= 1 && words != []
    ensures
      var n := if |words| < maxTokens then |words| else maxTokens;
      MakeChunks(Slices(words, maxTokens)) == [MakeChunk(words[..n])] + MakeChunks(Slices(words[n..], maxTokens))
  {
    if |words| <= maxTokens {
      assert words[..|words|] == words && words[|words|..] == [];
      assert Slices(words, maxTokens) == [] + [words];
      MakeChunksPush([], words);
    } else {
      assert Slices(words, maxTokens)[1..] == Slices(words[maxTokens..], maxTokens);
    }
  }

  method EmitSlices(words: seq<string>, maxTokens: nat) returns (chunks: seq<TextChunk>)
    requires maxTokens >= 1
    ensures chunks == MakeChunks(Slices(words, maxTokens))
  {
    hide Slices;
    hide MakeChunks;
    hide MakeChunk;
    chunks := [];
    var i := 0;
    ghost var rest := words;
    assert chunks + MakeChunks(Slices(rest, maxTokens)) == MakeChunks(Slices(words, maxTokens));
    while i < |words|
      invariant rest == if i < |words| then words[i..] else []
      invariant chunks + MakeChunks(Slices(rest, maxTokens)) == MakeChunks(Slices(words, maxTokens))
    {
      var end := if i + maxTokens < |words| then i + maxTokens else |words|;
      var slice := words[i..end];
      SlicesUnfold(rest, maxTokens);
      assert rest[..end - i] == slice && rest[end - i..] == words[end..];
      Regroup(chunks, [MakeChunk(slice)], MakeChunks(Slices(words[end..], maxTokens)));
      rest := words[end..];
      chunks := chunks + [MakeChunk(slice)];
      i := i + maxTokens;
    }
    NoSlices(maxTokens);
    assert chunks + [] == chunks;
  }

  lemma {:induction false} NoSlices(maxTokens: nat)
    requires maxTokens >= 1
    ensures MakeChunks(Slices([], maxTokens)) == []
  {
  }

  // The chunks still to come.
  ghost function Pending(current: seq<string>, lists: seq<seq<string>>, maxTokens: nat): seq<TextChunk>
    requires maxTokens >= 1
  {
    MakeChunks(Pack(current, lists, maxTokens))
  }

  lemma {:induction false} PendingUnfolds(current: seq<string>, first: seq<string>,
                                          rest: seq<seq<string>>, maxTokens: nat)
    requires maxTokens >= 1 && |current| <= maxTokens
    ensures
      var pending := Pending(current, [first] + rest, maxTokens);
      && (first == [] ==> pending == Pending(current, rest, maxTokens))
      && (current != [] && |current| + |first| > maxTokens ==>
            pending == [MakeChunk(current)] + Pending([], [first] + rest, maxTokens))
      && (current == [] && |first| > maxTokens ==>
            pending == MakeChunks(Slices(first, maxTokens)) + Pending([], rest, maxTokens))
      && (|current| + |first| <= maxTokens ==> pending == Pending(current + first, rest, maxTokens))
  {
    hide Pack;
    hide Slices;
    hide MakeChunk;
    PackUnfolds(current, first, rest, maxTokens);
    PackUnfolds([], first, rest, maxTokens);
    assert [] + first == first;
    var tail := Pack([], rest, maxTokens);
    MakeChunksAppend(Slices(first, maxTokens), tail);
    if current != [] && |current| + |first| > maxTokens {
      var later := Pack([], [first] + rest, maxTokens);
      assert Pack(current, [first] + rest, maxTokens) == [current] + later;
      MakeChunksAppend([current], later);
      MakeChunksPush([], current);
      assert [] + [current] == [current];
    }
  }

  method ChunkText(text: string, maxTokens: int) returns (r: ChunkResult)
    ensures maxTokens < 1 <==> r == RangeError
    ensures maxTokens >= 1 ==> r == Chunks(MakeChunks(ChunkLists(text, maxTokens)))
  {
    if maxTokens < 1 {
      return RangeError;
    }
    var trimmed := Trim(text);
    if trimmed == "" {
      BlankHasNoChunks(text, maxTokens);
      return Chunks([]);
    }
    var sentences := SplitIntoSentences(trimmed);
    var chunks: seq<TextChunk> := [];
    var currentWords: seq<string> := [];
    ghost var expected := MakeChunks(ChunkLists(text, maxTokens));
    assert sentences[0..] == sentences && chunks + expected == expected;
    hide Pending;
    hide Slices;
    hide MakeChunks;
    hide MakeChunk;
    hide NonEmpty;
    for i := 0 to |sentences|
      invariant |currentWords| <= maxTokens
      invariant chunks + Pending(currentWords, WordLists(sentences[i..]), maxTokens) == expected
    {
      var sentenceWords := NonEmpty(SplitOnSpaces(Trim(sentences[i])));
      ghost var rest := WordLists(sentences[i + 1..]);
      assert WordLists(sentences[i..]) == [sentenceWords] + rest;
      PendingUnfolds(currentWords, sentenceWords, rest, maxTokens);
      if |sentenceWords| == 0 {
        continue;
      }
      if |currentWords| > 0 && |currentWords| + |sentenceWords| > maxTokens {
        Regroup(chunks, [MakeChunk(currentWords)], Pending([], [sentenceWords] + rest, maxTokens));
        chunks := chunks + [MakeChunk(currentWords)];
        currentWords := [];
        PendingUnfolds(currentWords, sentenceWords, rest, maxTokens);
      }
      // Words still held behind an oversized sentence were flushed just above.
      if |sentenceWords| > maxTokens {
        var slices := EmitSlices(sentenceWords, maxTokens);
        Regroup(chunks, slices, Pending([], rest, maxTokens));
        chunks := chunks + slices;
      } else {
        currentWords := currentWords + sentenceWords;
      }
    }
    assert sentences[|sentences|..] == [];
    PendingEnds(currentWords, maxTokens);
    if |currentWords| > 0 {
      chunks := chunks + [MakeChunk(currentWords)];
    }
    assert chunks == expected;
    r := Chunks(chunks);
  }

  lemma {:induction false} PendingEnds(current: seq<string>, maxTokens: nat)
    requires maxTokens >= 1
    ensures Pending(current, [], maxTokens) == if current == [] then [] else [MakeChunk(current)]
  {
    MakeChunksPush([], current);
    assert [] + [current] == [current];
  }

  lemma {:induction false} BlankHasNoChunks(text: string, maxTokens: nat)
    requires maxTokens >= 1 && Trim(text) == ""
    ensures ChunkLists(text, maxTokens) == []
  {
    assert SentencePieces("", "") == [""];
    assert TrimAll([""]) == [Trim("")] + TrimAll([]);
    assert NonEmpty([""]) == NonEmpty([]);
  }

  // ---------------------------------------------------------------------------
  // What packing guarantees
  // ---------------------------------------------------------------------------

  lemma {:induction false} SlicesAreBounded(words: seq<string>, maxTokens: nat)
    requires maxTokens >= 1
    ensures Flatten(Slices(words, maxTokens)) == words
    ensures forall i :: 0 <= i < |Slices(words, maxTokens)| ==> 1 <= |Slices(words, maxTokens)[i]| <= maxTokens
    decreases |words|
  {
    if words == [] {
    } else if |words| <= maxTokens {
      assert Flatten([words]) == words + Flatten([]);
    } else {
      SlicesAreBounded(words[maxTokens..], maxTokens);
    }
  }

  lemma {:induction false} PackKeepsWords(current: seq<string>, lists: seq<seq<string>>, maxTokens: nat)
    requires maxTokens >= 1
    ensures Flatten(Pack(current, lists, maxTokens)) == current + Flatten(lists)
    decreases |lists|
  {
    hide Slices;
    assert Flatten([current]) == current + Flatten([]) == current;
    if lists != [] {
      assert Flatten(lists) == lists[0] + Flatten(lists[1..]);
      Regroup(current, lists[0], Flatten(lists[1..]));
    }
    hide Flatten;
    if lists == [] {
      assert Flatten([]) == [];
    } else if |lists[0]| > maxTokens {
      var held := if current == [] then [] else [current];
      var slices, rest := Slices(lists[0], maxTokens), Pack([], lists[1..], maxTokens);
      assert Flatten([]) == [];
      SlicesAreBounded(lists[0], maxTokens);
      PackKeepsWords([], lists[1..], maxTokens);
      FlattenAppend(held + slices, rest);
      FlattenAppend(held, slices);
    } else if current != [] && |current| + |lists[0]| > maxTokens {
      PackKeepsWords(lists[0], lists[1..], maxTokens);
      FlattenAppend([current], Pack(lists[0], lists[1..], maxTokens));
    } else {
      PackKeepsWords(current + lists[0], lists[1..], maxTokens);
    }
  }

  lemma {:induction false} PackIsBounded(current: seq<string>, lists: seq<seq<string>>, maxTokens: nat)
    requires maxTokens >= 1 && |current| <= maxTokens
    ensures forall i :: 0 <= i < |Pack(current, lists, maxTokens)| ==>
      1 <= |Pack(current, lists, maxTokens)[i]| <= maxTokens
    decreases |lists|
  {
    if lists == [] {
    } else if |lists[0]| > maxTokens {
      SlicesAreBounded(lists[0], maxTokens);
      PackIsBounded([], lists[1..], maxTokens);
    } else if current != [] && |current| + |lists[0]| > maxTokens {
      PackIsBounded(lists[0], lists[1..], maxTokens);
    } else {
      PackIsBounded(current + lists[0], lists[1..], maxTokens);
    }
  }

  // Number of words before list `i`.
  function Offset(lists: seq<seq<string>>, i: nat): nat
    requires i <= |lists|
  {
    if i == 0 then 0 else Offset(lists, i - 1) + |lists[i - 1]|
  }

  // The words from `from` on, `length` of them, lie inside one chunk.
  ghost predicate Within(chunks: seq<seq<string>>, from: nat, length: nat) {
    exists j :: 0 <= j < |chunks| && Offset(chunks, j) <= from && from + length <= Offset(chunks, j) + |chunks[j]|
  }

  lemma {:induction false} OffsetAppend(a: seq<seq<string>>, b: seq<seq<string>>, j: nat)
    requires j <= |b|
    ensures Offset(a + b, |a| + j) == |Flatten(a)| + Offset(b, j)
    decreases |a| + j
  {
    if j > 0 {
      OffsetAppend(a, b, j - 1);
    } else if a != [] {
      var n := |a| - 1;
      OffsetAppend(a[..n], [a[n]] + b, 0);
      assert a[..n] + ([a[n]] + b) == a + b;
      assert a == a[..n] + [a[n]];
      FlattenAppend(a[..n], [a[n]]);
      assert Flatten([a[n]]) == a[n] + Flatten([]);
    }
  }

  lemma {:induction false} WithinBehind(a: seq<seq<string>>, b: seq<seq<string>>, from: nat, length: nat)
    requires Within(b, from, length)
    ensures Within(a + b, |Flatten(a)| + from, length)
  {
    var j :| 0 <= j < |b| && Offset(b, j) <= from && from + length <= Offset(b, j) + |b[j]|;
    OffsetAppend(a, b, j);
    assert (a + b)[|a| + j] == b[j];
  }

  // The words held back stay together at the front of the next chunk.
  lemma {:induction false} PackStartsWith(current: seq<string>, lists: seq<seq<string>>, maxTokens: nat)
    requires maxTokens >= 1 && current != []
    ensures Pack(current, lists, maxTokens) != [] && current <= Pack(current, lists, maxTokens)[0]
    decreases |lists|
  {
    if lists == [] {
    } else if |lists[0]| > maxTokens || |current| + |lists[0]| > maxTokens {
    } else {
      PackStartsWith(current + lists[0], lists[1..], maxTokens);
    }
  }

  lemma {:induction false} FirstChunkHolds(chunks: seq<seq<string>>, from: nat, length: nat)
    requires chunks != [] && from + length <= |chunks[0]|
    ensures Within(chunks, from, length)
  {
    assert Offset(chunks, 0) == 0;
  }

  lemma {:induction false} PackKeepsShortLists(current: seq<string>, lists: seq<seq<string>>, maxTokens: nat, i: nat)
    requires maxTokens >= 1 && i < |lists| && 1 <= |lists[i]| <= maxTokens
    ensures Within(Pack(current, lists, maxTokens), |current| + Offset(lists, i), |lists[i]|)
    decreases |lists|
  {
    hide Slices;
    hide Within;
    var first, rest := lists[0], lists[1..];
    if i > 0 {
      OffsetAppend([first], rest, i - 1);
      assert [first] + rest == lists && Flatten([first]) == first + Flatten([]);
    }
    if |first| > maxTokens {
      var held := if current == [] then [] else [current];
      PackKeepsShortLists([], rest, maxTokens, i - 1);
      SlicesAreBounded(first, maxTokens);
      FlattenAppend(held, Slices(first, maxTokens));
      assert Flatten([current]) == current + Flatten([]);
      WithinBehind(held + Slices(first, maxTokens), Pack([], rest, maxTokens), Offset(rest, i - 1), |lists[i]|);
    } else if current != [] && |current| + |first| > maxTokens {
      var tail := Pack(first, rest, maxTokens);
      if i == 0 {
        PackStartsWith(first, rest, maxTokens);
        FirstChunkHolds(tail, 0, |first|);
      } else {
        PackKeepsShortLists(first, rest, maxTokens, i - 1);
      }
      assert Flatten([current]) == current + Flatten([]);
      WithinBehind([current], tail, Offset(lists, i), |lists[i]|);
    } else if i == 0 {
      PackStartsWith(current + first, rest, maxTokens);
      FirstChunkHolds(Pack(current, lists, maxTokens), |current|, |first|);
    } else {
      PackKeepsShortLists(current + first, rest, maxTokens, i - 1);
    }
  }

  // Why a chunk of `size` words ends at word `end`: the sentence that starts there would not fit, or
  // an oversized sentence is being cut into full slices and its last one stands alone.
  ghost predicate EndsFor(lists: seq<seq<string>>, i: nat, base: nat, end: nat, size: nat, maxTokens: nat)
    requires i < |lists|
  {
    var at := base + Offset(lists, i);
    || (end == at && size + |lists[i]| > maxTokens)
    || (|lists[i]| > maxTokens && at + size <= end <= at + |lists[i]| && (size == maxTokens || end == at + |lists[i]|))
  }

  ghost predicate MustEnd(lists: seq<seq<string>>, base: nat, end: nat, size: nat, maxTokens: nat) {
    exists i :: 0 <= i < |lists| && EndsFor(lists, i, base, end, size, maxTokens)
  }

  lemma {:induction false} MustEndBehind(first: seq<string>, rest: seq<seq<string>>, base: nat, end: nat, size: nat,
                                         maxTokens: nat)
    requires MustEnd(rest, base + |first|, end, size, maxTokens)
    ensures MustEnd([first] + rest, base, end, size, maxTokens)
  {
    var i :| 0 <= i < |rest| && EndsFor(rest, i, base + |first|, end, size, maxTokens);
    OffsetAppend([first], rest, i);
    assert Flatten([first]) == first + Flatten([]);
    assert ([first] + rest)[1 + i] == rest[i];
    assert EndsFor([first] + rest, 1 + i, base, end, size, maxTokens);
  }

  lemma {:induction false} SlicesEnd(words: seq<string>, maxTokens: nat, j: nat)
    requires maxTokens >= 1 && j < |Slices(words, maxTokens)|
    ensures
      var slices := Slices(words, maxTokens);
      && Offset(slices, j + 1) <= |words|
      && (|slices[j]| == maxTokens || (j + 1 == |slices| && Offset(slices, j + 1) == |words|))
      && (j + 1 == |slices| ==> Offset(slices, j + 1) == |words|)
    decreases |words|
  {
    var slices := Slices(words, maxTokens);
    assert Offset(slices, 1) == Offset(slices, 0) + |slices[0]| == |slices[0]|;
    if |words| > maxTokens {
      var rest := Slices(words[maxTokens..], maxTokens);
      assert slices == [slices[0]] + rest;
      if j > 0 {
        SlicesEnd(words[maxTokens..], maxTokens, j - 1);
        OffsetAppend([slices[0]], rest, j);
        assert Flatten([slices[0]]) == slices[0] + Flatten([]);
      } else {
        SlicesAreBounded(words[maxTokens..], maxTokens);
        assert rest != [];
      }
    }
  }

  // A chunk list whose chunks, placed behind `base` words, all end for a reason but the last.
  ghost predicate EndWell(lists: seq<seq<string>>, base: nat, chunks: seq<seq<string>>, from: nat, maxTokens: nat) {
    forall j :: 0 < j < |chunks| ==> MustEnd(lists, base, from + Offset(chunks, j), |chunks[j - 1]|, maxTokens)
  }

  lemma {:induction false} EndBehind(head: seq<seq<string>>, tail: seq<seq<string>>, first: seq<string>,
                                     rest: seq<seq<string>>, base: nat, from: nat, maxTokens: nat, j: nat)
    requires EndWell(rest, base + |first|, tail, from + |Flatten(head)|, maxTokens) && |head| < j < |head| + |tail|
    ensures MustEnd([first] + rest, base, from + Offset(head + tail, j), |(head + tail)[j - 1]|, maxTokens)
  {
    hide MustEnd;
    var l := j - |head|;
    OffsetAppend(head, tail, l);
    assert (head + tail)[j - 1] == tail[l - 1];
    assert MustEnd(rest, base + |first|, from + |Flatten(head)| + Offset(tail, l), |tail[l - 1]|, maxTokens);
    MustEndBehind(first, rest, base, from + Offset(head + tail, j), |tail[l - 1]|, maxTokens);
  }

  lemma {:induction false} HeldEnds(current: seq<string>, tail: seq<seq<string>>, first: seq<string>,
                                    rest: seq<seq<string>>, from: nat, maxTokens: nat)
    requires |current| + |first| > maxTokens
    ensures MustEnd([first] + rest, from + |current|, from + Offset([current] + tail, 1), |current|, maxTokens)
  {
    assert Offset([current] + tail, 1) == Offset([current] + tail, 0) + |([current] + tail)[0]| == |current|;
    assert Offset([first] + rest, 0) == 0;
    assert EndsFor([first] + rest, 0, from + |current|, from + |current|, |current|, maxTokens);
  }

  lemma {:induction false} SliceEnds(held: seq<seq<string>>, tail: seq<seq<string>>, first: seq<string>,
                                     rest: seq<seq<string>>, from: nat, maxTokens: nat, j: nat)
    requires |first| > maxTokens >= 1 && |held| < j <= |held| + |Slices(first, maxTokens)|
    ensures
      var chunks := held + Slices(first, maxTokens) + tail;
      MustEnd([first] + rest, from + |Flatten(held)|, from + Offset(chunks, j), |chunks[j - 1]|, maxTokens)
  {
    var slices, l := Slices(first, maxTokens), j - |held|;
    SlicesEnd(first, maxTokens, l - 1);
    SlicesAreBounded(first, maxTokens);
    hide Slices;
    var chunks := held + slices + tail;
    assert chunks == held + (slices + tail);
    OffsetAppend(held, slices + tail, l);
    OffsetPrefix(slices, tail, l);
    assert chunks[j - 1] == slices[l - 1];
    assert Offset(slices, l) == Offset(slices, l - 1) + |slices[l - 1]|;
    assert Offset([first] + rest, 0) == 0;
    hide Offset;
    hide Flatten;
    assert EndsFor([first] + rest, 0, from + |Flatten(held)|, from + Offset(chunks, j), |chunks[j - 1]|, maxTokens);
  }

  lemma {:induction false} OversizedEndsWell(current: seq<string>, first: seq<string>, rest: seq<seq<string>>,
                                             tail: seq<seq<string>>, maxTokens: nat, from: nat)
    requires |first| > maxTokens >= 1
    requires EndWell(rest, from + |current| + |first|, tail, from + |current| + |first|, maxTokens)
    ensures
      var held := if current == [] then [] else [current];
      EndWell([first] + rest, from + |current|, held + Slices(first, maxTokens) + tail, from, maxTokens)
  {
    var held := if current == [] then [] else [current];
    var slices := Slices(first, maxTokens);
    assert Flatten(held) == current by {
      assert Flatten([current]) == current + Flatten([]);
    }
    SlicesAreBounded(first, maxTokens);
    FlattenAppend(held, slices);
    hide Slices;
    hide Flatten;
    hide Offset;
    hide MustEnd;
    var chunks := held + slices + tail;
    forall j | 0 < j < |chunks|
      ensures MustEnd([first] + rest, from + |current|, from + Offset(chunks, j), |chunks[j - 1]|, maxTokens)
    {
      if j <= |held| {
        assert chunks == [current] + (slices + tail);
        HeldEnds(current, slices + tail, first, rest, from, maxTokens);
      } else if j <= |held| + |slices| {
        SliceEnds(held, tail, first, rest, from, maxTokens, j);
      } else {
        EndBehind(held + slices, tail, first, rest, from + |current|, from, maxTokens, j);
      }
    }
  }

  lemma {:induction false} FlushEndsWell(current: seq<string>, first: seq<string>, rest: seq<seq<string>>,
                                         tail: seq<seq<string>>, maxTokens: nat, from: nat)
    requires |current| + |first| > maxTokens
    requires EndWell(rest, from + |current| + |first|, tail, from + |current|, maxTokens)
    ensures EndWell([first] + rest, from + |current|, [current] + tail, from, maxTokens)
  {
    assert Flatten([current]) == current + Flatten([]);
    hide Flatten;
    hide Offset;
    hide MustEnd;
    var chunks := [current] + tail;
    forall j | 0 < j < |chunks|
      ensures MustEnd([first] + rest, from + |current|, from + Offset(chunks, j), |chunks[j - 1]|, maxTokens)
    {
      if j == 1 {
        HeldEnds(current, tail, first, rest, from, maxTokens);
      } else {
        EndBehind([current], tail, first, rest, from + |current|, from, maxTokens, j);
      }
    }
  }

  lemma {:induction false} JoinedEndsWell(first: seq<string>, rest: seq<seq<string>>, base: nat,
                                          chunks: seq<seq<string>>, maxTokens: nat, from: nat)
    requires EndWell(rest, base + |first|, chunks, from, maxTokens)
    ensures EndWell([first] + rest, base, chunks, from, maxTokens)
  {
    hide Offset;
    hide MustEnd;
    forall j | 0 < j < |chunks|
      ensures MustEnd([first] + rest, base, from + Offset(chunks, j), |chunks[j - 1]|, maxTokens)
    {
      MustEndBehind(first, rest, base, from + Offset(chunks, j), |chunks[j - 1]|, maxTokens);
    }
  }

  // No chunk is closed early.
  lemma {:induction false} PackIsGreedy(current: seq<string>, lists: seq<seq<string>>, maxTokens: nat, from: nat)
    requires maxTokens >= 1
    ensures EndWell(lists, from + |current|, Pack(current, lists, maxTokens), from, maxTokens)
    decreases |lists|
  {
    if lists != [] {
      var first, rest := lists[0], lists[1..];
      assert [first] + rest == lists;
      hide EndWell;
      hide Slices;
      if |first| > maxTokens {
        PackIsGreedy([], rest, maxTokens, from + |current| + |first|);
        OversizedEndsWell(current, first, rest, Pack([], rest, maxTokens), maxTokens, from);
      } else if current != [] && |current| + |first| > maxTokens {
        PackIsGreedy(first, rest, maxTokens, from + |current|);
        FlushEndsWell(current, first, rest, Pack(first, rest, maxTokens), maxTokens, from);
      } else {
        PackIsGreedy(current + first, rest, maxTokens, from);
        JoinedEndsWell(first, rest, from + |current|, Pack(current + first, rest, maxTokens), maxTokens, from);
      }
    }
  }

  lemma {:induction false} OffsetPrefix(a: seq<seq<string>>, b: seq<seq<string>>, j: nat)
    requires j <= |a|
    ensures Offset(a + b, j) == Offset(a, j)
  {
    if j > 0 {
      OffsetPrefix(a, b, j - 1);
      assert (a + b)[j - 1] == a[j - 1];
    }
  }

  // ---------------------------------------------------------------------------
  // Main results
  // ---------------------------------------------------------------------------

  // The chunks hold exactly the words of the text, in order.
  lemma {:induction false} ChunksHoldTheText(text: string, maxTokens: nat)
    requires maxTokens >= 1
    ensures Flatten(ChunkLists(text, maxTokens)) == WordsOf(text)
  {
    var pieces := SentencePieces("", Trim(text));
    PackKeepsWords([], WordLists(SplitIntoSentences(Trim(text))), maxTokens);
    KeptSentencesKeepWords(pieces);
    PiecesKeepWords("", Trim(text));
    TrimKeepsWords(text);
  }

  lemma {:induction false} FlattenMember(lists: seq<seq<string>>, i: nat, k: nat)
    requires i < |lists| && k < |lists[i]|
    ensures lists[i][k] in Flatten(lists)
  {
    if i > 0 {
      FlattenMember(lists[1..], i - 1, k);
    }
  }

  // Every chunk has between 1 and maxTokens words, and its text reads back as exactly those.
  lemma {:induction false} ChunksAreBounded(text: string, maxTokens: nat, i: nat)
    requires maxTokens >= 1
    ensures |MakeChunks(ChunkLists(text, maxTokens))| == |ChunkLists(text, maxTokens)|
    ensures i < |ChunkLists(text, maxTokens)| ==>
      var words := ChunkLists(text, maxTokens)[i];
      var chunk := MakeChunks(ChunkLists(text, maxTokens))[i];
      && chunk.text == Join(words, " ") && 1 <= chunk.tokenCount <= maxTokens
      && WordsOf(chunk.text) == words && CountTokens(chunk.text) == chunk.tokenCount
  {
    var lists := ChunkLists(text, maxTokens);
    PackIsBounded([], WordLists(SplitIntoSentences(Trim(text))), maxTokens);
    hide ChunkLists;
    MakeChunksSize(lists);
    if i < |lists| {
      MakeChunksAt(lists, i);
      ChunksHoldTheText(text, maxTokens);
      WordsAreWords(text);
      forall k | 0 <= k < |lists[i]| ensures IsWord(lists[i][k]) {
        FlattenMember(lists, i, k);
      }
      JoinKeepsWords(lists[i]);
      CountTokensCountsWords(Join(lists[i], " "));
    }
  }

  lemma {:induction false} MakeChunksSize(lists: seq<seq<string>>)
    ensures |MakeChunks(lists)| == |lists|
  {
    if lists != [] {
      MakeChunksSize(lists[1..]);
    }
  }

  // ---------------------------------------------------------------------------
  // Sentences on the indices of the text
  // ---------------------------------------------------------------------------

  // The last character before `k` that is neither space nor closing punctuation ends a sentence.
  ghost predicate MarkBefore(t: string, k: nat) {
    exists m :: 0 <= m < k <= |t| && IsMark(t[m]) && OnlyClosers(t, m + 1, k)
  }

  predicate IsMark(c: char) {
    c in {'.', '!', '?'}
  }

  ghost predicate OnlyClosers(t: string, from: int, to: nat) {
    forall j :: 0 <= from <= j < to <= |t| ==> MayFollowMark(t[j])
  }

  predicate MayFollowMark(c: char) {
    c == '\'' || c == '"' || c == ')' || c == ']' || c == '}' || IsSpace(c)
  }

  ghost predicate BreakAt(t: string, k: nat) {
    k < |t| && IsSpace(t[k]) && MarkBefore(t, k)
  }

  lemma {:induction false} EndsSentenceIff(t: string, k: nat)
    requires k <= |t|
    ensures EndsSentence(t[..k]) <==> MarkBefore(t, k)
  {
    if k > 0 {
      EndsSentenceIff(t, k - 1);
      assert t[..k][..k - 1] == t[..k - 1] && t[..k][k - 1] == t[k - 1];
      MarkBeforeUnfolds(t, k);
    }
  }

  lemma {:induction false} MarkBeforeUnfolds(t: string, k: nat)
    requires 0 < k <= |t|
    ensures MarkBefore(t, k) <==> IsMark(t[k - 1]) || (MayFollowMark(t[k - 1]) && MarkBefore(t, k - 1))
  {
    hide IsMark;
    hide MayFollowMark;
    if IsMark(t[k - 1]) {
      assert OnlyClosers(t, k - 1 + 1, k);
    }
    if MayFollowMark(t[k - 1]) && MarkBefore(t, k - 1) {
      var m :| 0 <= m < k - 1 && IsMark(t[m]) && OnlyClosers(t, m + 1, k - 1);
      assert OnlyClosers(t, m + 1, k);
    }
    if MarkBefore(t, k) && !IsMark(t[k - 1]) {
      var m :| 0 <= m < k && IsMark(t[m]) && OnlyClosers(t, m + 1, k);
      assert OnlyClosers(t, m + 1, k - 1);
    }
  }

  // The splitter cuts at the first break of the text, counted from where it stands.
  lemma {:induction false} FirstBreakIsFirst(t: string, from: nat)
    requires from <= |t|
    ensures
      var k := from + FirstBreak(t[..from], t[from..]);
      && (forall j :: from <= j < k ==> !BreakAt(t, j))
      && (k < |t| ==> BreakAt(t, k))
    decreases |t| - from
  {
    if from < |t| {
      EndsSentenceIff(t, from);
      assert t[from..][0] == t[from] && t[from..][1..] == t[from + 1..] && t[..from] + [t[from]] == t[..from + 1];
      FirstBreakIsFirst(t, from + 1);
      hide MarkBefore;
      hide EndsSentence;
      hide IsSpace;
    } else {
      assert t[from..] == "";
    }
  }

  // Space behind a break is a break too.
  lemma {:induction false} BreaksRunOn(t: string, k: nat, n: nat)
    requires BreakAt(t, k) && k + n <= |t| && forall j :: k <= j < k + n ==> IsSpace(t[j])
    ensures forall j :: k <= j < k + n ==> BreakAt(t, j)
  {
    hide IsMark;
    hide IsSpace;
    var m :| 0 <= m < k && IsMark(t[m]) && OnlyClosers(t, m + 1, k);
    forall j | k <= j < k + n ensures BreakAt(t, j) {
      assert OnlyClosers(t, m + 1, j);
    }
  }

  // A sentence: a stretch of the text from one break to the next, with none inside.
  ghost predicate Sentence(t: string, from: nat, to: nat) {
    && from <= to <= |t| && (from == 0 || BreakAt(t, from - 1)) && (to == |t| || BreakAt(t, to))
    && forall j :: from <= j < to ==> !BreakAt(t, j)
  }

  // Among the lists there is this one, behind this many words.
  ghost predicate Listed(lists: seq<seq<string>>, offset: nat, words: seq<string>) {
    exists i :: 0 <= i < |lists| && lists[i] == words && Offset(lists, i) == offset
  }

  lemma {:induction false} ListedBehind(first: seq<string>, rest: seq<seq<string>>, offset: nat, words: seq<string>)
    requires Listed(rest, offset, words)
    ensures Listed([first] + rest, |first| + offset, words)
  {
    var i :| 0 <= i < |rest| && rest[i] == words && Offset(rest, i) == offset;
    OffsetAppend([first], rest, i);
    assert Flatten([first]) == first + Flatten([]);
    assert ([first] + rest)[1 + i] == words;
  }

  lemma {:induction false} ListedFirst(first: seq<string>, rest: seq<seq<string>>)
    ensures Listed([first] + rest, 0, first)
  {
    assert ([first] + rest)[0] == first && Offset([first] + rest, 0) == 0;
  }

  // Where the next piece starts.
  lemma {:induction false} NextPiece(t: string, start: nat, k: nat, m: nat, from: nat, to: nat)
    requires start <= k < m <= |t| && BreakAt(t, k) && (forall j :: k <= j < m ==> IsSpace(t[j]))
    requires forall j :: start <= j < k ==> !BreakAt(t, j)
    requires start < from < to <= |t| && BreakAt(t, from - 1) && forall j :: from <= j < to ==> !BreakAt(t, j)
    ensures m <= from
  {
    assert !BreakAt(t, from);
    BreaksRunOn(t, k, m - k);
    hide BreakAt;
  }

  // The piece standing at `start`, and where the next one stands.
  ghost function PieceLists(t: string, start: nat): seq<seq<string>>
    requires start <= |t|
  {
    WordLists(SentencePieces(t[..start], t[start..]))
  }

  lemma {:induction false} PieceAt(t: string, start: nat) returns (k: nat, m: nat)
    requires start <= |t|
    ensures start <= k <= m <= |t| && forall j :: start <= j < k ==> !BreakAt(t, j)
    ensures k == |t| ==> PieceLists(t, start) == [WordsOf(t[start..k])] + []
    ensures k < |t| ==>
      && k < m && BreakAt(t, k) && AllSpace(t[k..m]) && (forall j :: k <= j < m ==> IsSpace(t[j]))
      && PieceLists(t, start) == [WordsOf(t[start..k])] + PieceLists(t, m)
  {
    hide SentenceWords;
    hide WordsOf;
    hide IsSpace;
    hide FirstBreak;
    hide SpaceLength;
    hide SentencePieces;
    hide WordLists;
    hide AllSpace;
    hide MarkBefore;
    k := start + FirstBreak(t[..start], t[start..]);
    m := k;
    FirstBreakIsFirst(t, start);
    SentenceWordsAreWords(t[start..k]);
    PiecesUnfold(t[..start], t[start..]);
    CutTwice(t, start, k - start);
    if k == |t| {
      OneList(t[start..]);
    } else {
      SpacesAt(t, k);
      m := k + SpaceLength(t[k..]);
      PiecesBehind(t, start, k, m);
    }
  }

  lemma {:induction false} PiecesBehind(t: string, start: nat, k: nat, m: nat)
    requires start <= k <= m <= |t| && k < |t|
    requires k == start + FirstBreak(t[..start], t[start..]) && m == k + SpaceLength(t[k..])
    ensures PieceLists(t, start) == [SentenceWords(t[start..k])] + PieceLists(t, m)
  {
    hide SentenceWords;
    hide FirstBreak;
    hide SpaceLength;
    hide SentencePieces;
    hide WordLists;
    PiecesUnfold(t[..start], t[start..]);
    CutTwice(t, start, k - start);
    CutTwice(t, start, m - start);
    FirstList(t[start..k], SentencePieces(t[..m], t[m..]));
  }

  lemma {:induction false} CutTwice(t: string, start: nat, n: nat)
    requires start + n <= |t|
    ensures t[start..][..n] == t[start..start + n] && t[start..][n..] == t[start + n..]
    ensures t[..start] + t[start..][..n] == t[..start + n]
    ensures start + n == |t| ==> t[start..][..n] == t[start..]
  {
  }

  lemma {:induction false} PiecesUnfold(before: string, s: string)
    ensures
      var k := FirstBreak(before, s);
      SentencePieces(before, s) ==
      if k == |s| then [s]
      else
        var m := k + SpaceLength(s[k..]);
        [s[..k]] + SentencePieces(before + s[..m], s[m..])
  {
    hide FirstBreak;
    hide SpaceLength;
  }

  // The piece standing at `start` and those after it hold every sentence from there on.
  lemma {:induction false} SentenceIsPiece(t: string, start: nat, from: nat, to: nat)
    requires start <= from < to <= |t| && (from == start || BreakAt(t, from - 1)) && (to == |t| || BreakAt(t, to))
    requires forall j :: from <= j < to ==> !BreakAt(t, j)
    ensures Listed(PieceLists(t, start), |WordsOf(t[start..from])|, WordsOf(t[from..to]))
    decreases |t| - start
  {
    hide *;
    var k, m := PieceAt(t, start);
    var first := WordsOf(t[start..k]);
    if from == start {
      assert to == k;
      ListedFirst(first, if k == |t| then [] else PieceLists(t, m));
      NothingBetween(t, start);
    } else {
      NextPiece(t, start, k, m, from, to);
      SentenceIsPiece(t, m, from, to);
      ListedBehind(first, PieceLists(t, m), |WordsOf(t[m..from])|, WordsOf(t[from..to]));
      assert t[start..from] == t[start..k] + t[k..m] + t[m..from];
      WordsAcrossSpaces(t[start..k], t[k..m], t[m..from]);
    }
  }

  lemma {:induction false} NothingBetween(t: string, start: nat)
    requires start <= |t|
    ensures WordsOf(t[start..start]) == []
  {
  }

  lemma {:induction false} SpacesAt(t: string, k: nat)
    requires k < |t| && IsSpace(t[k])
    ensures
      var n := SpaceLength(t[k..]);
      n >= 1 && k + n <= |t| && AllSpace(t[k..k + n]) && forall j :: k <= j < k + n ==> IsSpace(t[j])
  {
    var n := SpaceLength(t[k..]);
    assert forall j :: k <= j < k + n ==> t[j] == t[k..][j - k];
  }

  lemma {:induction false} OneList(s: string)
    ensures WordLists([s]) == [SentenceWords(s)]
  {
  }

  lemma {:induction false} FirstList(s: string, rest: seq<string>)
    ensures WordLists([s] + rest) == [SentenceWords(s)] + WordLists(rest)
  {
    assert ([s] + rest)[1..] == rest;
  }

  // Dropping the blank pieces and trimming the others moves no word.
  lemma {:induction false} ListedAmongKept(pieces: seq<string>, offset: nat, words: seq<string>)
    requires Listed(WordLists(pieces), offset, words) && words != []
    ensures Listed(WordLists(NonEmpty(TrimAll(pieces))), offset, words)
  {
    var lists := WordLists(pieces);
    var i :| 0 <= i < |lists| && lists[i] == words && Offset(lists, i) == offset;
    KeptList(pieces, i);
  }

  lemma {:induction false} KeptList(pieces: seq<string>, i: nat)
    requires i < |pieces| && SentenceWords(pieces[i]) != []
    ensures Listed(WordLists(NonEmpty(TrimAll(pieces))), Offset(WordLists(pieces), i), SentenceWords(pieces[i]))
  {
    hide SentenceWords;
    hide WordLists;
    hide Listed;
    hide Trim;
    hide NonEmpty;
    hide TrimAll;
    hide Offset;
    var p, rest := pieces[0], pieces[1..];
    var t, kept := Trim(p), NonEmpty(TrimAll(rest));
    KeptUnfolds(pieces);
    SentenceWordsAreWords(t);
    SentenceWordsAreWords(p);
    TrimKeepsWords(p);
    hide WordsOf;
    FirstList(p, rest);
    assert [p] + rest == pieces;
    FirstList(t, kept);
    if i > 0 {
      KeptList(rest, i - 1);
      SecondOffset(SentenceWords(p), WordLists(rest), i - 1);
      if t == "" {
        BlankHasNoWords();
      } else {
        ListedBehind(SentenceWords(t), WordLists(kept), Offset(WordLists(rest), i - 1), SentenceWords(pieces[i]));
      }
    } else {
      BlankHasNoWords();
      ListedFirst(SentenceWords(t), WordLists(kept));
      SecondOffset(SentenceWords(p), WordLists(rest), 0);
    }
  }

  lemma {:induction false} BlankHasNoWords()
    ensures WordsOf("") == []
  {
  }

  lemma {:induction false} SecondOffset(first: seq<string>, rest: seq<seq<string>>, j: nat)
    requires j <= |rest|
    ensures Offset([first] + rest, 0) == 0 && Offset([first] + rest, 1 + j) == |first| + Offset(rest, j)
  {
    OffsetAppend([first], rest, j);
    assert Flatten([first]) == first + Flatten([]);
  }

  lemma {:induction false} KeptUnfolds(pieces: seq<string>)
    requires pieces != []
    ensures
      var t, kept := Trim(pieces[0]), NonEmpty(TrimAll(pieces[1..]));
      NonEmpty(TrimAll(pieces)) == if t == "" then kept else [t] + kept
  {
    assert TrimAll(pieces)[1..] == TrimAll(pieces[1..]);
  }

  // ---------------------------------------------------------------------------
  // Trimming the text moves its sentences along
  // ---------------------------------------------------------------------------

  lemma {:induction false} BreakShifts(before: string, t: string, after: string, k: nat)
    requires AllSpace(before) && k < |t|
    ensures BreakAt(before + t + after, |before| + k) <==> BreakAt(t, k)
  {
    MarkShifts(before, t, after, k);
    hide MarkBefore;
    hide IsSpace;
  }

  lemma {:induction false} NoMarkInSpaces(before: string, t: string, after: string)
    requires AllSpace(before)
    ensures !MarkBefore(before + t + after, |before|)
  {
    var text := before + t + after;
    forall m | 0 <= m < |before| ensures !IsMark(text[m]) {
      assert text[m] == before[m];
    }
  }

  lemma {:induction false} MarkShifts(before: string, t: string, after: string, k: nat)
    requires AllSpace(before) && k <= |t|
    ensures MarkBefore(before + t + after, |before| + k) <==> MarkBefore(t, k)
  {
    var text := before + t + after;
    if k > 0 {
      MarkShifts(before, t, after, k - 1);
      MarkBeforeUnfolds(t, k);
      MarkBeforeUnfolds(text, |before| + k);
      hide MarkBefore;
      assert text[|before| + k - 1] == t[k - 1];
    } else {
      NoMarkInSpaces(before, t, after);
    }
  }

  lemma {:induction false} CutPadded(before: string, t: string, after: string, from: nat, to: nat)
    requires from <= to <= |before + t + after| && from < |before| + |t| && to > |before|
    requires AllSpace(before) && AllSpace(after)
    ensures
      var text, f := before + t + after, if from < |before| then 0 else from - |before|;
      var l := if to > |before| + |t| then |t| else to - |before|;
      && f <= l && WordsOf(text[from..to]) == WordsOf(t[f..l]) && WordsOf(text[..from]) == WordsOf(t[..f])
  {
    hide WordsOf;
    hide IsSpace;
    var text, a, b := before + t + after, |before|, |before| + |t|;
    var f, l := if from < a then 0 else from - a, if to > b then |t| else to - a;
    var head, tail := before[if from < a then from else a..], after[..if to > b then to - b else 0];
    assert text[from..to] == head + t[f..l] + tail;
    PaddingHasNoWords(head, t[f..l], tail);
    if from < a {
      assert text[..from] == before[..from] + t[..0] + "";
      PaddingHasNoWords(before[..from], t[..0], "");
    } else {
      assert text[..from] == before + t[..f] + "";
      PaddingHasNoWords(before, t[..f], "");
    }
  }

  lemma {:induction false} SentenceMoves(before: string, t: string, after: string, from: nat, to: nat)
    requires from < |before| + |t| && to > |before| && AllSpace(before)
    requires Sentence(before + t + after, from, to)
    ensures
      var f, l := if from < |before| then 0 else from - |before|, if to > |before| + |t| then |t| else to - |before|;
      Sentence(t, f, l)
  {
    var text, a := before + t + after, |before|;
    forall k | 0 <= k < |t| ensures BreakAt(text, a + k) <==> BreakAt(t, k) {
      BreakShifts(before, t, after, k);
    }
    hide BreakAt;
    var f, l := if from < a then 0 else from - a, if to > a + |t| then |t| else to - a;
    forall j | f <= j < l ensures !BreakAt(t, j) {
      assert !BreakAt(text, a + j);
    }
    if f > 0 {
      assert BreakAt(text, a + (f - 1));
    }
    if l < |t| {
      assert BreakAt(text, a + l);
    }
  }

  lemma {:induction false} NoWordsInPadding(before: string, t: string, after: string, from: nat, to: nat)
    requires AllSpace(before) && AllSpace(after)
    requires from <= to <= |before + t + after| && WordsOf((before + t + after)[from..to]) != []
    ensures from < |before| + |t| && to > |before|
  {
    var text := before + t + after;
    if from >= |before| + |t| || to <= |before| {
      assert AllSpace(text[from..to]);
      SpacesHaveNoWords(text[from..to]);
    }
  }

  lemma {:induction false} SentenceIsListed(text: string, from: nat, to: nat)
    requires Sentence(text, from, to) && WordsOf(text[from..to]) != []
    ensures Listed(WordLists(SplitIntoSentences(Trim(text))), |WordsOf(text[..from])|, WordsOf(text[from..to]))
  {
    var before, after := TrimSplits(text);
    var t := Trim(text);
    assert from <= to <= |text|;
    hide *;
    NoWordsInPadding(before, t, after, from, to);
    CutPadded(before, t, after, from, to);
    SentenceMoves(before, t, after, from, to);
    var f := if from < |before| then 0 else from - |before|;
    var l := if to > |before| + |t| then |t| else to - |before|;
    TrimmedSentenceIsListed(t, f, l);
  }

  lemma {:induction false} TrimmedSentenceIsListed(t: string, from: nat, to: nat)
    requires Sentence(t, from, to) && WordsOf(t[from..to]) != []
    ensures Listed(WordLists(SplitIntoSentences(t)), |WordsOf(t[..from])|, WordsOf(t[from..to]))
  {
    assert from < to by {
      if from == to {
        NothingBetween(t, from);
      }
    }
    hide WordsOf;
    hide WordLists;
    hide BreakAt;
    hide Listed;
    hide SentencePieces;
    hide NonEmpty;
    hide TrimAll;
    SentenceIsPiece(t, 0, from, to);
    assert t[..0] == "" && t[0..] == t && t[0..from] == t[..from];
    ListedAmongKept(SentencePieces("", t), |WordsOf(t[..from])|, WordsOf(t[from..to]));
  }

  // A sentence of the text of at most maxTokens words is never split across chunks.
  lemma {:induction false} ShortSentencesStayWhole(text: string, maxTokens: nat, from: nat, to: nat)
    requires Sentence(text, from, to) && 1 <= |WordsOf(text[from..to])| <= maxTokens
    ensures Within(ChunkLists(text, maxTokens), |WordsOf(text[..from])|, |WordsOf(text[from..to])|)
  {
    assert from <= to <= |text|;
    hide Sentence;
    hide WordsOf;
    hide Listed;
    hide Within;
    hide Pack;
    hide WordLists;
    hide SplitIntoSentences;
    SentenceIsListed(text, from, to);
    var lists := WordLists(SplitIntoSentences(Trim(text)));
    ListedIsWhole(lists, |WordsOf(text[..from])|, WordsOf(text[from..to]), maxTokens);
  }

  lemma {:induction false} ListedIsWhole(lists: seq<seq<string>>, offset: nat, words: seq<string>, maxTokens: nat)
    requires Listed(lists, offset, words) && 1 <= |words| <= maxTokens
    ensures Within(Pack([], lists, maxTokens), offset, |words|)
  {
    var i :| 0 <= i < |lists| && lists[i] == words && Offset(lists, i) == offset;
    hide *;
    PackKeepsShortLists([], lists, maxTokens, i);
  }

  // Every chunk but the last ends where it must: no chunk of the text is closed early.
  lemma {:induction false} ChunksAreGreedy(text: string, maxTokens: nat, j: nat)
    requires maxTokens >= 1 && 0 < j < |ChunkLists(text, maxTokens)|
    ensures
      var chunks, sentences := ChunkLists(text, maxTokens), WordLists(SplitIntoSentences(Trim(text)));
      MustEnd(sentences, 0, Offset(chunks, j), |chunks[j - 1]|, maxTokens)
  {
    hide MustEnd;
    hide Pack;
    hide WordLists;
    PackIsGreedy([], WordLists(SplitIntoSentences(Trim(text))), maxTokens, 0);
  }
}
