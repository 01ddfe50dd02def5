/** Resolving the detector's candidates into ordered, disjoint spans of personal data. */
module PiiSpans {
  import opened Whitespace
  import opened Words

  datatype Kind = Person | Email | Phone | Org | Loc | Generic

  datatype Span = Span(raw: string, kind: Kind, start: nat, end: nat)

  // The word list and the name expression of the post-filter.
  datatype Rules = Rules(common: string -> bool, nameShape: string -> bool)

  // The span names the text it covers.
  ghost predicate Agrees(text: string, c: Span) {
    c.start <= c.end <= |text| && text[c.start..c.end] == c.raw
  }

  // ---------------------------------------------------------------------------
  // Post-filter: drop a common first word and re-add the rest
  // ---------------------------------------------------------------------------

  function FirstWord(raw: string): string {
    raw[..WordLength(raw)]
  }

  predicate StartsCommon(rules: Rules, c: Span) {
    c.kind == Person && rules.common(FirstWord(c.raw))
  }

  function TrimmedName(raw: string): string {
    TrimStart(raw[WordLength(raw)..])
  }

  predicate OccursAt(s: string, t: string, k: nat) {
    k + |t| <= |s| && s[k..k + |t|] == t
  }

  // `s.indexOf(t)`, for a `t` that does occur.
  function IndexOf(s: string, t: string, from: nat := 0): (k: nat)
    requires exists j :: from <= j && OccursAt(s, t, j)
    ensures from <= k && OccursAt(s, t, k)
    ensures forall j :: from <= j < k ==> !OccursAt(s, t, j)
    decreases |s| - from
  {
    if OccursAt(s, t, from) then from else IndexOf(s, t, from + 1)
  }

  lemma {:induction false} SuffixOccurs(raw: string)
    ensures |TrimmedName(raw)| <= |raw| && OccursAt(raw, TrimmedName(raw), |raw| - |TrimmedName(raw)|)
  {
    var n := WordLength(raw);
    var spaces := TrimStartSplits(raw[n..]);
    assert raw == raw[..n] + spaces + TrimmedName(raw);
  }

  function Retrimmed(c: Span): Span {
    SuffixOccurs(c.raw);
    Span(TrimmedName(c.raw), Person, c.start + IndexOf(c.raw, TrimmedName(c.raw)), c.end)
  }

  // The re-added span names its text exactly when the trimmed name does not also occur earlier
  // in the original match.
  lemma {:induction false} RetrimmedAgreesIff(text: string, c: Span)
    requires Agrees(text, c)
    ensures Agrees(text, Retrimmed(c)) <==>
      forall j :: 0 <= j < |c.raw| - |TrimmedName(c.raw)| ==> !OccursAt(c.raw, TrimmedName(c.raw), j)
  {
    SuffixOccurs(c.raw);
    var name, r := TrimmedName(c.raw), Retrimmed(c);
    var k := IndexOf(c.raw, name);
    assert text[r.start..r.end] == c.raw[k..];
    assert |c.raw[k..]| == |name| <==> k == |c.raw| - |name|;
    if k == |c.raw| - |name| {
      assert c.raw[k..] == c.raw[k..k + |name|];
    }
  }

  // "Hi Hi Hi" is re-added as "Hi Hi" over all eight characters.
  lemma {:induction false} RepeatedNameDisagrees()
    ensures
      var c := Span("Hi Hi Hi", Person, 0, 8);
      Agrees("Hi Hi Hi", c) && !Agrees("Hi Hi Hi", Retrimmed(c))
  {
    var raw := "Hi Hi Hi";
    assert raw[1..] == "i Hi Hi" && raw[1..][1..] == " Hi Hi";
    assert WordLength(raw[1..][1..]) == 0;
    assert WordLength(raw[1..]) == 1;
    assert WordLength(raw) == 2;
    assert raw[2..] == " Hi Hi" && raw[2..][1..] == "Hi Hi";
    assert TrimmedName(raw) == "Hi Hi";
    assert OccursAt(raw, "Hi Hi", 0);
    RetrimmedAgreesIff(raw, Span(raw, Person, 0, 8));
  }

  function KeptOne(rules: Rules, c: Span): seq<Span> {
    if StartsCommon(rules, c) then [] else [c]
  }

  function ReaddedOne(rules: Rules, c: Span): seq<Span> {
    if StartsCommon(rules, c) && rules.nameShape(TrimmedName(c.raw)) then [Retrimmed(c)] else []
  }

  function Kept(rules: Rules, cs: seq<Span>): seq<Span> {
    if cs == [] then [] else KeptOne(rules, cs[0]) + Kept(rules, cs[1..])
  }

  function Readded(rules: Rules, cs: seq<Span>): seq<Span> {
    if cs == [] then [] else ReaddedOne(rules, cs[0]) + Readded(rules, cs[1..])
  }

  lemma {:induction false} KeptPush(rules: Rules, cs: seq<Span>, c: Span)
    ensures Kept(rules, cs + [c]) == Kept(rules, cs) + KeptOne(rules, c)
  {
    hide KeptOne;
    if cs == [] {
      assert cs + [c] == [c] && Kept(rules, [c]) == KeptOne(rules, c) + Kept(rules, []);
    } else {
      KeptPush(rules, cs[1..], c);
      assert (cs + [c])[1..] == cs[1..] + [c];
    }
  }

  lemma {:induction false} ReaddedPush(rules: Rules, cs: seq<Span>, c: Span)
    ensures Readded(rules, cs + [c]) == Readded(rules, cs) + ReaddedOne(rules, c)
  {
    hide ReaddedOne;
    if cs == [] {
      assert cs + [c] == [c] && Readded(rules, [c]) == ReaddedOne(rules, c) + Readded(rules, []);
    } else {
      ReaddedPush(rules, cs[1..], c);
      assert (cs + [c])[1..] == cs[1..] + [c];
    }
  }

  lemma {:induction false} OthersAreKept(rules: Rules, a: seq<Span>)
    requires forall i :: 0 <= i < |a| ==> a[i].kind != Person
    ensures Kept(rules, a) == a && Readded(rules, a) == []
  {
    if a != [] {
      OthersAreKept(rules, a[1..]);
    }
  }

  method Reconsider(rules: Rules, c: Span) returns (drop: bool, readd: seq<Span>)
    ensures drop <==> StartsCommon(rules, c)
    ensures readd == ReaddedOne(rules, c)
  {
    if c.kind == Person {
      var firstWord := FirstWord(c.raw);
      if rules.common(firstWord) {
        var trimmed := TrimmedName(c.raw);
        SuffixOccurs(c.raw);
        var trimmedStart := c.start + IndexOf(c.raw, trimmed);
        if rules.nameShape(trimmed) {
          return true, [Span(trimmed, Person, trimmedStart, c.end)];
        }
        return true, [];
      }
    }
    return false, [];
  }

  // The filter edits the candidate list while it walks it.
  method DropCommonWords(rules: Rules, found: seq<Span>) returns (candidates: seq<Span>)
    ensures candidates == Kept(rules, found) + Readded(rules, found)
  {
    hide Kept;
    hide Readded;
    hide ReaddedOne;
    hide StartsCommon;
    candidates := found;
    var personStart := 0;
    while personStart < |found| && found[personStart].kind != Person
      invariant 0 <= personStart <= |found|
      invariant forall i :: 0 <= i < personStart ==> found[i].kind != Person
    {
      personStart := personStart + 1;
    }
    var toReprocess: seq<Span> := [];
    var i := personStart;
    ghost var seen := personStart;
    OthersAreKept(rules, found[..seen]);
    assert found[..seen] + found[seen..] == found;
    while i < |candidates|
      invariant 0 <= i <= |candidates| && seen <= |found|
      invariant candidates == Kept(rules, found[..seen]) + found[seen..] && i == |Kept(rules, found[..seen])|
      invariant toReprocess == Readded(rules, found[..seen])
      decreases |found| - seen
    {
      var c := candidates[i];
      WalkStep(Kept(rules, found[..seen]), found, seen);
      KeptPush(rules, found[..seen], c);
      ReaddedPush(rules, found[..seen], c);
      var drop, readd := Reconsider(rules, c);
      toReprocess := toReprocess + readd;
      seen := seen + 1;
      if drop {
        candidates := candidates[..i] + candidates[i + 1..];
      } else {
        i := i + 1;
      }
    }
    assert found[seen..] == [] && found[..seen] == found;
    candidates := candidates + toReprocess;
  }

  // The list behind the walk's position: what is kept so far, the current entry, the rest.
  lemma {:induction false} WalkStep(kept: seq<Span>, found: seq<Span>, seen: nat)
    requires seen < |found|
    ensures
      var list, c := kept + found[seen..], found[seen];
      && list[|kept|] == c && found[..seen + 1] == found[..seen] + [c]
      && list[..|kept|] + list[|kept| + 1..] == kept + found[seen + 1..]
      && list == kept + [c] + found[seen + 1..]
      && list[..|kept|] + list[|kept| + 1..] == kept + [] + found[seen + 1..]
  {
    assert found[seen..] == [found[seen]] + found[seen + 1..];
  }

  // ---------------------------------------------------------------------------
  // Order: leftmost first, then longest
  // ---------------------------------------------------------------------------

  predicate Precedes(a: Span, b: Span) {
    a.start < b.start || (a.start == b.start && a.end >= b.end)
  }

  function InsertSpan(c: Span, sorted: seq<Span>): seq<Span> {
    if sorted == [] || Precedes(c, sorted[0]) then [c] + sorted else [sorted[0]] + InsertSpan(c, sorted[1..])
  }

  function SortSpans(cs: seq<Span>): seq<Span> {
    if cs == [] then [] else InsertSpan(cs[0], SortSpans(cs[1..]))
  }

  ghost predicate Sorted(cs: seq<Span>) {
    forall i, j :: 0 <= i < j < |cs| ==> Precedes(cs[i], cs[j])
  }

  lemma {:induction false} InsertPermutes(c: Span, sorted: seq<Span>)
    ensures multiset(InsertSpan(c, sorted)) == multiset{c} + multiset(sorted)
  {
    hide Precedes;
    if sorted != [] {
      assert sorted == [sorted[0]] + sorted[1..];
      if !Precedes(c, sorted[0]) {
        InsertPermutes(c, sorted[1..]);
      }
    }
  }

  lemma {:induction false} InsertSorts(c: Span, sorted: seq<Span>)
    requires Sorted(sorted)
    ensures Sorted(InsertSpan(c, sorted))
  {
    if sorted != [] && !Precedes(c, sorted[0]) {
      var tail := InsertSpan(c, sorted[1..]);
      InsertSorts(c, sorted[1..]);
      InsertPermutes(c, sorted[1..]);
      forall j | 0 <= j < |tail| ensures Precedes(sorted[0], tail[j]) {
        assert tail[j] in multiset(tail);
        assert tail[j] == c || tail[j] in sorted[1..];
      }
    } else {
      assert forall j :: 0 < j < |sorted| ==> Precedes(sorted[0], sorted[j]);
    }
  }

  lemma {:induction false} SortSorts(cs: seq<Span>)
    ensures Sorted(SortSpans(cs)) && multiset(SortSpans(cs)) == multiset(cs)
  {
    if cs != [] {
      var rest := SortSpans(cs[1..]);
      SortSorts(cs[1..]);
      InsertSorts(cs[0], rest);
      InsertPermutes(cs[0], rest);
      assert cs == [cs[0]] + cs[1..];
    }
  }

  // ---------------------------------------------------------------------------
  // Overlap sweep
  // ---------------------------------------------------------------------------

  function Sweep(cs: seq<Span>, cursor: nat): seq<Span> {
    if cs == [] then []
    else if cs[0].start < cursor then Sweep(cs[1..], cursor)
    else [cs[0]] + Sweep(cs[1..], cs[0].end)
  }

  method ResolveOverlaps(sorted: seq<Span>) returns (accepted: seq<Span>)
    ensures accepted == Sweep(sorted, 0)
  {
    accepted := [];
    var cursor := 0;
    for i := 0 to |sorted|
      invariant accepted + Sweep(sorted[i..], cursor) == Sweep(sorted, 0)
    {
      var c := sorted[i];
      assert sorted[i..][1..] == sorted[i + 1..];
      if c.start < cursor {
        continue;
      }
      accepted := accepted + [c];
      cursor := c.end;
    }
  }

  predicate Ordered(spans: seq<Span>) {
    && (forall i :: 0 <= i < |spans| ==> spans[i].start <= spans[i].end)
    && (forall i, j :: 0 <= i < j < |spans| ==> spans[i].end <= spans[j].start)
  }

  predicate Overlap(a: Span, b: Span) {
    a.start < b.end && b.start < a.end
  }

  lemma {:induction false} SweepAccepts(cs: seq<Span>, cursor: nat)
    requires forall i :: 0 <= i < |cs| ==> cs[i].start <= cs[i].end
    ensures forall a :: a in Sweep(cs, cursor) ==> cursor <= a.start && a in cs
  {
    if cs != [] {
      assert cs == [cs[0]] + cs[1..];
      SweepAccepts(cs[1..], if cs[0].start < cursor then cursor else cs[0].end);
    }
  }

  lemma {:induction false} OrderedCons(a: Span, tail: seq<Span>)
    requires a.start <= a.end && Ordered(tail) && forall t :: t in tail ==> a.end <= t.start
    ensures Ordered([a] + tail)
  {
    assert forall j :: 0 <= j < |tail| ==> tail[j] in tail;
  }

  lemma {:induction false} SweepIsOrdered(cs: seq<Span>, cursor: nat)
    requires forall i :: 0 <= i < |cs| ==> cs[i].start <= cs[i].end
    ensures Ordered(Sweep(cs, cursor))
  {
    if cs != [] {
      var next := if cs[0].start < cursor then cursor else cs[0].end;
      SweepIsOrdered(cs[1..], next);
      SweepAccepts(cs[1..], next);
      hide Ordered;
      if cs[0].start >= cursor {
        OrderedCons(cs[0], Sweep(cs[1..], next));
      }
    }
  }

  // A candidate the sweep passes over lies behind the cursor or collides with an accepted span.
  lemma {:induction false} RejectedOverlap(cs: seq<Span>, cursor: nat, i: nat)
    requires Sorted(cs) && i < |cs| && cs[i].start < cs[i].end
    ensures cs[i] in Sweep(cs, cursor) || cs[i].start < cursor ||
      exists a :: a in Sweep(cs, cursor) && Overlap(a, cs[i])
  {
    if i > 0 {
      var next := if cs[0].start < cursor then cursor else cs[0].end;
      RejectedOverlap(cs[1..], next, i - 1);
      assert Precedes(cs[0], cs[i]);
      if cs[0].start >= cursor {
        assert cs[0] in Sweep(cs, cursor);
      }
    }
  }

  // `detectPiiSpans`, on the matches the expressions found.
  ghost function Detected(rules: Rules, found: seq<Span>): seq<Span> {
    Sweep(SortSpans(Kept(rules, found) + Readded(rules, found)), 0)
  }

  method DetectPiiSpans(rules: Rules, found: seq<Span>) returns (spans: seq<Span>)
    ensures spans == Detected(rules, found)
  {
    var candidates := DropCommonWords(rules, found);
    candidates := SortSpans(candidates);
    spans := ResolveOverlaps(candidates);
  }

  lemma {:induction false} CandidatesAreProper(rules: Rules, found: seq<Span>)
    requires forall i :: 0 <= i < |found| ==> found[i].end == found[i].start + |found[i].raw|
    ensures forall c :: c in Kept(rules, found) + Readded(rules, found) ==> c.start <= c.end
  {
    if found != [] {
      CandidatesAreProper(rules, found[1..]);
      SuffixOccurs(found[0].raw);
    }
  }

  // The detector returns ordered, disjoint spans; a non-empty candidate it leaves out overlaps
  // one it returns.
  lemma {:induction false} DetectedSpansAreMaximal(rules: Rules, found: seq<Span>)
    requires forall i :: 0 <= i < |found| ==> found[i].end == found[i].start + |found[i].raw|
    ensures Ordered(Detected(rules, found))
    ensures forall c :: c in Kept(rules, found) + Readded(rules, found) && c.start < c.end ==>
      c in Detected(rules, found) || exists a :: a in Detected(rules, found) && Overlap(a, c)
  {
    var candidates := Kept(rules, found) + Readded(rules, found);
    var sorted := SortSpans(candidates);
    SortSorts(candidates);
    CandidatesAreProper(rules, found);
    forall i | 0 <= i < |sorted| ensures sorted[i].start <= sorted[i].end {
      assert sorted[i] in multiset(sorted);
    }
    SweepIsOrdered(sorted, 0);
    forall c | c in candidates && c.start < c.end
      ensures c in Detected(rules, found) || exists a :: a in Detected(rules, found) && Overlap(a, c)
    {
      assert c in multiset(sorted);
      var i :| 0 <= i < |sorted| && sorted[i] == c;
      RejectedOverlap(sorted, 0, i);
    }
  }

  // ---------------------------------------------------------------------------
  // The candidates, and which of them wins, on the matches themselves
  // ---------------------------------------------------------------------------

  // `raw` is the word `w`, alone or followed by space.
  ghost predicate BeginsWith(raw: string, w: string) {
    && |w| <= |raw| && raw[..|w|] == w && (forall i :: 0 <= i < |w| ==> !IsSpace(w[i]))
    && (|w| == |raw| || IsSpace(raw[|w|]))
  }

  // What is left of `raw` behind its first `n` characters and the space that follows them.
  ghost predicate LeftBehind(raw: string, n: nat, name: string) {
    exists k :: n <= k <= |raw| && name == raw[k..] && (forall i :: n <= i < k ==> IsSpace(raw[i]))
                && (k == |raw| || !IsSpace(raw[k]))
  }

  ghost predicate FirstOccursAt(s: string, t: string, k: nat) {
    OccursAt(s, t, k) && forall j :: 0 <= j < k ==> !OccursAt(s, t, j)
  }

  ghost predicate CommonName(rules: Rules, f: Span) {
    f.kind == Person && exists w :: BeginsWith(f.raw, w) && rules.common(w)
  }

  // The span re-added for a match: what follows its first word, if it is shaped like a name.
  ghost predicate Shortened(rules: Rules, f: Span, c: Span) {
    && c.kind == Person && c.end == f.end && rules.nameShape(c.raw)
    && (exists w :: BeginsWith(f.raw, w) && LeftBehind(f.raw, |w|, c.raw))
    && c.start >= f.start && FirstOccursAt(f.raw, c.raw, c.start - f.start)
  }

  lemma {:induction false} FirstWordIsUnique(raw: string, w: string)
    ensures BeginsWith(raw, w) <==> w == raw[..WordLength(raw)]
  {
    var n := WordLength(raw);
    if BeginsWith(raw, w) {
      assert forall i :: 0 <= i < |w| ==> raw[i] == w[i];
      assert |w| == n;
    }
  }

  lemma {:induction false} RestIsTrimmed(raw: string, name: string)
    ensures LeftBehind(raw, WordLength(raw), name) <==> name == TrimmedName(raw)
  {
    hide IsSpace;
    hide TrimStart;
    var n := WordLength(raw);
    var spaces := TrimStartSplits(raw[n..]);
    var k := n + |spaces|;
    assert raw[n..][|spaces|..] == raw[k..];
    assert forall i :: n <= i < k ==> raw[i] == spaces[i - n];
    assert raw[k..] == TrimmedName(raw);
    assert k == |raw| || !IsSpace(raw[k]) by {
      assert k < |raw| ==> raw[k..][0] == raw[k];
    }
    assert LeftBehind(raw, n, raw[k..]);
    if LeftBehind(raw, n, name) {
      var l :| n <= l <= |raw| && name == raw[l..] && (forall i :: n <= i < l ==> IsSpace(raw[i]))
               && (l == |raw| || !IsSpace(raw[l]));
      assert l == k;
    }
  }

  lemma {:induction false} FirstOccurrence(s: string, t: string, k: nat)
    requires exists j :: 0 <= j && OccursAt(s, t, j)
    ensures FirstOccursAt(s, t, k) <==> k == IndexOf(s, t)
  {
    var i := IndexOf(s, t);
    assert OccursAt(s, t, i) && forall j :: 0 <= j < i ==> !OccursAt(s, t, j);
    hide OccursAt;
    hide IndexOf;
  }

  lemma {:induction false} CommonMeans(rules: Rules, f: Span)
    ensures StartsCommon(rules, f) <==> CommonName(rules, f)
  {
    FirstWordIsUnique(f.raw, FirstWord(f.raw));
    hide BeginsWith;
    forall w | BeginsWith(f.raw, w) ensures w == FirstWord(f.raw) {
      FirstWordIsUnique(f.raw, w);
    }
  }

  lemma {:induction false} ShortenedMeans(rules: Rules, f: Span, c: Span)
    ensures rules.nameShape(TrimmedName(f.raw)) && c == Retrimmed(f) <==> Shortened(rules, f, c)
  {
    RestIsTrimmed(f.raw, c.raw);
    SuffixOccurs(f.raw);
    var k := IndexOf(f.raw, TrimmedName(f.raw));
    assert Retrimmed(f) == Span(TrimmedName(f.raw), Person, f.start + k, f.end);
    hide BeginsWith;
    hide LeftBehind;
    hide TrimmedName;
    hide OccursAt;
    hide IndexOf;
    hide FirstOccursAt;
    hide Retrimmed;
    assert (exists w :: BeginsWith(f.raw, w) && LeftBehind(f.raw, |w|, c.raw)) <==> c.raw == TrimmedName(f.raw) by {
      FirstWordIsUnique(f.raw, f.raw[..WordLength(f.raw)]);
      forall w | BeginsWith(f.raw, w) ensures |w| == WordLength(f.raw) {
        FirstWordIsUnique(f.raw, w);
      }
    }
    if c.start >= f.start {
      FirstOccurrence(f.raw, TrimmedName(f.raw), c.start - f.start);
    }
  }

  // On the matches: one that does not begin with a common word is a candidate as it is; one that
  // does is replaced by its shortened name, or dropped.
  lemma {:induction false} CandidateIff(rules: Rules, found: seq<Span>, c: Span)
    ensures c in Kept(rules, found) + Readded(rules, found) <==>
      || (c in found && !CommonName(rules, c))
      || exists f :: f in found && CommonName(rules, f) && Shortened(rules, f, c)
  {
    CommonMeans(rules, c);
    if found != [] {
      var f := found[0];
      assert found == [f] + found[1..];
      CandidateIff(rules, found[1..], c);
      CommonMeans(rules, f);
      ShortenedMeans(rules, f, c);
      hide StartsCommon;
      hide Retrimmed;
      hide CommonName;
      hide Shortened;
      hide TrimmedName;
    }
  }

  function OfExtent(cs: seq<Span>, start: nat, end: nat): seq<Span> {
    if cs == [] then []
    else (if cs[0].start == start && cs[0].end == end then [cs[0]] else []) + OfExtent(cs[1..], start, end)
  }

  lemma {:induction false} InsertIsStable(c: Span, sorted: seq<Span>, start: nat, end: nat)
    ensures OfExtent(InsertSpan(c, sorted), start, end) == OfExtent([c] + sorted, start, end)
  {
    assert ([c] + sorted)[1..] == sorted;
    if sorted != [] && !Precedes(c, sorted[0]) {
      InsertIsStable(c, sorted[1..], start, end);
      var tail := InsertSpan(c, sorted[1..]);
      assert ([sorted[0]] + tail)[1..] == tail && ([c] + sorted[1..])[1..] == sorted[1..];
    }
  }

  lemma {:induction false} SortIsStable(cs: seq<Span>, start: nat, end: nat)
    ensures OfExtent(SortSpans(cs), start, end) == OfExtent(cs, start, end)
  {
    if cs != [] {
      SortIsStable(cs[1..], start, end);
      var rest := SortSpans(cs[1..]);
      InsertIsStable(cs[0], rest, start, end);
      assert ([cs[0]] + rest)[1..] == rest;
    }
  }

  lemma {:induction false} SweepTakesFirst(cs: seq<Span>, cursor: nat, a: Span)
    requires Sorted(cs) && (forall i :: 0 <= i < |cs| ==> cs[i].start <= cs[i].end) && a in Sweep(cs, cursor)
    ensures forall c :: c in cs && c.start == a.start ==> c.end <= a.end
    ensures a.start < a.end ==> OfExtent(cs, a.start, a.end) != [] && OfExtent(cs, a.start, a.end)[0] == a
  {
    assert cs == [cs[0]] + cs[1..];
    var next := if cs[0].start < cursor then cursor else cs[0].end;
    SweepAccepts(cs, cursor);
    SweepAccepts(cs[1..], next);
    if cs[0].start < cursor || a != cs[0] {
      SweepTakesFirst(cs[1..], next, a);
    } else {
      assert forall c :: c in cs[1..] ==> Precedes(cs[0], c);
    }
  }

  // Of the candidates that start where a returned span starts none is longer, and of those with
  // its very extent it is the first that was found.
  lemma {:induction false} LongestAtItsStart(rules: Rules, found: seq<Span>, a: Span)
    requires forall i :: 0 <= i < |found| ==> found[i].end == found[i].start + |found[i].raw|
    requires a in Detected(rules, found)
    ensures
      var candidates := Kept(rules, found) + Readded(rules, found);
      && a in candidates
      && (forall c :: c in candidates && c.start == a.start ==> c.end <= a.end)
      && (a.start < a.end ==>
            var same := OfExtent(candidates, a.start, a.end);
            same != [] && same[0] == a)
  {
    var candidates := Kept(rules, found) + Readded(rules, found);
    var sorted := SortSpans(candidates);
    SortSorts(candidates);
    SortIsStable(candidates, a.start, a.end);
    CandidatesAreProper(rules, found);
    hide SortSpans;
    hide Kept;
    hide Readded;
    assert forall c :: c in candidates <==> c in multiset(sorted);
    SweepTakesFirst(sorted, 0, a);
    SweepAccepts(sorted, 0);
  }

  // The trimmed name of a match occurs nowhere earlier in the match.
  ghost predicate NameOccursOnce(raw: string) {
    forall j :: 0 <= j < |raw| - |TrimmedName(raw)| ==> !OccursAt(raw, TrimmedName(raw), j)
  }

  lemma {:induction false} KeptOrigin(rules: Rules, found: seq<Span>, c: Span)
    requires c in Kept(rules, found)
    ensures c in found
  {
    assert found == [found[0]] + found[1..];
    if c in Kept(rules, found[1..]) {
      KeptOrigin(rules, found[1..], c);
    }
  }

  lemma {:induction false} ReaddedOrigin(rules: Rules, found: seq<Span>, c: Span) returns (origin: Span)
    requires c in Readded(rules, found)
    ensures origin in found && c == Retrimmed(origin)
  {
    hide TrimmedName;
    hide Retrimmed;
    assert found == [found[0]] + found[1..];
    if c in Readded(rules, found[1..]) {
      origin := ReaddedOrigin(rules, found[1..], c);
    } else {
      origin := found[0];
    }
  }

  lemma {:induction false} CandidateStaysInText(rules: Rules, text: string, found: seq<Span>, c: Span)
    requires forall i :: 0 <= i < |found| ==> Agrees(text, found[i])
    requires c in Kept(rules, found) + Readded(rules, found)
    ensures c.end <= |text|
    ensures (forall i :: 0 <= i < |found| ==> NameOccursOnce(found[i].raw)) ==> Agrees(text, c)
  {
    if c in Kept(rules, found) {
      KeptOrigin(rules, found, c);
    } else {
      var origin := ReaddedOrigin(rules, found, c);
      RetrimmedAgreesIff(text, origin);
    }
  }

  lemma {:induction false} DetectedIsCandidate(rules: Rules, found: seq<Span>, i: nat)
    requires forall j :: 0 <= j < |found| ==> found[j].end == found[j].start + |found[j].raw|
    requires i < |Detected(rules, found)|
    ensures Detected(rules, found)[i] in Kept(rules, found) + Readded(rules, found)
    ensures Detected(rules, found)[i].start <= Detected(rules, found)[i].end
  {
    var candidates := Kept(rules, found) + Readded(rules, found);
    var sorted := SortSpans(candidates);
    SortSorts(candidates);
    CandidatesAreProper(rules, found);
    forall k | 0 <= k < |sorted| ensures sorted[k] in candidates {
      assert sorted[k] in multiset(sorted);
    }
    SweepAccepts(sorted, 0);
    assert Detected(rules, found)[i] in Detected(rules, found);
  }

  // Detected spans lie inside the text, and each names the text it covers when no trimmed name repeats.
  lemma {:induction false} DetectedSpansName(rules: Rules, text: string, found: seq<Span>, i: nat)
    requires forall j :: 0 <= j < |found| ==> Agrees(text, found[j])
    requires i < |Detected(rules, found)|
    ensures Detected(rules, found)[i].start <= Detected(rules, found)[i].end <= |text|
    ensures (forall j :: 0 <= j < |found| ==> NameOccursOnce(found[j].raw)) ==> Agrees(text, Detected(rules, found)[i])
  {
    assert forall j :: 0 <= j < |found| ==> found[j].end == found[j].start + |found[j].raw|;
    hide *;
    DetectedIsCandidate(rules, found, i);
    var span := Detected(rules, found)[i];
    CandidateStaysInText(rules, text, found, span);
  }

  // The leftmost candidate wins even against a longer one that overlaps it.
  lemma {:induction false} LeftmostBeatsLongest(a: Span, b: Span)
    requires a.start < b.start < a.end
    ensures Sweep(SortSpans([a, b]), 0) == Sweep(SortSpans([b, a]), 0) == [a]
  {
    assert SortSpans([b]) == InsertSpan(b, []) && SortSpans([a]) == InsertSpan(a, []);
    assert [a, b][1..] == [b] && [b, a][1..] == [a];
    assert SortSpans([a, b]) == [a, b] && SortSpans([b, a]) == [a, b];
    assert Sweep([a, b], 0) == [a] + Sweep([b], a.end);
    assert Sweep([b], a.end) == Sweep([], a.end);
  }
}
