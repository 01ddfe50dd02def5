/** Replacing spans by tokens right to left, registering the tokens, and putting the values back. */
module PiiTokeniser {
  import opened Strings
  import opened Whitespace
  import opened PiiSpans

  // The keyed token derivation and `toLowerCase`, left uninterpreted.
  datatype Platform = Platform(derive: (string, Kind) -> string, lower: string -> string)

  function Canonicalise(env: Platform, value: string): string {
    Trim(env.lower(value))
  }

  function Token(env: Platform, span: Span): string {
    env.derive(Canonicalise(env, span.raw), span.kind)
  }

  // ---------------------------------------------------------------------------
  // Splicing
  // ---------------------------------------------------------------------------

  // The spans lie in order inside `text`, none before `cursor`.
  predicate Fits(text: string, spans: seq<Span>, cursor: nat) {
    if spans == [] then cursor <= |text|
    else cursor <= spans[0].start <= spans[0].end <= |text| && Fits(text, spans[1..], spans[0].end)
  }

  // The text from `cursor` on, built left to right with the spans replaced.
  function Splice(text: string, spans: seq<Span>, fill: seq<string>, cursor: nat): string
    requires |fill| == |spans| && Fits(text, spans, cursor)
  {
    if spans == [] then text[cursor..]
    else text[cursor..spans[0].start] + fill[0] + Splice(text, spans[1..], fill[1..], spans[0].end)
  }

  function Tokens(env: Platform, spans: seq<Span>): (r: seq<string>)
    ensures |r| == |spans| && forall i :: 0 <= i < |r| ==> r[i] == Token(env, spans[i])
  {
    if spans == [] then [] else [Token(env, spans[0])] + Tokens(env, spans[1..])
  }

  function Raws(spans: seq<Span>): (r: seq<string>)
    ensures |r| == |spans| && forall i :: 0 <= i < |r| ==> r[i] == spans[i].raw
  {
    if spans == [] then [] else [spans[0].raw] + Raws(spans[1..])
  }

  // Token to value; where spans share a token, the leftmost span's spelling.
  function Dictionary(env: Platform, spans: seq<Span>): map<string, string> {
    if spans == [] then map[] else Dictionary(env, spans[1..])[Token(env, spans[0]) := spans[0].raw]
  }

  // Which tokens a text yields: one per kind and lower-cased, trimmed value; each stands for the
  // leftmost span that has it.
  lemma {:induction false} DictionaryNames(env: Platform, spans: seq<Span>, token: string)
    ensures token in Dictionary(env, spans) <==> exists i :: NamedAt(env, spans, token, i)
    ensures forall i :: NamedAt(env, spans, token, i) && (forall j :: 0 <= j < i ==> !NamedAt(env, spans, token, j)) ==>
      token in Dictionary(env, spans) && Dictionary(env, spans)[token] == spans[i].raw
  {
    if spans != [] {
      var rest := spans[1..];
      DictionaryNames(env, rest, token);
      forall i ensures NamedAt(env, rest, token, i) <==> i >= 0 && NamedAt(env, spans, token, i + 1) {
      }
      assert Token(env, spans[0]) == token <==> NamedAt(env, spans, token, 0);
      hide NamedAt;
      hide Token;
      if i :| NamedAt(env, rest, token, i) {
        assert NamedAt(env, spans, token, i + 1);
      }
      if i :| NamedAt(env, spans, token, i) && i != 0 {
        assert NamedAt(env, rest, token, i - 1);
      }
      forall i | NamedAt(env, spans, token, i) && (forall j :: 0 <= j < i ==> !NamedAt(env, spans, token, j))
        ensures token in Dictionary(env, spans) && Dictionary(env, spans)[token] == spans[i].raw
      {
        if i != 0 {
          assert NamedAt(env, rest, token, i - 1);
          forall j | 0 <= j < i - 1 ensures !NamedAt(env, rest, token, j) {
            assert !NamedAt(env, spans, token, j + 1);
          }
          assert !NamedAt(env, spans, token, 0);
        }
      }
    }
  }

  ghost predicate NamedAt(env: Platform, spans: seq<Span>, token: string, i: int) {
    0 <= i < |spans| && token == env.derive(Trim(env.lower(spans[i].raw)), spans[i].kind)
  }

  lemma {:induction false} FitsFrom(text: string, spans: seq<Span>, cursor: nat, i: nat)
    requires Fits(text, spans, cursor) && i <= |spans|
    ensures Fits(text, spans[i..], if i == 0 then cursor else spans[i - 1].end)
    ensures i > 0 ==> cursor <= spans[i - 1].end <= |text|
    ensures i < |spans| ==> (if i == 0 then cursor else spans[i - 1].end) <= spans[i].start <= spans[i].end <= |text|
  {
    if i == 0 {
      assert spans[0..] == spans;
    } else {
      FitsFrom(text, spans[1..], spans[0].end, i - 1);
      assert spans[1..][i - 1..] == spans[i..];
    }
  }

  lemma {:induction false} OrderedFits(text: string, spans: seq<Span>, cursor: nat)
    requires Ordered(spans) && cursor <= |text|
    requires forall i :: 0 <= i < |spans| ==> cursor <= spans[i].start && spans[i].end <= |text|
    ensures Fits(text, spans, cursor)
  {
    if spans != [] {
      OrderedFits(text, spans[1..], spans[0].end);
    }
  }

  // Whatever the expressions match, the detector's spans can be spliced.
  lemma {:induction false} DetectedSpansFit(rules: Rules, text: string, found: seq<Span>)
    requires forall i :: 0 <= i < |found| ==> Agrees(text, found[i])
    ensures Fits(text, Detected(rules, found), 0)
  {
    hide Detected;
    hide Fits;
    DetectedSpansAreMaximal(rules, found);
    var spans := Detected(rules, found);
    forall i | 0 <= i < |spans| ensures spans[i].end <= |text| {
      DetectedSpansName(rules, text, found, i);
    }
    OrderedFits(text, spans, 0);
  }

  // ---------------------------------------------------------------------------
  // The identity store
  // ---------------------------------------------------------------------------

  function StoreKey(tenant: string, token: string): string {
    tenant + ":" + token
  }

  // Keys of different tenants never meet, as long as tokens hold no colon.
  lemma {:induction false} StoreKeysAreUnique(t: string, a: string, u: string, b: string)
    requires ':' !in a && ':' !in b && StoreKey(t, a) == StoreKey(u, b)
    ensures t == u && a == b
  {
    var key := StoreKey(t, a);
    assert key[|t|] == ':' && key[|u|] == ':';
    assert forall j :: |t| < j < |key| ==> key[j] == a[j - |t| - 1] && key[j] in a;
    assert forall j :: |u| < j < |key| ==> key[j] == b[j - |u| - 1] && key[j] in b;
    assert |u| <= |t| && |t| <= |u|;
    assert t == key[..|t|] && u == key[..|u|];
    assert a == key[|t| + 1..] && b == key[|u| + 1..];
  }

  class InMemoryIdentityStore {
    var store: map<string, string>

    constructor ()
      ensures store == map[]
    {
      store := map[];
    }

    // A token that already names another value is refused.
    method Register(tenant: string, token: string, value: string) returns (ok: bool)
      modifies this
      ensures ok <==> StoreKey(tenant, token) !in old(store) || old(store)[StoreKey(tenant, token)] == value
      ensures store == if ok then old(store)[StoreKey(tenant, token) := value] else old(store)
    {
      var key := StoreKey(tenant, token);
      if key in store && store[key] != value {
        return false;
      }
      store := store[key := value];
      ok := true;
    }

    method Lookup(tenant: string, token: string) returns (found: bool, value: string)
      ensures found <==> StoreKey(tenant, token) in store
      ensures found ==> value == store[StoreKey(tenant, token)]
    {
      var key := StoreKey(tenant, token);
      found := key in store;
      value := if found then store[key] else "";
    }
  }

  datatype TokenisationResult = Tokenised(text: string, tokens: map<string, string>) | TokenCollision

  // The tokens in the order of the source's `Map`: by first insertion, rightmost span first.
  function TokenOrder(env: Platform, spans: seq<Span>): seq<string> {
    if spans == [] then []
    else
      var rest := TokenOrder(env, spans[1..]);
      if Token(env, spans[0]) in rest then rest else rest + [Token(env, spans[0])]
  }

  lemma {:induction false} OrderListsDictionary(env: Platform, spans: seq<Span>)
    ensures forall t :: t in TokenOrder(env, spans) <==> t in Dictionary(env, spans)
    ensures forall i, j :: 0 <= i < j < |TokenOrder(env, spans)| ==>
      TokenOrder(env, spans)[i] != TokenOrder(env, spans)[j]
  {
    hide Token;
    if spans != [] {
      OrderListsDictionary(env, spans[1..]);
    }
  }

  predicate ConflictsOn(store: map<string, string>, tenant: string, token: string, value: string) {
    StoreKey(tenant, token) in store && store[StoreKey(tenant, token)] != value
  }

  // How many tokens are registered before one is refused.
  ghost function Accepted(store: map<string, string>, tenant: string, order: seq<string>,
                          tokens: map<string, string>): (n: nat)
    requires forall t :: t in order ==> t in tokens
    ensures n <= |order|
    ensures forall i :: 0 <= i < n ==> !ConflictsOn(store, tenant, order[i], tokens[order[i]])
    ensures n < |order| ==> ConflictsOn(store, tenant, order[n], tokens[order[n]])
  {
    if order == [] || ConflictsOn(store, tenant, order[0], tokens[order[0]]) then 0
    else 1 + Accepted(store, tenant, order[1..], tokens)
  }

  // The store with these tokens registered.
  ghost function With(store: map<string, string>, tenant: string, order: seq<string>,
                      tokens: map<string, string>): map<string, string>
    requires forall t :: t in order ==> t in tokens
  {
    if order == [] then store
    else
      var last := order[|order| - 1];
      With(store, tenant, order[..|order| - 1], tokens)[StoreKey(tenant, last) := tokens[last]]
  }

  lemma {:induction false} WithIsExact(store: map<string, string>, tenant: string, order: seq<string>,
                                       tokens: map<string, string>, key: string)
    requires forall t :: t in order ==> t in tokens
    requires forall t :: t in order ==> !ConflictsOn(store, tenant, t, tokens[t])
    ensures key in store ==>
      key in With(store, tenant, order, tokens) && With(store, tenant, order, tokens)[key] == store[key]
    ensures (forall t :: t in order ==> key != StoreKey(tenant, t)) ==>
      (key in With(store, tenant, order, tokens) <==> key in store)
    ensures forall t :: t in order && key == StoreKey(tenant, t) ==>
      key in With(store, tenant, order, tokens) && With(store, tenant, order, tokens)[key] == tokens[t]
    decreases |order|
  {
    if order != [] {
      var front, last := order[..|order| - 1], order[|order| - 1];
      assert order == front + [last];
      WithIsExact(store, tenant, front, tokens, key);
      forall t | t in order && key == StoreKey(tenant, t)
        ensures key in With(store, tenant, order, tokens) && With(store, tenant, order, tokens)[key] == tokens[t]
      {
        if key == StoreKey(tenant, last) {
          SameTenantKeys(tenant, t, last);
        }
      }
      hide StoreKey;
    }
  }

  ghost predicate Conflicts(store: map<string, string>, tenant: string, tokens: map<string, string>) {
    exists t :: t in tokens && StoreKey(tenant, t) in store && store[StoreKey(tenant, t)] != tokens[t]
  }

  ghost predicate Holds(store: map<string, string>, tenant: string, tokens: map<string, string>) {
    forall t :: t in tokens ==> StoreKey(tenant, t) in store && store[StoreKey(tenant, t)] == tokens[t]
  }

  lemma {:induction false} NothingSpliced(env: Platform, text: string, spans: seq<Span>, done: nat)
    requires done <= |text|
    ensures
      var n := |spans|;
      && Fits(text, spans[n..], done)
      && text == text[..done] + Splice(text, spans[n..], Tokens(env, spans)[n..], done)
      && Dictionary(env, spans[n..]) == map[] && TokenOrder(env, spans[n..]) == []
  {
    assert spans[|spans|..] == [] && Tokens(env, spans)[|spans|..] == [];
    assert text == text[..done] + text[done..];
  }

  // One turn of the splice loop, and of the dictionary.
  lemma {:induction false} SpliceOneMore(env: Platform, text: string, spans: seq<Span>, i: nat, cursor: nat,
                                         current: string)
    requires i < |spans| && Fits(text, spans[i..], cursor) && Fits(text, spans[i + 1..], spans[i].end)
    requires cursor <= spans[i].start <= spans[i].end <= |text|
    requires current == text[..spans[i].end] + Splice(text, spans[i + 1..], Tokens(env, spans)[i + 1..], spans[i].end)
    ensures spans[i].end <= |current|
    ensures current[..spans[i].start] + Token(env, spans[i]) + current[spans[i].end..]
         == text[..cursor] + Splice(text, spans[i..], Tokens(env, spans)[i..], cursor)
    ensures Dictionary(env, spans[i..]) == Dictionary(env, spans[i + 1..])[Token(env, spans[i]) := spans[i].raw]
    ensures
      var token, order := Token(env, spans[i]), TokenOrder(env, spans[i + 1..]);
      TokenOrder(env, spans[i..]) == if token in order then order else order + [token]
  {
    var names, rest := Tokens(env, spans), spans[i..];
    var fill := names[i..];
    assert rest[0] == spans[i] && rest[1..] == spans[i + 1..] && fill[0] == names[i] && fill[1..] == names[i + 1..];
    var tail := Splice(text, spans[i + 1..], names[i + 1..], spans[i].end);
    assert Splice(text, rest, fill, cursor) == text[cursor..spans[i].start] + names[i] + tail;
    hide Splice;
    hide Fits;
    hide Token;
    SpliceStep(text, spans[i], names[i], cursor, current, tail);
  }

  class Tokeniser {
    const env: Platform
    const tenantId: string
    const store: InMemoryIdentityStore

    constructor (env: Platform, tenantId: string, store: InMemoryIdentityStore)
      ensures this.env == env && this.tenantId == tenantId && this.store == store
    {
      this.env, this.tenantId, this.store := env, tenantId, store;
    }

    // The splice loop: rightmost span first, so the indices of the others stay valid.
    method Anonymise(text: string, spans: seq<Span>)
      returns (anonymised: string, tokens: map<string, string>, order: seq<string>)
      requires Fits(text, spans, 0)
      ensures anonymised == Splice(text, spans, Tokens(env, spans), 0)
      ensures tokens == Dictionary(env, spans) && order == TokenOrder(env, spans)
    {
      anonymised, tokens, order := text, map[], [];
      var i := |spans|;
      ghost var done: nat := if i == 0 then 0 else spans[i - 1].end;
      ghost var names := Tokens(env, spans);
      FitsFrom(text, spans, 0, i);
      NothingSpliced(env, text, spans, done);
      hide *;
      while i > 0
        invariant 0 <= i <= |spans| && done == if i == 0 then 0 else spans[i - 1].end
        invariant Fits(text, spans[i..], done)
        invariant anonymised == text[..done] + Splice(text, spans[i..], names[i..], done)
        invariant tokens == Dictionary(env, spans[i..]) && order == TokenOrder(env, spans[i..])
      {
        i := i - 1;
        var span := spans[i];
        var token := Token(env, span);
        FitsFrom(text, spans, 0, i);
        ghost var cursor := if i == 0 then 0 else spans[i - 1].end;
        SpliceOneMore(env, text, spans, i, cursor, anonymised);
        done := cursor;
        anonymised := anonymised[..span.start] + token + anonymised[span.end..];
        tokens := tokens[token := span.raw];
        if token !in order {
          order := order + [token];
        }
      }
      assert spans[0..] == spans && names[0..] == names;
    }

    // Tokens are registered in order until one is refused; those before it stay registered.
    method Tokenise(text: string, spans: seq<Span>) returns (r: TokenisationResult)
      requires Fits(text, spans, 0)
      modifies store
      ensures r.TokenCollision? <==> Conflicts(old(store.store), tenantId, Dictionary(env, spans))
      ensures !r.TokenCollision? ==>
        && r == Tokenised(Splice(text, spans, Tokens(env, spans), 0), Dictionary(env, spans))
        && Holds(store.store, tenantId, r.tokens)
      ensures
        var order, tokens := TokenOrder(env, spans), Dictionary(env, spans);
        && (forall t :: t in order ==> t in tokens)
        && var n := Accepted(old(store.store), tenantId, order, tokens);
           && (r.TokenCollision? <==> n < |order|)
           && store.store == With(old(store.store), tenantId, order[..n], tokens)
      ensures forall k :: k in old(store.store) ==> k in store.store && store.store[k] == old(store.store)[k]
    {
      var anonymised, tokens, order := Anonymise(text, spans);
      ghost var before := store.store;
      OrderListsDictionary(env, spans);
      ghost var n := Accepted(before, tenantId, order, tokens);
      hide Accepted;
      hide With;
      hide Dictionary;
      hide TokenOrder;
      NoneRegistered(before, tenantId, tokens);
      assert order[..0] == [];
      for i := 0 to |order|
        invariant i <= n && store.store == With(before, tenantId, order[..i], tokens)
      {
        RegisterNext(before, tenantId, order, tokens, i);
        var ok := store.Register(tenantId, order[i], tokens[order[i]]);
        if !ok {
          assert n == i;
          TokensRegistered(before, tenantId, order, tokens, n);
          return TokenCollision;
        }
      }
      assert order[..|order|] == order;
      TokensRegistered(before, tenantId, order, tokens, n);
      r := Tokenised(anonymised, tokens);
    }
  }

  lemma {:induction false} NoneRegistered(store: map<string, string>, tenant: string, tokens: map<string, string>)
    ensures With(store, tenant, [], tokens) == store
  {
  }

  // The next token is refused exactly when the store as it was conflicts with it.
  lemma {:induction false} RegisterNext(before: map<string, string>, tenant: string, order: seq<string>,
                                        tokens: map<string, string>, i: nat)
    requires forall t :: t in order ==> t in tokens
    requires forall j, k :: 0 <= j < k < |order| ==> order[j] != order[k]
    requires i < |order| && i <= Accepted(before, tenant, order, tokens)
    ensures
      var now, token := With(before, tenant, order[..i], tokens), order[i];
      && (ConflictsOn(now, tenant, token, tokens[token]) <==> ConflictsOn(before, tenant, token, tokens[token]))
      && With(before, tenant, order[..i + 1], tokens) == now[StoreKey(tenant, token) := tokens[token]]
      && (ConflictsOn(before, tenant, token, tokens[token]) <==> i == Accepted(before, tenant, order, tokens))
  {
    var done, token := order[..i], order[i];
    var key := StoreKey(tenant, token);
    WithIsExact(before, tenant, done, tokens, key);
    forall t | t in done ensures key != StoreKey(tenant, t) {
      if key == StoreKey(tenant, t) {
        SameTenantKeys(tenant, t, token);
      }
    }
    hide StoreKey;
    var upTo := order[..i + 1];
    assert upTo[..i] == done && upTo[i] == token;
  }

  // What the registrations add up to.
  lemma {:induction false} TokensRegistered(before: map<string, string>, tenant: string, order: seq<string>,
                                            tokens: map<string, string>, n: nat)
    requires forall t :: t in order <==> t in tokens
    requires n == Accepted(before, tenant, order, tokens)
    ensures n < |order| <==> Conflicts(before, tenant, tokens)
    ensures n == |order| ==> Holds(With(before, tenant, order, tokens), tenant, tokens)
    ensures forall k :: k in before ==>
      k in With(before, tenant, order[..n], tokens) && With(before, tenant, order[..n], tokens)[k] == before[k]
  {
    hide StoreKey;
    hide With;
    forall k | k in before
      ensures k in With(before, tenant, order[..n], tokens) && With(before, tenant, order[..n], tokens)[k] == before[k]
    {
      WithIsExact(before, tenant, order[..n], tokens, k);
    }
    if n == |order| {
      assert order[..n] == order;
      forall t | t in tokens
        ensures StoreKey(tenant, t) in With(before, tenant, order, tokens)
                && With(before, tenant, order, tokens)[StoreKey(tenant, t)] == tokens[t]
      {
        WithIsExact(before, tenant, order, tokens, StoreKey(tenant, t));
      }
    } else {
      assert order[n] in order;
    }
  }

  lemma {:induction false} SameTenantKeys(tenant: string, a: string, b: string)
    requires StoreKey(tenant, a) == StoreKey(tenant, b)
    ensures a == b
  {
    assert a == StoreKey(tenant, a)[|tenant| + 1..];
    assert b == StoreKey(tenant, b)[|tenant| + 1..];
  }

  lemma {:induction false} SpliceStep(text: string, span: Span, token: string, cursor: nat, current: string,
                                      tail: string)
    requires cursor <= span.start <= span.end <= |text|
    requires current == text[..span.end] + tail
    ensures current[..span.start] + token + current[span.end..]
         == text[..cursor] + (text[cursor..span.start] + token + tail)
  {
    assert current[..span.start] == text[..cursor] + text[cursor..span.start];
    assert current[span.end..] == tail;
  }

  // ---------------------------------------------------------------------------
  // Putting the values back
  // ---------------------------------------------------------------------------

  lemma {:induction false} DictionaryNamesFirst(env: Platform, spans: seq<Span>, i: nat)
    requires i < |spans|
    ensures Token(env, spans[i]) in Dictionary(env, spans)
    ensures exists j :: 0 <= j <= i && Token(env, spans[j]) == Token(env, spans[i]) &&
              Dictionary(env, spans)[Token(env, spans[i])] == spans[j].raw
  {
    if Token(env, spans[0]) == Token(env, spans[i]) {
      assert Dictionary(env, spans)[Token(env, spans[i])] == spans[0].raw;
    } else {
      DictionaryNamesFirst(env, spans[1..], i - 1);
      var j :| 0 <= j <= i - 1 && Token(env, spans[1..][j]) == Token(env, spans[i]) &&
              Dictionary(env, spans[1..])[Token(env, spans[i])] == spans[1..][j].raw;
      assert spans[1..][j] == spans[j + 1];
    }
  }

  // The value each token resolves to.
  ghost function Values(env: Platform, spans: seq<Span>): (r: seq<string>)
    ensures |r| == |spans|
  {
    seq(|spans|, i requires 0 <= i < |spans| =>
      DictionaryNamesFirst(env, spans, i); Dictionary(env, spans)[Token(env, spans[i])])
  }

  // No two of the text's values share a token unless they are the same value up to case.
  ghost predicate Injective(env: Platform, spans: seq<Span>) {
    forall i, j :: 0 <= i < |spans| && 0 <= j < |spans| && Token(env, spans[i]) == Token(env, spans[j]) ==>
      Canonicalise(env, spans[i].raw) == Canonicalise(env, spans[j].raw)
  }

  lemma {:induction false} RawSpliceIsText(text: string, spans: seq<Span>, cursor: nat)
    requires Fits(text, spans, cursor)
    requires forall i :: 0 <= i < |spans| ==> Agrees(text, spans[i])
    ensures Splice(text, spans, Raws(spans), cursor) == text[cursor..]
  {
    if spans != [] {
      RawSpliceIsText(text, spans[1..], spans[0].end);
      assert Raws(spans)[1..] == Raws(spans[1..]);
      assert text[cursor..] == text[cursor..spans[0].start] + text[spans[0].start..spans[0].end] + text[spans[0].end..];
    }
  }

  // With fillings of equal length, the built text determines the fillings.
  lemma {:induction false} SpliceDeterminesFill(text: string, spans: seq<Span>, f: seq<string>, g: seq<string>,
                                                cursor: nat)
    requires Fits(text, spans, cursor) && |f| == |g| == |spans|
    requires forall i :: 0 <= i < |f| ==> |f[i]| == |g[i]|
    requires Splice(text, spans, f, cursor) == Splice(text, spans, g, cursor)
    ensures f == g
  {
    if spans != [] {
      var gap := text[cursor..spans[0].start];
      var x, y := Splice(text, spans[1..], f[1..], spans[0].end), Splice(text, spans[1..], g[1..], spans[0].end);
      SplitEqual(gap, f[0], x, g[0], y);
      SpliceDeterminesFill(text, spans[1..], f[1..], g[1..], spans[0].end);
      assert f == [f[0]] + f[1..] && g == [g[0]] + g[1..];
    }
  }

  lemma {:induction false} SplitEqual(gap: string, a: string, x: string, b: string, y: string)
    requires |a| == |b| && gap + a + x == gap + b + y
    ensures a == b && x == y
  {
    var t := gap + a + x;
    assert a == t[|gap|..|gap| + |a|] && b == t[|gap|..|gap| + |b|];
    assert x == t[|gap| + |a|..] && y == t[|gap| + |b|..];
  }

  lemma {:induction false} ValueIsASpelling(env: Platform, spans: seq<Span>, i: nat) returns (j: nat)
    requires i < |spans|
    ensures j < |spans| && Token(env, spans[j]) == Token(env, spans[i]) && Values(env, spans)[i] == spans[j].raw
  {
    DictionaryNamesFirst(env, spans, i);
    hide Token;
    hide Dictionary;
    j :| 0 <= j <= i && Token(env, spans[j]) == Token(env, spans[i]) &&
         Dictionary(env, spans)[Token(env, spans[i])] == spans[j].raw;
  }

  // Spans with one token have one spelling.
  ghost predicate OneSpelling(env: Platform, spans: seq<Span>) {
    forall i, j :: 0 <= i < |spans| && 0 <= j < |spans| && Token(env, spans[i]) == Token(env, spans[j]) ==>
      spans[i].raw == spans[j].raw
  }

  ghost predicate OneLength(env: Platform, spans: seq<Span>) {
    forall i, j :: 0 <= i < |spans| && 0 <= j < |spans| && Token(env, spans[i]) == Token(env, spans[j]) ==>
      |spans[i].raw| == |spans[j].raw|
  }

  lemma {:induction false} ValuesAreRawsIff(env: Platform, spans: seq<Span>)
    ensures Values(env, spans) == Raws(spans) <==> OneSpelling(env, spans)
  {
    hide Token;
    hide Dictionary;
    var values, raws := Values(env, spans), Raws(spans);
    if values == raws {
      forall i, j | 0 <= i < |spans| && 0 <= j < |spans| && Token(env, spans[i]) == Token(env, spans[j])
        ensures spans[i].raw == spans[j].raw
      {
        assert values[i] == values[j];
        assert values[i] == raws[i] && values[j] == raws[j];
      }
    }
    if OneSpelling(env, spans) {
      forall i | 0 <= i < |spans| ensures values[i] == raws[i] {
        var j := ValueIsASpelling(env, spans, i);
      }
    }
  }

  // Every resolved value is the original up to letter case and outer space.
  lemma {:induction false} ValuesKeepCanonicalForm(env: Platform, spans: seq<Span>, i: nat)
    requires Injective(env, spans) && i < |spans|
    ensures Canonicalise(env, Values(env, spans)[i]) == Canonicalise(env, spans[i].raw)
  {
    hide Token;
    hide Canonicalise;
    hide Values;
    var j := ValueIsASpelling(env, spans, i);
  }

  // Where the fills stand in the spliced text, when text position `cursor` has become `at`.
  function Placed(text: string, spans: seq<Span>, fill: seq<string>, cursor: nat, at: nat): (r: seq<Span>)
    requires |fill| == |spans| && Fits(text, spans, cursor)
    ensures |r| == |spans|
  {
    if spans == [] then []
    else
      var start := at + (spans[0].start - cursor);
      [Span(fill[0], spans[0].kind, start, start + |fill[0]|)] +
      Placed(text, spans[1..], fill[1..], spans[0].end, start + |fill[0]|)
  }

  // Splicing other values over the fills is the same as splicing them in the first place.
  lemma {:induction false} SpliceAgain(text: string, spans: seq<Span>, f: seq<string>, g: seq<string>, cursor: nat,
                                       before: string)
    requires Fits(text, spans, cursor) && |f| == |g| == |spans|
    ensures
      var done, placed := before + Splice(text, spans, f, cursor), Placed(text, spans, f, cursor, |before|);
      && Fits(done, placed, |before|)
      && (forall i :: 0 <= i < |spans| ==> Agrees(done, placed[i]) && placed[i].raw == f[i])
      && Splice(done, placed, g, |before|) == Splice(text, spans, g, cursor)
    decreases |spans|
  {
    var done, placed := before + Splice(text, spans, f, cursor), Placed(text, spans, f, cursor, |before|);
    if spans != [] {
      var gap, rest := text[cursor..spans[0].start], Splice(text, spans[1..], f[1..], spans[0].end);
      var further := before + gap + f[0];
      SpliceAgain(text, spans[1..], f[1..], g[1..], spans[0].end, further);
      assert done == further + rest by {
        Regroup(before, gap + f[0], rest);
        Regroup(before, gap, f[0]);
      }
      assert placed[1..] == Placed(text, spans[1..], f[1..], spans[0].end, |further|);
      assert done[|before|..placed[0].start] == gap && done[placed[0].start..placed[0].end] == f[0];
      forall i | 0 <= i < |spans| ensures Agrees(done, placed[i]) && placed[i].raw == f[i] {
        if i > 0 {
          assert placed[i] == placed[1..][i - 1] && f[i] == f[1..][i - 1];
        }
      }
    }
  }

  // Looking up each token of the anonymised text and putting its value in its place gives the
  // text verbatim when no token stands for two spellings, and only then unless the spellings of
  // one token differ in length.
  lemma {:induction false} RestoreIsExactIff(env: Platform, text: string, spans: seq<Span>)
    requires Fits(text, spans, 0)
    requires forall i :: 0 <= i < |spans| ==> Agrees(text, spans[i])
    ensures
      var anonymised, placed := Splice(text, spans, Tokens(env, spans), 0),
        Placed(text, spans, Tokens(env, spans), 0, 0);
      && Fits(anonymised, placed, 0)
      && (forall i :: 0 <= i < |spans| ==> Agrees(anonymised, placed[i]) && placed[i].raw == Token(env, spans[i]))
      && (OneSpelling(env, spans) ==> Splice(anonymised, placed, Values(env, spans), 0) == text)
      && (OneLength(env, spans) && Splice(anonymised, placed, Values(env, spans), 0) == text ==>
         OneSpelling(env, spans))
  {
    hide Token;
    hide Values;
    hide OneSpelling;
    var values, raws, tokens := Values(env, spans), Raws(spans), Tokens(env, spans);
    SpliceAgain(text, spans, tokens, values, 0, "");
    assert "" + Splice(text, spans, tokens, 0) == Splice(text, spans, tokens, 0);
    RawSpliceIsText(text, spans, 0);
    hide Splice;
    hide Placed;
    assert text[0..] == text;
    ValuesAreRawsIff(env, spans);
    if OneLength(env, spans) && Splice(text, spans, values, 0) == text {
      forall i | 0 <= i < |spans| ensures |values[i]| == |raws[i]| {
        var j := ValueIsASpelling(env, spans, i);
      }
      SpliceDeterminesFill(text, spans, values, raws, 0);
    }
  }

  // The length condition cannot be dropped: three spans share a token, the text comes back
  // verbatim, and yet two of the three spellings were lost.
  lemma {:induction false} DifferentLengthsCanCancel(env: Platform)
    requires env.lower("x") == "x" && env.lower("x ") == "x " && env.lower(" x ") == " x "
    ensures
      var text := "x x x ";
      var spans := [Span("x ", Person, 0, 2), Span("x", Person, 2, 3), Span(" x ", Person, 3, 6)];
      && Fits(text, spans, 0) && (forall i :: 0 <= i < |spans| ==> Agrees(text, spans[i]))
      && Splice(text, spans, Values(env, spans), 0) == text
      && !OneSpelling(env, spans) && !OneLength(env, spans)
  {
    var a, b, c := Span("x ", Person, 0, 2), Span("x", Person, 2, 3), Span(" x ", Person, 3, 6);
    OneToken(env, a, b, c);
    FirstSpellingWins(env, a, b, c);
    CancelledSplice("x x x ", a, b, c);
    SpansAgree("x x x ", a, b, c);
    hide *;
    TwoSpellings(env, a, b, c);
  }

  lemma {:induction false} SpansAgree(text: string, a: Span, b: Span, c: Span)
    requires text == "x x x " && a.start == 0 && a.end == b.start == 2 && b.end == c.start == 3 && c.end == 6
    requires a.raw == "x " && b.raw == "x" && c.raw == " x "
    ensures forall i :: 0 <= i < |[a, b, c]| ==> Agrees(text, [a, b, c][i])
  {
    assert text[0..2] == "x " && text[2..3] == "x" && text[3..6] == " x ";
    assert Agrees(text, a) && Agrees(text, b) && Agrees(text, c);
    hide Agrees;
  }

  lemma {:induction false} TwoSpellings(env: Platform, a: Span, b: Span, c: Span)
    requires Token(env, a) == Token(env, b) && |a.raw| != |b.raw|
    ensures !OneSpelling(env, [a, b, c]) && !OneLength(env, [a, b, c])
  {
    hide Token;
    var spans := [a, b, c];
    assert spans[0] == a && spans[1] == b;
    assert Token(env, spans[0]) == Token(env, spans[1]) && |spans[0].raw| != |spans[1].raw|;
  }

  lemma {:induction false} OneToken(env: Platform, a: Span, b: Span, c: Span)
    requires env.lower("x") == "x" && env.lower("x ") == "x " && env.lower(" x ") == " x "
    requires a.raw == "x " && b.raw == "x" && c.raw == " x " && a.kind == b.kind == c.kind
    ensures Token(env, a) == Token(env, b) == Token(env, c)
  {
    assert TrimEnd("x") == "x" && "x "[..1] == "x" && TrimEnd("x ") == "x";
    assert TrimStart("x") == "x" && TrimStart("x ") == "x " && " x "[1..] == "x " && TrimStart(" x ") == "x ";
  }

  lemma {:induction false} FirstSpellingWins(env: Platform, a: Span, b: Span, c: Span)
    requires Token(env, a) == Token(env, b) == Token(env, c)
    ensures Values(env, [a, b, c]) == [a.raw, a.raw, a.raw]
  {
    hide Token;
    var spans := [a, b, c];
    assert spans[0] == a && spans[1] == b && spans[2] == c;
    assert Dictionary(env, spans)[Token(env, a)] == a.raw;
    hide Dictionary;
    var values := Values(env, spans);
    assert values[0] == a.raw && values[1] == a.raw && values[2] == a.raw;
  }

  lemma {:induction false} CancelledSplice(text: string, a: Span, b: Span, c: Span)
    requires text == "x x x " && a.start == 0 && a.end == b.start == 2 && b.end == c.start == 3 && c.end == 6
    ensures Fits(text, [a, b, c], 0) && Splice(text, [a, b, c], ["x ", "x ", "x "], 0) == text
  {
    var y := "x ";
    SpliceFirst(text, a, [b, c], y, [y, y], 0);
    SpliceFirst(text, b, [c], y, [y], 2);
    SpliceFirst(text, c, [], y, [], 3);
    assert Fits(text, [], 6) && Splice(text, [], [], 6) == text[6..] == "";
    hide Splice;
    hide Fits;
    assert [a] + [b, c] == [a, b, c] && [b] + [c] == [b, c] && [c] + [] == [c];
    assert [y] + [y, y] == [y, y, y] && [y] + [y] == [y, y] && [y] + [] == [y];
  }

  lemma {:induction false} SpliceFirst(text: string, span: Span, rest: seq<Span>, y: string, fill: seq<string>,
                                       cursor: nat)
    requires |fill| == |rest| && cursor == span.start <= span.end <= |text|
    ensures Fits(text, [span] + rest, cursor) <==> Fits(text, rest, span.end)
    ensures Fits(text, rest, span.end) ==>
      Splice(text, [span] + rest, [y] + fill, cursor) == y + Splice(text, rest, fill, span.end)
  {
    assert ([span] + rest)[0] == span && ([span] + rest)[1..] == rest;
    assert ([y] + fill)[0] == y && ([y] + fill)[1..] == fill;
    assert text[cursor..span.start] == "";
    if Fits(text, rest, span.end) {
      assert "" + y == y;
    }
  }
}
