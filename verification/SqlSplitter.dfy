/** Splitting a SQL script on its top-level semicolons, dollar-quoted bodies kept whole. */
module SqlSplitter {
  import opened Strings
  import opened Whitespace

  // ---------------------------------------------------------------------------
  // Specification
  // ---------------------------------------------------------------------------

  predicate AtDelimiter(s: string) {
    |s| >= 2 && s[0] == '$' && s[1] == '$'
  }

  // Length of the text before the first semicolon outside `$$` regions.
  function Cut(s: string, quoted: bool): (n: nat)
    ensures n <= |s|
  {
    if s == "" then 0
    else if AtDelimiter(s) then 2 + Cut(s[2..], !quoted)
    else if !quoted && s[0] == ';' then 0
    else 1 + Cut(s[1..], quoted)
  }

  // Whether a text that starts in state `quoted` ends inside a `$$` region.
  predicate EndsQuoted(s: string, quoted: bool) {
    if s == "" then quoted
    else if AtDelimiter(s) then EndsQuoted(s[2..], !quoted)
    else EndsQuoted(s[1..], quoted)
  }

  // No semicolon outside `$$` regions.
  predicate Whole(s: string) {
    Cut(s, false) == |s|
  }

  predicate Balanced(s: string) {
    !EndsQuoted(s, false)
  }

  // The pieces between top-level semicolons, verbatim.
  function Pieces(sql: string): seq<string> {
    var n := Cut(sql, false);
    if n == |sql| then [sql] else [sql[..n]] + Pieces(sql[n + 1..])
  }

  function Flush(piece: string): seq<string> {
    if Trim(piece) == "" then [] else [Trim(piece)]
  }

  function FlushAll(pieces: seq<string>): seq<string> {
    if pieces == [] then [] else Flush(pieces[0]) + FlushAll(pieces[1..])
  }

  function Statements(sql: string): seq<string> {
    FlushAll(Pieces(sql))
  }

  // ---------------------------------------------------------------------------
  // The scanner
  // ---------------------------------------------------------------------------

  // What is still to come when the scanner holds `current` in front of `rest`.
  function Remaining(current: string, rest: string, quoted: bool): seq<string> {
    var n := Cut(rest, quoted);
    Flush(current + rest[..n]) + (if n == |rest| then [] else Statements(rest[n + 1..]))
  }

  lemma {:induction false} RemainingUnfolds(current: string, rest: string, quoted: bool)
    ensures rest == "" ==> Remaining(current, rest, quoted) == Flush(current)
    ensures AtDelimiter(rest) ==> Remaining(current, rest, quoted) == Remaining(current + "$$", rest[2..], !quoted)
    ensures rest != "" && !AtDelimiter(rest) && !quoted && rest[0] == ';' ==>
      Remaining(current, rest, quoted) == Flush(current) + Remaining("", rest[1..], false)
    ensures rest != "" && !AtDelimiter(rest) && (quoted || rest[0] != ';') ==>
      Remaining(current, rest, quoted) == Remaining(current + [rest[0]], rest[1..], quoted)
  {
    hide Statements;
    hide Flush;
    var n := Cut(rest, quoted);
    if rest == "" {
      assert current + rest[..n] == current;
    } else if AtDelimiter(rest) {
      assert current + rest[..n] == current + "$$" + rest[2..][..n - 2];
      assert rest[2..][n - 2..] == rest[n..];
      assert n < |rest| ==> rest[2..][n - 1..] == rest[n + 1..];
    } else if !quoted && rest[0] == ';' {
      assert current + rest[..0] == current;
      StatementsIsRemaining(rest[1..]);
      assert rest[0 + 1..] == rest[1..];
    } else {
      assert current + rest[..n] == current + [rest[0]] + rest[1..][..n - 1];
      assert n < |rest| ==> rest[1..][n..] == rest[n + 1..];
    }
  }

  lemma {:induction false} StatementsIsRemaining(sql: string)
    ensures Statements(sql) == Remaining("", sql, false)
  {
    var n := Cut(sql, false);
    assert "" + sql[..n] == sql[..n];
    if n == |sql| {
      assert sql[..n] == sql;
      assert FlushAll([sql]) == Flush(sql) + FlushAll([]);
    } else {
      assert Pieces(sql)[1..] == Pieces(sql[n + 1..]);
    }
  }

  method SplitSqlStatements(sql: string) returns (statements: seq<string>)
    ensures statements == Statements(sql)
  {
    hide Remaining;
    hide Statements;
    hide Trim;
    statements := [];
    var current := "";
    var inDollarQuote := false;
    var i := 0;
    StatementsIsRemaining(sql);
    assert sql[0..] == sql;
    while i < |sql|
      invariant 0 <= i <= |sql|
      invariant Statements(sql) == statements + Remaining(current, sql[i..], inDollarQuote)
    {
      ghost var rest := sql[i..];
      RemainingUnfolds(current, rest, inDollarQuote);
      assert rest != "" && rest[0] == sql[i] && rest[1..] == sql[i + 1..];
      assert i + 1 < |sql| ==> rest[1] == sql[i + 1] && rest[2..] == sql[i + 2..];
      assert AtDelimiter(rest) <==> sql[i] == '$' && i + 1 < |sql| && sql[i + 1] == '$';
      hide AtDelimiter;
      if sql[i] == '$' && i + 1 < |sql| && sql[i + 1] == '$' {
        inDollarQuote := !inDollarQuote;
        current := current + "$$";
        i := i + 2;
        continue;
      }
      if !inDollarQuote && sql[i] == ';' {
        var trimmed := Trim(current);
        Regroup(statements, Flush(current), Remaining("", sql[i + 1..], false));
        if |trimmed| > 0 {
          statements := statements + [trimmed];
        }
        current := "";
        i := i + 1;
        continue;
      }
      current := current + [sql[i]];
      i := i + 1;
    }
    RemainingUnfolds(current, "", inDollarQuote);
    assert sql[i..] == "";
    var trailing := Trim(current);
    if |trailing| > 0 {
      statements := statements + [trailing];
    }
  }

  // ---------------------------------------------------------------------------
  // What a cut yields
  // ---------------------------------------------------------------------------

  lemma {:induction false} CutIsWhole(s: string, quoted: bool)
    ensures
      var n := Cut(s, quoted);
      && Cut(s[..n], quoted) == n
      && (n < |s| ==> s[n] == ';' && !EndsQuoted(s[..n], quoted))
  {
    var n := Cut(s, quoted);
    if s == "" {
    } else if AtDelimiter(s) {
      CutIsWhole(s[2..], !quoted);
      assert s[..n][2..] == s[2..][..n - 2];
    } else if !quoted && s[0] == ';' {
    } else {
      CutIsWhole(s[1..], quoted);
      assert s[..n][1..] == s[1..][..n - 1];
    }
  }

  // A whole text followed by anything that does not continue a delimiter scans on from its end state.
  lemma {:induction false} CutExtends(t: string, u: string, quoted: bool)
    requires Cut(t, quoted) == |t| && (u == "" || u[0] != '$')
    ensures Cut(t + u, quoted) == |t| + Cut(u, EndsQuoted(t, quoted))
  {
    if t == "" {
      assert t + u == u;
    } else if AtDelimiter(t) {
      CutExtends(t[2..], u, !quoted);
      assert (t + u)[2..] == t[2..] + u;
    } else {
      assert (t + u)[0] == t[0] && !AtDelimiter(t + u);
      assert (t + u)[1..] == t[1..] + u;
      CutExtends(t[1..], u, quoted);
    }
  }

  lemma {:induction false} LeadingSpaces(spaces: string, t: string, quoted: bool)
    requires AllSpace(spaces)
    ensures Cut(spaces + t, quoted) == |spaces| + Cut(t, quoted)
    ensures EndsQuoted(spaces + t, quoted) == EndsQuoted(t, quoted)
  {
    if spaces == "" {
      assert spaces + t == t;
    } else {
      LeadingSpaces(spaces[1..], t, quoted);
      assert (spaces + t)[1..] == spaces[1..] + t;
      assert IsSpace((spaces + t)[0]);
    }
  }

  lemma {:induction false} TrailingSpaces(t: string, spaces: string, quoted: bool)
    requires AllSpace(spaces) && Cut(t + spaces, quoted) == |t + spaces|
    ensures Cut(t, quoted) == |t|
    ensures EndsQuoted(t + spaces, quoted) == EndsQuoted(t, quoted)
  {
    if t == "" {
      assert t + spaces == spaces == spaces + "";
      LeadingSpaces(spaces, "", quoted);
    } else if AtDelimiter(t) {
      assert (t + spaces)[2..] == t[2..] + spaces;
      TrailingSpaces(t[2..], spaces, !quoted);
    } else {
      assert (t + spaces)[1..] == t[1..] + spaces;
      assert |t| == 1 && spaces != "" ==> IsSpace((t + spaces)[1]);
      TrailingSpaces(t[1..], spaces, quoted);
    }
  }

  lemma {:induction false} TrimKeepsQuoting(piece: string)
    requires Whole(piece)
    ensures Whole(Trim(piece)) && Balanced(Trim(piece)) == Balanced(piece) && Trimmed(Trim(piece))
  {
    var before, after := TrimSplits(piece);
    assert piece == before + (Trim(piece) + after);
    LeadingSpaces(before, Trim(piece) + after, false);
    TrailingSpaces(Trim(piece), after, false);
  }

  // ---------------------------------------------------------------------------
  // Main results
  // ---------------------------------------------------------------------------

  // A list as the splitter produces it.
  ghost predicate Clean(statements: seq<string>) {
    && (forall i :: 0 <= i < |statements| ==> statements[i] != "" && Trimmed(statements[i]) && Whole(statements[i]))
    && (forall i :: 0 <= i < |statements| - 1 ==> Balanced(statements[i]))
  }

  // Nothing is lost: the pieces joined by semicolons are the script, and every cut fell
  // outside the `$$` regions.
  lemma {:induction false} PiecesRebuildScript(sql: string)
    ensures Pieces(sql) != [] && Join(Pieces(sql), ";") == sql
    ensures forall i :: 0 <= i < |Pieces(sql)| ==> Whole(Pieces(sql)[i])
    ensures forall i :: 0 <= i < |Pieces(sql)| - 1 ==> Balanced(Pieces(sql)[i])
    decreases |sql|
  {
    var n := Cut(sql, false);
    CutIsWhole(sql, false);
    if n == |sql| {
      assert sql[..n] == sql;
    } else {
      var rest := Pieces(sql[n + 1..]);
      PiecesRebuildScript(sql[n + 1..]);
      assert Pieces(sql)[1..] == rest;
      assert sql == sql[..n] + ";" + sql[n + 1..];
    }
  }

  lemma {:induction false} FlushAllIsClean(pieces: seq<string>)
    requires forall i :: 0 <= i < |pieces| ==> Whole(pieces[i])
    requires forall i :: 0 <= i < |pieces| - 1 ==> Balanced(pieces[i])
    ensures Clean(FlushAll(pieces))
  {
    if pieces != [] {
      FlushAllIsClean(pieces[1..]);
      TrimKeepsQuoting(pieces[0]);
    }
  }

  // No statement has a semicolon outside `$$` regions; all but possibly the last are balanced.
  lemma {:induction false} StatementsAreClean(sql: string)
    ensures Clean(Statements(sql))
  {
    PiecesRebuildScript(sql);
    FlushAllIsClean(Pieces(sql));
  }

  lemma {:induction false} CleanListSplitsBack(statements: seq<string>)
    requires Clean(statements)
    ensures Statements(Join(statements, ";")) == statements
  {
    if statements == [] {
      assert Statements("") == Flush("") + FlushAll([]);
    } else {
      var t, rest := statements[0], statements[1..];
      TrimmedIsFixed(t);
      if rest == [] {
        assert t + "" == t;
        assert FlushAll([t]) == Flush(t) + FlushAll([]);
      } else {
        var tail := Join(rest, ";");
        var sql := t + ";" + tail;
        CleanListSplitsBack(rest);
        assert sql == t + (";" + tail);
        CutExtends(t, ";" + tail, false);
        assert Cut(";" + tail, false) == 0;
        assert sql[..|t|] == t && sql[|t| + 1..] == tail;
        assert Pieces(sql)[1..] == Pieces(tail);
      }
    }
  }

  // Printing the statements and splitting again gives the same list, for every script.
  lemma {:induction false} SplitIsStable(sql: string)
    ensures Statements(Join(Statements(sql), ";")) == Statements(sql)
  {
    StatementsAreClean(sql);
    CleanListSplitsBack(Statements(sql));
  }

  // ---------------------------------------------------------------------------
  // Where the cuts fall, on the indices of the script
  // ---------------------------------------------------------------------------

  // How many `$$` stand before index `k`, counted from there backwards.
  function Dollars(s: string, k: nat): nat
    requires k <= |s|
  {
    if k < 2 then 0
    else if s[k - 1] == '$' && s[k - 2] == '$' then 1 + Dollars(s, k - 2)
    else Dollars(s, k - 1)
  }

  // A semicolon with an even number of `$$` before it.
  predicate CutsAt(s: string, k: nat) {
    k < |s| && s[k] == ';' && Dollars(s, k) % 2 == 0
  }

  // Length of the run of dollar signs that ends before index `k`.
  function DollarRun(s: string, k: nat): (n: nat)
    requires k <= |s|
    ensures n <= k
  {
    if k > 0 && s[k - 1] == '$' then 1 + DollarRun(s, k - 1) else 0
  }

  lemma {:induction false} PairsOfRun(s: string, k: nat)
    requires k <= |s|
    ensures Dollars(s, k) == DollarRun(s, k) / 2 + Dollars(s, k - DollarRun(s, k))
  {
    if DollarRun(s, k) >= 2 {
      assert DollarRun(s, k) == 2 + DollarRun(s, k - 2);
      PairsOfRun(s, k - 2);
    }
  }

  // The scanner never stands inside a `$$`.
  ghost predicate ScansAt(s: string, p: nat) {
    p <= |s| && (DollarRun(s, p) % 2 == 0 || p == |s| || s[p] != '$')
  }

  lemma {:induction false} ScannerSteps(s: string, p: nat)
    requires ScansAt(s, p) && p < |s|
    ensures AtDelimiter(s[p..]) ==> p + 2 <= |s| && ScansAt(s, p + 2) && Dollars(s, p + 2) == 1 + Dollars(s, p)
    ensures !AtDelimiter(s[p..]) ==> ScansAt(s, p + 1) && Dollars(s, p + 1) == Dollars(s, p)
  {
    assert s[p..][0] == s[p];
    if p + 1 < |s| {
      assert s[p..][1] == s[p + 1];
    }
    if AtDelimiter(s[p..]) {
      assert DollarRun(s, p + 2) == 2 + DollarRun(s, p);
    } else if s[p] == '$' {
      PairsOfRun(s, p);
      PairsOfRun(s, p + 1);
    }
  }

  lemma {:induction false} CutIsFirst(s: string, p: nat)
    requires ScansAt(s, p)
    ensures
      var k := p + Cut(s[p..], Dollars(s, p) % 2 == 1);
      && (forall j :: p <= j < k ==> !CutsAt(s, j))
      && (k < |s| ==> CutsAt(s, k))
    decreases |s| - p
  {
    hide Dollars;
    hide ScansAt;
    if p < |s| {
      ScannerSteps(s, p);
      assert s[p..][0] == s[p] && s[p..][1..] == s[p + 1..];
      if AtDelimiter(s[p..]) {
        assert s[p..][2..] == s[p + 2..] && s[p..][1] == s[p + 1];
        CutIsFirst(s, p + 2);
      } else if s[p] != ';' || Dollars(s, p) % 2 == 1 {
        CutIsFirst(s, p + 1);
      }
    }
  }

  lemma {:induction false} DollarsBehind(s: string, k: nat, j: nat)
    requires k < |s| && s[k] != '$' && k + 1 + j <= |s|
    ensures Dollars(s, k + 1 + j) == Dollars(s, k) + Dollars(s[k + 1..], j)
  {
    if j >= 2 {
      DollarsBehind(s, k, j - 1);
      DollarsBehind(s, k, j - 2);
      assert s[k + 1..][j - 1] == s[k + j] && s[k + 1..][j - 2] == s[k + j - 1];
    }
  }

  // Where piece `i` starts when the pieces stand one semicolon apart.
  function PieceStart(pieces: seq<string>, i: nat): nat
    requires i <= |pieces|
  {
    if i == 0 then 0 else PieceStart(pieces, i - 1) + |pieces[i - 1]| + 1
  }

  lemma {:induction false} LaterStart(first: string, rest: seq<string>, i: nat)
    requires i <= |rest|
    ensures PieceStart([first] + rest, i + 1) == |first| + 1 + PieceStart(rest, i)
  {
    if i > 0 {
      LaterStart(first, rest, i - 1);
      assert ([first] + rest)[i] == rest[i - 1];
    } else {
      assert PieceStart([first] + rest, 0) == 0 && ([first] + rest)[0] == first;
    }
  }

  // A stretch of the script from one cut to the next, with none inside.
  ghost predicate BetweenCuts(sql: string, from: nat, to: nat) {
    && from <= to <= |sql| && (from == 0 || CutsAt(sql, from - 1)) && (to == |sql| || CutsAt(sql, to))
    && forall j :: from <= j < to ==> !CutsAt(sql, j)
  }

  lemma {:induction false} PiecesUnfold(sql: string)
    ensures
      var n := Cut(sql, false);
      && Pieces(sql) == (if n == |sql| then [sql] else [sql[..n]] + Pieces(sql[n + 1..]))
      && Pieces(sql) != []
      && sql[0..n] == Pieces(sql)[0] && BetweenCuts(sql, 0, n)
  {
    CutIsFirst(sql, 0);
    assert sql[0..] == sql;
    hide Cut;
    var n := Cut(sql, false);
    assert sql[0..n] == sql[..n] && sql[..|sql|] == sql;
  }

  // Every piece is the text between two neighbouring semicolons that have an even number of `$$`
  // before them, and the pieces follow each other.
  lemma {:induction false} PiecesLieBetweenCuts(sql: string, i: nat)
    requires i < |Pieces(sql)|
    ensures
      var from := PieceStart(Pieces(sql), i);
      var to := from + |Pieces(sql)[i]|;
      && BetweenCuts(sql, from, to) && sql[from..to] == Pieces(sql)[i]
      && (to == |sql| <==> i == |Pieces(sql)| - 1)
    decreases |sql|
  {
    hide Cut;
    hide Pieces;
    hide CutsAt;
    var n := Cut(sql, false);
    PiecesUnfold(sql);
    if i > 0 {
      var rest := sql[n + 1..];
      PiecesUnfold(rest);
      PiecesLieBetweenCuts(rest, i - 1);
      LaterStart(sql[..n], Pieces(rest), i - 1);
      var from := PieceStart(Pieces(rest), i - 1);
      hide PieceStart;
      PieceMoves(sql, n, from, from + |Pieces(rest)[i - 1]|);
    } else if n < |sql| {
      PiecesUnfold(sql[n + 1..]);
    }
  }

  lemma {:induction false} CutMoves(sql: string, n: nat, j: nat)
    requires CutsAt(sql, n) && n + 1 + j < |sql|
    ensures CutsAt(sql, n + 1 + j) <==> CutsAt(sql[n + 1..], j)
  {
    DollarsBehind(sql, n, j);
    hide Dollars;
  }

  lemma {:induction false} PieceMoves(sql: string, n: nat, from: nat, to: nat)
    requires n < |sql| && CutsAt(sql, n) && BetweenCuts(sql[n + 1..], from, to)
    ensures BetweenCuts(sql, n + 1 + from, n + 1 + to)
    ensures sql[n + 1 + from..n + 1 + to] == sql[n + 1..][from..to]
  {
    hide CutsAt;
    var rest := sql[n + 1..];
    forall j | n + 1 + from <= j < n + 1 + to ensures !CutsAt(sql, j) {
      CutMoves(sql, n, j - n - 1);
      assert n + 1 + (j - n - 1) == j;
    }
    if from > 0 {
      CutMoves(sql, n, from - 1);
      assert n + 1 + (from - 1) == n + 1 + from - 1;
    }
    if to < |rest| {
      CutMoves(sql, n, to);
    }
  }
}
