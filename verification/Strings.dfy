/** Strings as the JavaScript engine sees them: the default `sort()` order and the join of a list. */
module Strings {

  // Position of a character in the order of its UTF-16 code units. Characters beyond the
  // basic plane are stored as surrogates (D800..DFFF), so they sort before E000..FFFF.
  function Rank(c: char): int {
    var n := c as int;
    if 0xE000 <= n < 0x1_0000 then n + 0x11_0000 else n
  }

  predicate Less(a: string, b: string) {
    if b == "" then false
    else if a == "" then true
    else Rank(a[0]) < Rank(b[0]) || (a[0] == b[0] && Less(a[1..], b[1..]))
  }

  lemma {:induction false} LessIrreflexive(a: string)
    ensures !Less(a, a)
  {
    if a != "" {
      LessIrreflexive(a[1..]);
    }
  }

  lemma {:induction false} LessTransitive(a: string, b: string, c: string)
    requires Less(a, b) && Less(b, c)
    ensures Less(a, c)
  {
    if a != "" && a[0] == b[0] == c[0] {
      LessTransitive(a[1..], b[1..], c[1..]);
    }
  }

  lemma {:induction false} LessTotal(a: string, b: string)
    ensures a == b || Less(a, b) || Less(b, a)
  {
    if a != "" && b != "" && a[0] == b[0] {
      LessTotal(a[1..], b[1..]);
      assert a == [a[0]] + a[1..] && b == [b[0]] + b[1..];
    }
  }

  // The two-byte units of a character, section 2.1 of RFC 2781.
  function Units(c: char): (r: seq<int>)
    ensures 1 <= |r| <= 2
  {
    var n := c as int;
    if n < 0x1_0000 then [n] else [0xD800 + (n - 0x1_0000) / 0x400, 0xDC00 + (n - 0x1_0000) % 0x400]
  }

  function CodeUnits(s: string): seq<int> {
    if s == "" then [] else Units(s[0]) + CodeUnits(s[1..])
  }

  // Smaller at the first place of difference, or a proper prefix.
  ghost predicate SmallerAt(x: seq<int>, y: seq<int>, k: nat) {
    k <= |x| && k < |y| && (forall i :: 0 <= i < k ==> x[i] == y[i]) && (k == |x| || x[k] < y[k])
  }

  ghost predicate Smaller(x: seq<int>, y: seq<int>) {
    exists k: nat :: SmallerAt(x, y, k)
  }

  lemma {:induction false} UnitsFollowRank(c: char, d: char, x: seq<int>, y: seq<int>)
    requires Rank(c) < Rank(d)
    ensures Smaller(Units(c) + x, Units(d) + y)
  {
    var u, v := Units(c) + x, Units(d) + y;
    if u[0] == v[0] {
      assert SmallerAt(u, v, 1);
    } else {
      assert SmallerAt(u, v, 0);
    }
  }

  lemma {:induction false} LessIsSmaller(a: string, b: string)
    requires Less(a, b)
    ensures Smaller(CodeUnits(a), CodeUnits(b))
  {
    if a == "" {
      assert SmallerAt(CodeUnits(a), CodeUnits(b), 0);
    } else if Rank(a[0]) < Rank(b[0]) {
      UnitsFollowRank(a[0], b[0], CodeUnits(a[1..]), CodeUnits(b[1..]));
    } else {
      LessIsSmaller(a[1..], b[1..]);
      var k: nat :| SmallerAt(CodeUnits(a[1..]), CodeUnits(b[1..]), k);
      assert SmallerAt(CodeUnits(a), CodeUnits(b), |Units(a[0])| + k);
    }
  }

  // The sort order is that of the UTF-16 code units.
  lemma {:induction false} LessIffSmallerUnits(a: string, b: string)
    ensures Less(a, b) <==> Smaller(CodeUnits(a), CodeUnits(b))
  {
    var x, y := CodeUnits(a), CodeUnits(b);
    if Less(a, b) {
      LessIsSmaller(a, b);
    } else if Smaller(x, y) {
      LessTotal(a, b);
      if Less(b, a) {
        LessIsSmaller(b, a);
        NotBothSmaller(y, x);
      } else {
        NotBothSmaller(x, x);
      }
    }
  }

  lemma {:induction false} NotBothSmaller(x: seq<int>, y: seq<int>)
    ensures !(Smaller(x, y) && Smaller(y, x))
  {
    if k: nat, l: nat :| SmallerAt(x, y, k) && SmallerAt(y, x, l) {
      assert false;
    }
  }

  function Join(texts: seq<string>, separator: string): string {
    if |texts| == 0 then ""
    else if |texts| == 1 then texts[0]
    else texts[0] + separator + Join(texts[1..], separator)
  }

  lemma {:induction false} Regroup<T>(x: seq<T>, y: seq<T>, z: seq<T>)
    ensures x + (y + z) == x + y + z
  {
  }
}
