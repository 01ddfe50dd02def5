/**
 * A reader of JSON texts after RFC 8259, and the printer read back by it. The reader also takes what
 * the printer writes for `undefined`: the word itself, and nothing at all in an array of several.
 */
module JsonReader {
  import opened Options
  import opened Strings
  import opened KeySort
  import opened CanonicalJson

  datatype Reading<+T> = Reading(value: T, rest: string)

  // ---------------------------------------------------------------------------
  // Strings: section 7 of RFC 8259
  // ---------------------------------------------------------------------------

  function HexValue(c: char): Option<nat> {
    if '0' <= c <= '9' then Some(c as nat - '0' as nat)
    else if 'a' <= c <= 'f' then Some(10 + c as nat - 'a' as nat)
    else if 'A' <= c <= 'F' then Some(10 + c as nat - 'A' as nat)
    else None
  }

  function ReadHex(s: string): (r: Option<Reading<char>>)
    ensures r.Some? ==> |s| >= 4 && r.value.rest == s[4..]
  {
    if |s| < 4 then None
    else
      var a, b, c, d := HexValue(s[0]), HexValue(s[1]), HexValue(s[2]), HexValue(s[3]);
      if a.None? || b.None? || c.None? || d.None? then None
      else
        var n := 4096 * a.value + 256 * b.value + 16 * c.value + d.value;
        if 0xD800 <= n < 0xE000 || n > 0xFFFF then None else Some(Reading(n as char, s[4..]))
  }

  // The characters that may follow a backslash.
  function Escaped(c: char): Option<char> {
    match c
    case '"' => Some('"')
    case '\\' => Some('\\')
    case '/' => Some('/')
    case 'b' => Some('\U{0008}')
    case 'f' => Some('\U{000C}')
    case 'n' => Some('\U{000A}')
    case 'r' => Some('\U{000D}')
    case 't' => Some('\U{0009}')
    case _ => None
  }

  function ReadChar(s: string): (r: Option<Reading<char>>)
    ensures r.Some? ==> |r.value.rest| < |s|
  {
    if s == "" || s[0] == '"' || (s[0] as int) < 0x20 then None
    else if s[0] != '\\' then Some(Reading(s[0], s[1..]))
    else if |s| == 1 then None
    else if s[1] == 'u' then ReadHex(s[2..])
    else if Escaped(s[1]).None? then None
    else Some(Reading(Escaped(s[1]).value, s[2..]))
  }

  // The rest of a string after its opening quotation mark.
  function ReadString(s: string): (r: Option<Reading<string>>)
    ensures r.Some? ==> |r.value.rest| < |s|
    decreases |s|
  {
    if s != "" && s[0] == '"' then Some(Reading("", s[1..]))
    else
      var first := ReadChar(s);
      if first.None? then None
      else
        var more := ReadString(first.value.rest);
        if more.None? then None else Some(Reading([first.value.value] + more.value.value, more.value.rest))
  }

  // ---------------------------------------------------------------------------
  // Values: sections 3 to 6
  // ---------------------------------------------------------------------------

  predicate StartsWith(s: string, word: string) {
    |s| >= |word| && s[..|word|] == word
  }

  function ReadWord(s: string): (r: Option<Reading<Value>>)
    ensures r.Some? ==> |r.value.rest| < |s|
  {
    if StartsWith(s, "null") then Some(Reading(Null, s[4..]))
    else if StartsWith(s, "true") then Some(Reading(Bool(true), s[4..]))
    else if StartsWith(s, "false") then Some(Reading(Bool(false), s[5..]))
    else if StartsWith(s, "undefined") then Some(Reading(Undefined, s[9..]))
    else None
  }

  predicate InNumber(c: char) {
    c in "0123456789-+.eE"
  }

  function NumberLength(s: string): (n: nat)
    ensures n <= |s|
  {
    if s == "" || !InNumber(s[0]) then 0 else 1 + NumberLength(s[1..])
  }

  function ReadValue(s: string): (r: Option<Reading<Value>>)
    ensures r.Some? ==> |r.value.rest| < |s|
    decreases |s|, 0
  {
    if s == "" then None
    else if s[0] == '"' then
      var text := ReadString(s[1..]);
      if text.None? then None else Some(Reading(Str(text.value.value), text.value.rest))
    else if s[0] == '[' then
      if |s| > 1 && s[1] == ']' then Some(Reading(Array([]), s[2..]))
      else
        var items := ReadItems(s[1..]);
        if items.None? then None else Some(Reading(Array(items.value.value), items.value.rest))
    else if s[0] == '{' then
      if |s| > 1 && s[1] == '}' then Some(Reading(Object([]), s[2..]))
      else
        var members := ReadMembers(s[1..]);
        if members.None? then None else Some(Reading(Object(members.value.value), members.value.rest))
    else if InNumber(s[0]) then Some(Reading(Number(s[..NumberLength(s)]), s[NumberLength(s)..]))
    else ReadWord(s)
  }

  function ReadItem(s: string): (r: Option<Reading<Value>>)
    ensures r.Some? ==> |r.value.rest| <= |s|
    decreases |s|, 1
  {
    if s != "" && s[0] in {',', ']'} then Some(Reading(Undefined, s)) else ReadValue(s)
  }

  // At least one element, up to the closing bracket.
  function ReadItems(s: string): (r: Option<Reading<seq<Value>>>)
    ensures r.Some? ==> |r.value.rest| < |s|
    decreases |s|, 2
  {
    var first := ReadItem(s);
    if first.None? || first.value.rest == "" then None
    else if first.value.rest[0] == ']' then Some(Reading([first.value.value], first.value.rest[1..]))
    else if first.value.rest[0] != ',' then None
    else
      var more := ReadItems(first.value.rest[1..]);
      if more.None? then None else Some(Reading([first.value.value] + more.value.value, more.value.rest))
  }

  function ReadMember(s: string): (r: Option<Reading<Entry<Value>>>)
    ensures r.Some? ==> |r.value.rest| < |s|
    decreases |s|, 0
  {
    if s == "" || s[0] != '"' then None
    else
      var key := ReadString(s[1..]);
      if key.None? || key.value.rest == "" || key.value.rest[0] != ':' then None
      else
        var value := ReadValue(key.value.rest[1..]);
        if value.None? then None else Some(Reading(Entry(key.value.value, value.value.value), value.value.rest))
  }

  function ReadMembers(s: string): (r: Option<Reading<seq<Entry<Value>>>>)
    ensures r.Some? ==> |r.value.rest| < |s|
    decreases |s|, 1
  {
    var first := ReadMember(s);
    if first.None? || first.value.rest == "" then None
    else if first.value.rest[0] == '}' then Some(Reading([first.value.value], first.value.rest[1..]))
    else if first.value.rest[0] != ',' then None
    else
      var more := ReadMembers(first.value.rest[1..]);
      if more.None? then None else Some(Reading([first.value.value] + more.value.value, more.value.rest))
  }

  function Parse(s: string): Option<Value> {
    var r := ReadValue(s);
    if r.Some? && r.value.rest == "" then Some(r.value.value) else None
  }

  // ---------------------------------------------------------------------------
  // What the printer quotes is read back, and in the shortest spelling
  // ---------------------------------------------------------------------------

  lemma {:induction false} HexDigitReads(n: nat)
    requires n < 16
    ensures HexValue(HexDigit(n)) == Some(n) && !('A' <= HexDigit(n) <= 'F')
  {
  }

  lemma {:induction false} EscapeCharReads(c: char, rest: string)
    ensures ReadChar(EscapeChar(c) + rest) == Some(Reading(c, rest))
    ensures EscapeChar(c) != "" && EscapeChar(c)[0] != '"'
  {
    var t := EscapeChar(c);
    if |t| == 6 {
      HexReads(c as nat / 16, c as nat % 16, rest);
    } else {
      assert (t + rest)[0] == t[0] && (t + rest)[|t|..] == rest;
      assert |t| == 2 ==> (t + rest)[1] == t[1];
    }
  }

  lemma {:induction false} HexReads(m: nat, n: nat, rest: string)
    requires m < 16 && n < 16
    ensures 16 * m + n < 256
    ensures ReadChar("\\u00" + [HexDigit(m), HexDigit(n)] + rest) == Some(Reading((16 * m + n) as char, rest))
  {
    HexDigitReads(m);
    HexDigitReads(n);
    hide HexDigit;
    var s := "\\u00" + [HexDigit(m), HexDigit(n)] + rest;
    var u := s[2..];
    assert u[0] == '0' && u[1] == '0' && u[2] == HexDigit(m) && u[3] == HexDigit(n) && u[4..] == rest;
  }

  // No text that reads as this one character is shorter, and hexadecimal digits are lower case.
  lemma {:induction false} EscapeCharIsShortest(c: char, t: string)
    requires ReadChar(t) == Some(Reading(c, ""))
    ensures |EscapeChar(c)| <= |t|
    ensures |EscapeChar(c)| > 1 ==> forall i :: 0 <= i < |EscapeChar(c)| ==> !('A' <= EscapeChar(c)[i] <= 'Z')
  {
    if |EscapeChar(c)| == 6 {
      HexDigitReads(c as nat / 16);
      HexDigitReads(c as nat % 16);
    }
  }

  lemma {:induction false} EscapeReads(text: string, rest: string)
    ensures ReadString(Escape(text) + "\"" + rest) == Some(Reading(text, rest))
  {
    if text == "" {
      assert Escape(text) + "\"" + rest == "\"" + rest;
    } else {
      var more := Escape(text[1..]) + "\"" + rest;
      EscapeReads(text[1..], rest);
      EscapeCharReads(text[0], more);
      Regroup(EscapeChar(text[0]), Escape(text[1..]), "\"");
      Regroup(EscapeChar(text[0]), Escape(text[1..]) + "\"", rest);
      var s := EscapeChar(text[0]) + more;
      assert Escape(text) + "\"" + rest == s && s[0] == EscapeChar(text[0])[0];
      assert text == [text[0]] + text[1..];
    }
  }

  lemma {:induction false} QuoteReads(text: string, rest: string)
    ensures
      var s := Quote(text) + rest;
      s != "" && s[0] == '"' && ReadString(s[1..]) == Some(Reading(text, rest))
  {
    EscapeReads(text, rest);
    hide Escape;
    hide ReadString;
    assert (Quote(text) + rest)[1..] == Escape(text) + "\"" + rest;
  }

  // ---------------------------------------------------------------------------
  // Printed values are read back
  // ---------------------------------------------------------------------------

  // What may follow a value inside a larger text.
  predicate Delimited(s: string) {
    s == "" || s[0] in {',', ']', '}'}
  }

  // Normal forms: no number prints as "null" and no array prints an undefined element alone.
  ghost predicate Plain(v: Value) {
    match v
    case Number(numeral) => IsNumeral(numeral)
    case NonFinite => false
    case Array(items) => items != [Undefined] && forall i :: 0 <= i < |items| ==> Plain(items[i])
    case Object(members) => forall i :: 0 <= i < |members| ==> Plain(members[i].value)
    case _ => true
  }

  // The text of a list after its first element, up to the end of the enclosing text.
  function Rest(texts: seq<string>, close: string, s: string): string {
    if texts == [] then close + s else "," + (Join(texts, ",") + close + s)
  }

  lemma {:induction false} JoinSplit(texts: seq<string>, close: string, s: string)
    requires texts != []
    ensures Join(texts, ",") + close + s == texts[0] + Rest(texts[1..], close, s)
  {
    if |texts| > 1 {
      assert Join(texts, ",") + close + s
          == texts[0] + ("," + (Join(texts[1..], ",") + close + s));
    } else {
      assert Join(texts, ",") + close + s == texts[0] + (close + s);
    }
  }

  lemma {:induction false} NumeralReads(numeral: string, rest: string)
    requires Delimited(rest) && forall i :: 0 <= i < |numeral| ==> NumeralChar(numeral[i])
    ensures NumberLength(numeral + rest) == |numeral|
  {
    if numeral == "" {
      assert numeral + rest == rest;
    } else {
      assert (numeral + rest)[0] == numeral[0] && (numeral + rest)[1..] == numeral[1..] + rest;
      NumeralReads(numeral[1..], rest);
    }
  }

  // How a printed value begins.
  lemma {:induction false} PrintStart(v: Value)
    requires Plain(v)
    ensures Print(v) != "" && Print(v)[0] !in {',', ']', '}', ':'}
  {
    match v
    case Number(numeral) => assert NumeralChar(numeral[0]);
    case _ =>
  }

  lemma {:induction false} WordReads(v: Value, rest: string)
    requires v.Undefined? || v.Null? || v.Bool?
    ensures ReadValue(Print(v) + rest) == Some(Reading(v, rest))
  {
    var word := Print(v);
    assert word in ["undefined", "null", "true", "false"];
    assert !InNumber('n') && !InNumber('t') && !InNumber('f') && !InNumber('u');
    var s := word + rest;
    assert s[..|word|] == word && s[|word|..] == rest && s[0] == word[0];
    hide InNumber;
    assert ReadValue(s) == ReadWord(s);
    assert StartsWith(s, word);
    Distinguish(s);
    hide ReadValue;
    hide Print;
    hide StartsWith;
  }

  lemma {:induction false} Distinguish(s: string)
    ensures StartsWith(s, "null") ==> s[0] == 'n'
    ensures StartsWith(s, "true") ==> s[0] == 't'
    ensures StartsWith(s, "false") ==> s[0] == 'f'
    ensures StartsWith(s, "undefined") ==> s[0] == 'u'
  {
    if StartsWith(s, "null") {
      assert s[..4][0] == s[0];
    }
    if StartsWith(s, "true") {
      assert s[..4][0] == s[0];
    }
    if StartsWith(s, "false") {
      assert s[..5][0] == s[0];
    }
    if StartsWith(s, "undefined") {
      assert s[..9][0] == s[0];
    }
  }

  lemma {:induction false} PrintReads(v: Value, rest: string)
    requires Plain(v) && Delimited(rest)
    ensures ReadValue(Print(v) + rest) == Some(Reading(v, rest))
    decreases v, 1
  {
    hide Print;
    hide ReadValue;
    hide Delimited;
    match v
    case Number(numeral) =>
      NumberReads(numeral, rest);
    case Str(text) =>
      StrReads(text, rest);
    case Array(items) =>
      ArrayReads(items, rest);
    case Object(members) =>
      ObjectReads(members, rest);
    case _ =>
      WordReads(v, rest);
  }

  lemma {:induction false} NumberReads(numeral: string, rest: string)
    requires IsNumeral(numeral) && Delimited(rest)
    ensures ReadValue(Print(Number(numeral)) + rest) == Some(Reading(Number(numeral), rest))
  {
    NumeralReads(numeral, rest);
    var s := numeral + rest;
    assert s[0] == numeral[0] && InNumber(s[0]) && s[..|numeral|] == numeral && s[|numeral|..] == rest;
    hide NumberLength;
    assert Print(Number(numeral)) == numeral;
  }

  lemma {:induction false} StrReads(text: string, rest: string)
    ensures ReadValue(Print(Str(text)) + rest) == Some(Reading(Str(text), rest))
  {
    QuoteReads(text, rest);
    assert Print(Str(text)) == Quote(text);
    hide Quote;
    hide ReadString;
  }

  lemma {:induction false} ArrayReads(items: seq<Value>, rest: string)
    requires Plain(Array(items)) && Delimited(rest)
    ensures ReadValue(Print(Array(items)) + rest) == Some(Reading(Array(items), rest))
    decreases items, 4
  {
    var body := Join(PrintItems(items), ",") + "]" + rest;
    var s := Print(Array(items)) + rest;
    assert s == "[" + body;
    assert s[0] == '[' && s[1..] == body;
    if items == [] {
      assert body == "]" + rest;
      assert s[1] == ']' && s[2..] == rest;
    } else {
      ItemsRead(items, rest);
      ItemsStart(items, rest);
      hide Print;
      hide PrintItems;
      hide Join;
      hide ReadItems;
      assert s[1] == body[0];
    }
  }

  lemma {:induction false} ItemsStart(items: seq<Value>, rest: string)
    requires items != [] && Plain(Array(items))
    ensures
      var body := Join(PrintItems(items), ",") + "]" + rest;
      body != "" && body[0] != ']'
  {
    var after := Rest(PrintItems(items)[1..], "]", rest);
    JoinSplit(PrintItems(items), "]", rest);
    assert PrintItems(items)[1..] == PrintItems(items[1..]);
    if items[0] == Undefined {
      assert items[1..] != [] by {
        assert items == [Undefined] + items[1..];
      }
      assert PrintItems(items)[0] + after == after && after[0] == ',';
    } else {
      PrintStart(items[0]);
      assert (PrintItems(items)[0] + after)[0] == Print(items[0])[0];
    }
  }

  lemma {:induction false} ItemReads(v: Value, rest: string)
    requires Plain(v) && Delimited(rest) && rest != "" && rest[0] != '}'
    ensures ReadItem(ItemText(v) + rest) == Some(Reading(v, rest))
    decreases v, 2
  {
    if v == Undefined {
      assert ItemText(v) + rest == rest;
    } else {
      PrintStart(v);
      assert (Print(v) + rest)[0] == Print(v)[0];
      PrintReads(v, rest);
    }
  }

  lemma {:induction false} ItemsRead(items: seq<Value>, rest: string)
    requires items != [] && forall i :: 0 <= i < |items| ==> Plain(items[i])
    ensures ReadItems(Join(PrintItems(items), ",") + "]" + rest) == Some(Reading(items, rest))
    decreases items, 3
  {
    var texts := PrintItems(items);
    JoinSplit(texts, "]", rest);
    assert texts[0] == ItemText(items[0]) && texts[1..] == PrintItems(items[1..]);
    var after := Rest(texts[1..], "]", rest);
    ItemReads(items[0], after);
    if |items| == 1 {
      assert after[1..] == rest && items == [items[0]];
    } else {
      var body := Join(PrintItems(items[1..]), ",") + "]" + rest;
      assert after == "," + body;
      assert after[0] == ',' && after[1..] == body;
      ItemsRead(items[1..], rest);
      assert items == [items[0]] + items[1..];
    }
  }

  lemma {:induction false} MemberReads(e: Entry<Value>, rest: string)
    requires Plain(e.value) && Delimited(rest)
    ensures ReadMember(Quote(e.key) + ":" + Print(e.value) + rest) == Some(Reading(e, rest))
    decreases e, 2
  {
    var after := Print(e.value) + rest;
    QuoteReads(e.key, ":" + after);
    Regroup(Quote(e.key) + ":", Print(e.value), rest);
    Regroup(Quote(e.key), ":", after);
    assert (":" + after)[0] == ':' && (":" + after)[1..] == after;
    PrintReads(e.value, rest);
  }

  lemma {:induction false} MemberTextsSplit(members: seq<Entry<Value>>)
    requires members != []
    ensures
      var texts := MemberTexts(PrintValues(members));
      && texts != []
      && texts[0] == Quote(members[0].key) + ":" + Print(members[0].value)
      && texts[1..] == MemberTexts(PrintValues(members[1..]))
  {
    hide Print;
    hide Quote;
    assert PrintValues(members)[1..] == PrintValues(members[1..]);
  }

  lemma {:induction false} ObjectReads(members: seq<Entry<Value>>, rest: string)
    requires Plain(Object(members)) && Delimited(rest)
    ensures ReadValue(Print(Object(members)) + rest) == Some(Reading(Object(members), rest))
    decreases members, 4
  {
    hide PrintValues;
    hide MemberTexts;
    hide ReadMembers;
    hide ReadItems;
    hide ReadString;
    var texts := MemberTexts(PrintValues(members));
    var body := Join(texts, ",") + "}" + rest;
    var s := Print(Object(members)) + rest;
    assert s == "{" + body;
    assert s[0] == '{' && s[1..] == body;
    if members == [] {
      NoMembers();
      assert body == "}" + rest;
      assert s[1] == '}' && s[2..] == rest;
    } else {
      MembersRead(members, rest);
      MemberTextsSplit(members);
      JoinSplit(texts, "}", rest);
      assert texts[0][0] == '"' && body[0] == '"' && s[1] == body[0];
    }
  }

  lemma {:induction false} NoMembers()
    ensures MemberTexts(PrintValues([])) == []
  {
  }

  lemma {:induction false} MembersRead(members: seq<Entry<Value>>, rest: string)
    requires members != [] && forall i :: 0 <= i < |members| ==> Plain(members[i].value)
    ensures ReadMembers(Join(MemberTexts(PrintValues(members)), ",") + "}" + rest) == Some(Reading(members, rest))
    decreases members, 3
  {
    hide PrintValues;
    hide MemberTexts;
    hide Quote;
    hide Print;
    hide ReadMember;
    var texts := MemberTexts(PrintValues(members));
    MemberTextsSplit(members);
    JoinSplit(texts, "}", rest);
    var after := Rest(texts[1..], "}", rest);
    assert Delimited(after);
    MemberReads(members[0], after);
    if |members| == 1 {
      NoMembers();
      assert members[1..] == [];
      assert after[1..] == rest && members == [members[0]];
    } else {
      MemberTextsSplit(members[1..]);
      var body := Join(texts[1..], ",") + "}" + rest;
      assert after == "," + body;
      assert after[0] == ',' && after[1..] == body;
      MembersRead(members[1..], rest);
      assert members == [members[0]] + members[1..];
    }
  }
}
