/** `canonicalJson`: the key-sorted printer under the audit hash, and why it is unambiguous. */
module CanonicalJson {
  import opened Strings
  import opened KeySort

  // A JavaScript value as the printer meets it. A finite number is identified with the
  // numeral `JSON.stringify` writes for it; `NonFinite` stands for NaN and the infinities.
  // An object keeps its members in insertion order.
  datatype Value =
    | Undefined
    | Null
    | Bool(b: bool)
    | Number(numeral: string)
    | NonFinite
    | Str(text: string)
    | Array(items: seq<Value>)
    | Object(members: seq<Entry<Value>>)

  predicate NumeralChar(c: char) {
    '0' <= c <= '9' || c == '-' || c == '+' || c == '.' || c == 'e'
  }

  predicate IsNumeral(s: string) {
    s != "" && forall i :: 0 <= i < |s| ==> NumeralChar(s[i])
  }

  // What every value built by the language satisfies: numerals and distinct keys.
  ghost predicate WellFormed(v: Value) {
    match v
    case Number(numeral) => IsNumeral(numeral)
    case Array(items) => forall i :: 0 <= i < |items| ==> WellFormed(items[i])
    case Object(members) =>
      DistinctKeys(members) && forall i :: 0 <= i < |members| ==> WellFormed(members[i].value)
    case _ => true
  }

  // The values JSON can express.
  ghost predicate IsJson(v: Value) {
    match v
    case Undefined => false
    case NonFinite => false
    case Array(items) => forall i :: 0 <= i < |items| ==> IsJson(items[i])
    case Object(members) => forall i :: 0 <= i < |members| ==> IsJson(members[i].value)
    case _ => true
  }

  // ---------------------------------------------------------------------------
  // The printer
  // ---------------------------------------------------------------------------

  function HexDigit(n: nat): char
    requires n < 16
  {
    "0123456789abcdef"[n]
  }

  // Section 7 of RFC 8259, with the short escapes `JSON.stringify` prefers.
  function EscapeChar(c: char): string {
    if c == '"' then "\\\""
    else if c == '\\' then "\\\\"
    else if c == '\U{08}' then "\\b"
    else if c == '\U{0C}' then "\\f"
    else if c == '\n' then "\\n"
    else if c == '\r' then "\\r"
    else if c == '\t' then "\\t"
    else if c < ' ' then "\\u00" + [HexDigit(c as nat / 16), HexDigit(c as nat % 16)]
    else [c]
  }

  function Escape(s: string): string {
    if s == "" then "" else EscapeChar(s[0]) + Escape(s[1..])
  }

  function Quote(s: string): string {
    "\"" + Escape(s) + "\""
  }

  function Canonical(v: Value): string {
    match v
    case Undefined => "undefined"
    case Null => "null"
    case Bool(b) => if b then "true" else "false"
    case Number(numeral) => numeral
    case NonFinite => "null"
    case Str(text) => Quote(text)
    case Array(items) => "[" + Join(ItemTexts(items), ",") + "]"
    case Object(members) => "{" + Join(MemberTexts(Sort(ValueTexts(members))), ",") + "}"
  }

  // `Array.prototype.join` writes nothing for an undefined element.
  function ItemTexts(items: seq<Value>): seq<string> {
    if items == [] then []
    else [if items[0] == Undefined then "" else Canonical(items[0])] + ItemTexts(items[1..])
  }

  function ValueTexts(members: seq<Entry<Value>>): seq<Entry<string>> {
    if members == [] then []
    else [Entry(members[0].key, Canonical(members[0].value))] + ValueTexts(members[1..])
  }

  function MemberTexts(entries: seq<Entry<string>>): seq<string> {
    if entries == [] then []
    else [Quote(entries[0].key) + ":" + entries[0].value] + MemberTexts(entries[1..])
  }

  // ---------------------------------------------------------------------------
  // Normal form: keys sorted at every depth, invisible differences removed
  // ---------------------------------------------------------------------------

  function Normal(v: Value): Value {
    match v
    case NonFinite => Null
    case Array(items) => if items == [Undefined] then Array([]) else Array(NormalItems(items))
    case Object(members) => Object(Sort(NormalMembers(members)))
    case _ => v
  }

  function NormalItems(items: seq<Value>): (r: seq<Value>)
    ensures |r| == |items|
    ensures forall i :: 0 <= i < |r| ==> r[i] == Normal(items[i])
  {
    if items == [] then [] else [Normal(items[0])] + NormalItems(items[1..])
  }

  function NormalMembers(members: seq<Entry<Value>>): (r: seq<Entry<Value>>)
    ensures |r| == |members|
    ensures forall i :: 0 <= i < |r| ==> r[i] == Entry(members[i].key, Normal(members[i].value))
  {
    if members == [] then [] else [Entry(members[0].key, Normal(members[0].value))] + NormalMembers(members[1..])
  }

  // Printing a normal form needs no sorting.
  function Print(v: Value): string
    decreases v, 0
  {
    match v
    case Array(items) => "[" + Join(PrintItems(items), ",") + "]"
    case Object(members) => "{" + Join(MemberTexts(PrintValues(members)), ",") + "}"
    case _ => Canonical(v)
  }

  function ItemText(v: Value): string
    decreases v, 1
  {
    if v == Undefined then "" else Print(v)
  }

  function PrintItems(items: seq<Value>): seq<string>
    decreases items, 2
  {
    if items == [] then [] else [ItemText(items[0])] + PrintItems(items[1..])
  }

  function PrintValues(members: seq<Entry<Value>>): seq<Entry<string>> {
    if members == [] then [] else [Entry(members[0].key, Print(members[0].value))] + PrintValues(members[1..])
  }

  lemma {:induction false} PrintValuesInsert(e: Entry<Value>, sorted: seq<Entry<Value>>)
    ensures PrintValues(Insert(e, sorted)) == Insert(Entry(e.key, Print(e.value)), PrintValues(sorted))
  {
    if sorted == [] {
    } else if Less(sorted[0].key, e.key) {
      PrintValuesInsert(e, sorted[1..]);
      assert Insert(e, sorted)[1..] == Insert(e, sorted[1..]);
      assert PrintValues(sorted)[1..] == PrintValues(sorted[1..]);
    } else {
      assert Insert(e, sorted)[1..] == sorted;
    }
  }

  lemma {:induction false} PrintValuesSort(members: seq<Entry<Value>>)
    ensures PrintValues(Sort(members)) == Sort(PrintValues(members))
  {
    if members != [] {
      PrintValuesSort(members[1..]);
      PrintValuesInsert(members[0], Sort(members[1..]));
      assert PrintValues(members)[1..] == PrintValues(members[1..]);
    }
  }

  lemma {:induction false} CanonicalPrintsNormal(v: Value)
    ensures Canonical(v) == Print(Normal(v))
    decreases v, 1
  {
    match v
    case Array(items) =>
      ItemTextsNormal(items);
      if items == [Undefined] {
        assert ItemTexts(items) == [""];
      }
    case Object(members) =>
      ValueTextsNormal(members);
      PrintValuesSort(NormalMembers(members));
    case _ =>
  }

  lemma {:induction false} ItemTextsNormal(items: seq<Value>)
    ensures ItemTexts(items) == PrintItems(NormalItems(items))
    decreases items, 0
  {
    if items != [] {
      CanonicalPrintsNormal(items[0]);
      ItemTextsNormal(items[1..]);
      assert NormalItems(items)[1..] == NormalItems(items[1..]);
    }
  }

  lemma {:induction false} ValueTextsNormal(members: seq<Entry<Value>>)
    ensures ValueTexts(members) == PrintValues(NormalMembers(members))
    decreases members, 0
  {
    if members != [] {
      CanonicalPrintsNormal(members[0].value);
      ValueTextsNormal(members[1..]);
      assert NormalMembers(members)[1..] == NormalMembers(members[1..]);
    }
  }
}
