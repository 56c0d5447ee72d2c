/** JSON values and the text a printer writes for them. */
module JsonText {
  import opened Strings

  predicate IsNumberChar(c: char) {
    '0' <= c <= '9' || c in "+-.eE"
  }

  /** A number as written; which of these are numbers `IsNumeral` tells. */
  type Lexeme = s: string | s != "" && forall c :: c in s ==> IsNumberChar(c) witness "0"

  datatype Json =
    | Null
    | Bool(value: bool)
    | Number(lexeme: Lexeme)
    | Str(text: string)
    | Arr(items: seq<Json>)
    | Obj(members: seq<Member>)

  datatype Member = Member(key: string, value: Json)

  // ---------- the values JSON can express ----------

  predicate IsDigit(c: char) {
    '0' <= c <= '9'
  }

  function SkipDigits(s: string): (r: string)
    ensures |r| <= |s|
  {
    if s != "" && IsDigit(s[0]) then SkipDigits(s[1..]) else s
  }

  /** An optional exponent: "e", an optional sign and digits, up to the end. */
  predicate IsExponent(s: string) {
    s == "" ||
    (s[0] in "eE" &&
     var digits := if |s| > 1 && s[1] in "+-" then s[2..] else s[1..];
     digits != "" && SkipDigits(digits) == "")
  }

  /** An optional fraction, then the exponent. */
  predicate IsFraction(s: string) {
    if s != "" && s[0] == '.' then |s| > 1 && IsDigit(s[1]) && IsExponent(SkipDigits(s[1..])) else IsExponent(s)
  }

  /** A number in the grammar of RFC 8259, section 6. */
  predicate IsNumeral(s: string) {
    var digits := if s != "" && s[0] == '-' then s[1..] else s;
    digits != "" && IsDigit(digits[0]) && IsFraction(if digits[0] == '0' then digits[1..] else SkipDigits(digits))
  }

  predicate DistinctKeys(members: seq<Member>) {
    forall i, j :: 0 <= i < j < |members| ==> members[i].key != members[j].key
  }

  /** Every number is a numeral, and no object names a key twice, as in a printed Python value. */
  predicate WellFormed(v: Json) {
    match v
    case Number(lexeme) => IsNumeral(lexeme)
    case Arr(items) => forall i :: 0 <= i < |items| ==> WellFormed(items[i])
    case Obj(members) => DistinctKeys(members) && forall i :: 0 <= i < |members| ==> WellFormed(members[i].value)
    case _ => true
  }

  /** The blanks a printer puts after brackets, commas and colons. */
  datatype Layout = Layout(open: string, comma: string, colon: string, close: string) {
    predicate Valid() {
      forall c :: c in open + comma + colon + close ==> c in " \t\n\r"
    }
  }

  function HexDigit(n: nat): char
    requires n < 16
  {
    "0123456789abcdef"[n]
  }

  /** `json.dumps(..., ensure_ascii=False)` on one character of a string. */
  function EscapeChar(c: char): string {
    if c == '"' then "\\\""
    else if c == '\\' then "\\\\"
    else if c == '\n' then "\\n"
    else if c == '\r' then "\\r"
    else if c == '\t' then "\\t"
    else if (c as int) < 0x20 then "\\u00" + [HexDigit(c as int / 16), HexDigit(c as int % 16)]
    else [c]
  }

  function EscapeText(s: string): string {
    if s == "" then "" else EscapeChar(s[0]) + EscapeText(s[1..])
  }

  function PrintText(s: string): string {
    "\"" + EscapeText(s) + "\""
  }

  function Print(v: Json, l: Layout): (text: string)
    ensures text != ""
    decreases v, 1
  {
    match v
    case Null => "null"
    case Bool(b) => if b then "true" else "false"
    case Number(lexeme) => lexeme
    case Str(s) => PrintText(s)
    case Arr(items) => "[" + PrintItems(items, l) + "]"
    case Obj(members) => "{" + PrintMembers(members, l) + "}"
  }

  /** The inside of an array: blanks, the items with commas between them, blanks. */
  function PrintItems(items: seq<Json>, l: Layout): string
    decreases items, 0
  {
    if items == [] then "" else l.open + Print(items[0], l) + PrintMoreItems(items[1..], l)
  }

  function PrintMoreItems(items: seq<Json>, l: Layout): string
    decreases items, 0
  {
    if items == [] then l.close else "," + l.comma + Print(items[0], l) + PrintMoreItems(items[1..], l)
  }

  function PrintMembers(members: seq<Member>, l: Layout): string
    decreases members, 0
  {
    if members == [] then "" else l.open + PrintMember(members[0], l) + PrintMoreMembers(members[1..], l)
  }

  function PrintMoreMembers(members: seq<Member>, l: Layout): string
    decreases members, 0
  {
    if members == [] then l.close
    else "," + l.comma + PrintMember(members[0], l) + PrintMoreMembers(members[1..], l)
  }

  function PrintMember(m: Member, l: Layout): string
    decreases m, 0
  {
    PrintText(m.key) + ":" + l.colon + Print(m.value, l)
  }
}
