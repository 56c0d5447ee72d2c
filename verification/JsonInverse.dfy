/** The printer loses nothing, so a `json.loads` that undoes it exists. */
module JsonInverse {
  import opened Options
  import opened Strings
  import opened JsonText
  import opened PlannerJson
  import opened JsonRecovery

  lemma SameHead(a: string, x: string, y: string)
    requires a + x == a + y
    ensures x == y
  {
    assert (a + x)[|a|..] == x && (a + y)[|a|..] == y;
  }

  /** Nothing that could continue a number follows. */
  predicate EndsNumber(r: string) {
    r == "" || !IsNumberChar(r[0])
  }

  /** How many characters at the front can belong to a number. */
  function NumberRun(t: string): nat {
    if t != "" && IsNumberChar(t[0]) then 1 + NumberRun(t[1..]) else 0
  }

  lemma {:induction false} RunIsWholeNumber(a: string, r: string)
    requires (forall c :: c in a ==> IsNumberChar(c)) && EndsNumber(r)
    ensures NumberRun(a + r) == |a|
  {
    if a == "" {
      assert a + r == r;
    } else {
      assert a[0] in a && forall c :: c in a[1..] ==> c in a;
      assert (a + r)[0] == a[0] && (a + r)[1..] == a[1..] + r;
      RunIsWholeNumber(a[1..], r);
    }
  }

  lemma SameNumber(a: string, b: string, r: string, s: string)
    requires (forall c :: c in a ==> IsNumberChar(c)) && (forall c :: c in b ==> IsNumberChar(c))
    requires EndsNumber(r) && EndsNumber(s) && a + r == b + s
    ensures a == b && r == s
  {
    RunIsWholeNumber(a, r);
    RunIsWholeNumber(b, s);
    assert a == (a + r)[..|a|] && b == (b + s)[..|b|];
    SameHead(a, r, s);
  }

  lemma HexIsInjective(m: nat, n: nat)
    requires m < 16 && n < 16 && HexDigit(m) == HexDigit(n)
    ensures m == n
  {
  }

  /** An escaped character can be read back, and nothing else reads as a closing quote. */
  lemma SameEscape(c: char, d: char, r: string, s: string)
    requires EscapeChar(c) + r == EscapeChar(d) + s
    ensures c == d && r == s
  {
    var x, y := EscapeChar(c), EscapeChar(d);
    assert (x + r)[0] == x[0] && (y + s)[0] == y[0];
    if |x| > 1 && |y| > 1 {
      assert (x + r)[1] == x[1] && (y + s)[1] == y[1];
      if |x| == 6 && |y| == 6 {
        assert (x + r)[4] == x[4] && (y + s)[4] == y[4];
        assert (x + r)[5] == x[5] && (y + s)[5] == y[5];
        HexIsInjective(c as int / 16, d as int / 16);
        HexIsInjective(c as int % 16, d as int % 16);
        assert c as int == d as int;
      }
    }
    assert c == d;
    SameHead(x, r, s);
  }

  /** What follows the opening quote is the closing quote exactly for the empty string. */
  lemma QuoteTellsEmpty(a: string, r: string)
    ensures (EscapeText(a) + ("\"" + r))[0] == '"' <==> a == ""
  {
    if a != "" {
      var e := EscapeChar(a[0]);
      assert EscapeText(a)[0] == e[0] && e[0] != '"';
    }
  }

  lemma {:induction false} SameEscapedText(a: string, b: string, r: string, s: string)
    requires EscapeText(a) + ("\"" + r) == EscapeText(b) + ("\"" + s)
    ensures a == b && r == s
  {
    hide EscapeChar;
    QuoteTellsEmpty(a, r);
    QuoteTellsEmpty(b, s);
    if a == "" {
      assert "" + ("\"" + r) == "\"" + r && "" + ("\"" + s) == "\"" + s;
      SameHead("\"", r, s);
    } else {
      var x, y := EscapeText(a[1..]) + ("\"" + r), EscapeText(b[1..]) + ("\"" + s);
      assert EscapeText(a) + ("\"" + r) == EscapeChar(a[0]) + x;
      assert EscapeText(b) + ("\"" + s) == EscapeChar(b[0]) + y;
      SameEscape(a[0], b[0], x, y);
      SameEscapedText(a[1..], b[1..], r, s);
      SameParts(a, b);
    }
  }

  lemma SameParts(a: string, b: string)
    requires a != "" && b != "" && a[0] == b[0] && a[1..] == b[1..]
    ensures a == b
  {
    assert a == [a[0]] + a[1..] && b == [b[0]] + b[1..];
  }

  lemma SameText(a: string, b: string, r: string, s: string)
    requires PrintText(a) + r == PrintText(b) + s
    ensures a == b && r == s
  {
    hide EscapeText;
    var x, y := EscapeText(a) + ("\"" + r), EscapeText(b) + ("\"" + s);
    assert PrintText(a) + r == "\"" + x && PrintText(b) + s == "\"" + y;
    SameHead("\"", x, y);
    SameEscapedText(a, b, r, s);
  }

  /** The first character of a printed value tells its kind. */
  function KindOf(v: Json): nat {
    match v
    case Null => 0
    case Bool(b) => if b then 1 else 2
    case Number(_) => 3
    case Str(_) => 4
    case Arr(_) => 5
    case Obj(_) => 6
  }

  function KindByChar(c: char): nat {
    if c == 'n' then 0 else if c == 't' then 1 else if c == 'f' then 2 else if IsNumberChar(c) then 3
    else if c == '"' then 4 else if c == '[' then 5 else if c == '{' then 6 else 7
  }

  lemma FirstCharTellsKind(v: Json, l: Layout)
    ensures KindByChar(Print(v, l)[0]) == KindOf(v)
  {
    if v.Number? {
      assert v.lexeme[0] in v.lexeme;
    }
  }

  /** A value printed in front of any text that ends it can be told from every other. */
  lemma {:induction false} SamePrint(u: Json, v: Json, l: Layout, r: string, s: string)
    requires l.Valid() && EndsNumber(r) && EndsNumber(s)
    requires Print(u, l) + r == Print(v, l) + s
    ensures u == v && r == s
    decreases u, 1
  {
    var x, y := Print(u, l), Print(v, l);
    FirstCharTellsKind(u, l);
    FirstCharTellsKind(v, l);
    assert (x + r)[0] == x[0] && (y + s)[0] == y[0];
    match u
    case Null => SameHead(x, r, s);
    case Bool(_) => SameHead(x, r, s);
    case Number(lexeme) => SameNumber(lexeme, v.lexeme, r, s);
    case Str(text) => SameText(text, v.text, r, s);
    case Arr(items) =>
      var a, b := PrintItems(items, l) + ("]" + r), PrintItems(v.items, l) + ("]" + s);
      assert x + r == "[" + a && y + s == "[" + b;
      SameHead("[", a, b);
      SameItems(items, v.items, l, r, s);
    case Obj(members) =>
      var a, b := PrintMembers(members, l) + ("}" + r), PrintMembers(v.members, l) + ("}" + s);
      assert x + r == "{" + a && y + s == "{" + b;
      SameHead("{", a, b);
      SameMembers(members, v.members, l, r, s);
  }

  /** A blank, or nothing, is never the start of a value nor a closing bracket. */
  lemma BlanksStartNothing(l: Layout)
    requires l.Valid()
    ensures forall c :: c in l.open || c in l.comma || c in l.colon || c in l.close ==>
              !IsNumberChar(c) && KindByChar(c) == 7 && c != ']' && c != '}' && c != ','
  {
    forall c | c in l.open || c in l.comma || c in l.colon || c in l.close
      ensures !IsNumberChar(c) && KindByChar(c) == 7 && c != ']' && c != '}' && c != ','
    {
      assert c in l.open + l.comma + l.colon + l.close;
    }
  }

  lemma ItemsStart(items: seq<Json>, l: Layout, r: string)
    requires l.Valid()
    ensures (PrintItems(items, l) + ("]" + r))[0] == ']' <==> items == []
    ensures (PrintMoreItems(items, l) + ("]" + r))[0] == ',' <==> items != []
    ensures EndsNumber(PrintMoreItems(items, l) + ("]" + r))
  {
    BlanksStartNothing(l);
    assert (l.close + ("]" + r))[0] == if l.close == "" then ']' else l.close[0];
    assert (l.close != "" ==> l.close[0] in l.close) && (l.open != "" ==> l.open[0] in l.open);
    if items != [] {
      FirstCharTellsKind(items[0], l);
      var first := Print(items[0], l);
      assert PrintItems(items, l)[0] == if l.open == "" then first[0] else l.open[0];
      assert KindByChar(']') == 7;
    }
  }

  lemma MembersStart(members: seq<Member>, l: Layout, r: string)
    requires l.Valid()
    ensures (PrintMembers(members, l) + ("}" + r))[0] == '}' <==> members == []
    ensures (PrintMoreMembers(members, l) + ("}" + r))[0] == ',' <==> members != []
    ensures EndsNumber(PrintMoreMembers(members, l) + ("}" + r))
  {
    BlanksStartNothing(l);
    assert (l.close + ("}" + r))[0] == if l.close == "" then '}' else l.close[0];
    assert (l.close != "" ==> l.close[0] in l.close) && (l.open != "" ==> l.open[0] in l.open);
    if members != [] {
      var first := PrintMember(members[0], l);
      assert first[0] == '"';
      assert PrintMembers(members, l) == l.open + first + PrintMoreMembers(members[1..], l);
      assert PrintMembers(members, l)[0] == if l.open == "" then first[0] else l.open[0];
    }
  }

  lemma {:induction false} SameItems(us: seq<Json>, vs: seq<Json>, l: Layout, r: string, s: string)
    requires l.Valid() && PrintItems(us, l) + ("]" + r) == PrintItems(vs, l) + ("]" + s)
    ensures us == vs && r == s
    decreases us, 0
  {
    hide Print, PrintMoreItems;
    ItemsStart(us, l, r);
    ItemsStart(vs, l, s);
    if us == [] {
      assert "" + ("]" + r) == "]" + r && "" + ("]" + s) == "]" + s;
      SameHead("]", r, s);
    } else {
      var a, b := PrintMoreItems(us[1..], l) + ("]" + r), PrintMoreItems(vs[1..], l) + ("]" + s);
      assert PrintItems(us, l) + ("]" + r) == l.open + (Print(us[0], l) + a);
      assert PrintItems(vs, l) + ("]" + s) == l.open + (Print(vs[0], l) + b);
      SameHead(l.open, Print(us[0], l) + a, Print(vs[0], l) + b);
      ItemsStart(us[1..], l, r);
      ItemsStart(vs[1..], l, s);
      SamePrint(us[0], vs[0], l, a, b);
      SameMoreItems(us[1..], vs[1..], l, r, s);
    }
  }

  lemma {:induction false} SameMoreItems(us: seq<Json>, vs: seq<Json>, l: Layout, r: string, s: string)
    requires l.Valid() && PrintMoreItems(us, l) + ("]" + r) == PrintMoreItems(vs, l) + ("]" + s)
    ensures us == vs && r == s
    decreases us, 0
  {
    hide Print;
    ItemsStart(us, l, r);
    ItemsStart(vs, l, s);
    if us == [] {
      SameHead(l.close, "]" + r, "]" + s);
      SameHead("]", r, s);
    } else {
      var head := "," + l.comma;
      var a, b := PrintMoreItems(us[1..], l) + ("]" + r), PrintMoreItems(vs[1..], l) + ("]" + s);
      assert PrintMoreItems(us, l) + ("]" + r) == head + (Print(us[0], l) + a);
      assert PrintMoreItems(vs, l) + ("]" + s) == head + (Print(vs[0], l) + b);
      SameHead(head, Print(us[0], l) + a, Print(vs[0], l) + b);
      ItemsStart(us[1..], l, r);
      ItemsStart(vs[1..], l, s);
      SamePrint(us[0], vs[0], l, a, b);
      SameMoreItems(us[1..], vs[1..], l, r, s);
    }
  }

  lemma {:induction false} SameMembers(us: seq<Member>, vs: seq<Member>, l: Layout, r: string, s: string)
    requires l.Valid() && PrintMembers(us, l) + ("}" + r) == PrintMembers(vs, l) + ("}" + s)
    ensures us == vs && r == s
    decreases us, 0
  {
    hide PrintMember, PrintMoreMembers;
    MembersStart(us, l, r);
    MembersStart(vs, l, s);
    if us == [] {
      assert "" + ("}" + r) == "}" + r && "" + ("}" + s) == "}" + s;
      SameHead("}", r, s);
    } else {
      var a, b := PrintMoreMembers(us[1..], l) + ("}" + r), PrintMoreMembers(vs[1..], l) + ("}" + s);
      assert PrintMembers(us, l) + ("}" + r) == l.open + (PrintMember(us[0], l) + a);
      assert PrintMembers(vs, l) + ("}" + s) == l.open + (PrintMember(vs[0], l) + b);
      SameHead(l.open, PrintMember(us[0], l) + a, PrintMember(vs[0], l) + b);
      MembersStart(us[1..], l, r);
      MembersStart(vs[1..], l, s);
      SameMember(us[0], vs[0], l, a, b);
      SameMoreMembers(us[1..], vs[1..], l, r, s);
    }
  }

  lemma {:induction false} SameMoreMembers(us: seq<Member>, vs: seq<Member>, l: Layout, r: string, s: string)
    requires l.Valid() && PrintMoreMembers(us, l) + ("}" + r) == PrintMoreMembers(vs, l) + ("}" + s)
    ensures us == vs && r == s
    decreases us, 0
  {
    hide PrintMember;
    MembersStart(us, l, r);
    MembersStart(vs, l, s);
    if us == [] {
      SameHead(l.close, "}" + r, "}" + s);
      SameHead("}", r, s);
    } else {
      var head := "," + l.comma;
      var a, b := PrintMoreMembers(us[1..], l) + ("}" + r), PrintMoreMembers(vs[1..], l) + ("}" + s);
      assert PrintMoreMembers(us, l) + ("}" + r) == head + (PrintMember(us[0], l) + a);
      assert PrintMoreMembers(vs, l) + ("}" + s) == head + (PrintMember(vs[0], l) + b);
      SameHead(head, PrintMember(us[0], l) + a, PrintMember(vs[0], l) + b);
      MembersStart(us[1..], l, r);
      MembersStart(vs[1..], l, s);
      SameMember(us[0], vs[0], l, a, b);
      SameMoreMembers(us[1..], vs[1..], l, r, s);
    }
  }

  lemma {:induction false} SameMember(m: Member, n: Member, l: Layout, r: string, s: string)
    requires l.Valid() && EndsNumber(r) && EndsNumber(s)
    requires PrintMember(m, l) + r == PrintMember(n, l) + s
    ensures m == n && r == s
    decreases m, 0
  {
    hide Print, PrintText, EndsNumber;
    var head := ":" + l.colon;
    var a, b := head + (Print(m.value, l) + r), head + (Print(n.value, l) + s);
    assert PrintMember(m, l) + r == PrintText(m.key) + a;
    assert PrintMember(n, l) + s == PrintText(n.key) + b;
    SameText(m.key, n.key, a, b);
    SameHead(head, Print(m.value, l) + r, Print(n.value, l) + s);
    SamePrint(m.value, n.value, l, r, s);
  }

  /** Different values have different texts. */
  lemma PrintIsInjective(u: Json, v: Json, l: Layout)
    requires l.Valid() && Print(u, l) == Print(v, l)
    ensures u == v
  {
    assert Print(u, l) + "" == Print(u, l) && Print(v, l) + "" == Print(v, l);
    SamePrint(u, v, l, "", "");
  }

  /** The text is what the printer writes for some value that JSON can express. */
  ghost predicate IsPrinted(text: string, l: Layout) {
    exists v :: WellFormed(v) && Print(v, l) == text
  }

  /** Malformed numbers and repeated keys have texts that no well-formed value has. */
  lemma OnlyWellFormedIsPrinted(v: Json, l: Layout)
    requires l.Valid()
    ensures IsPrinted(Print(v, l), l) <==> WellFormed(v)
  {
    if IsPrinted(Print(v, l), l) {
      var u :| WellFormed(u) && Print(u, l) == Print(v, l);
      PrintIsInjective(u, v, l);
    }
  }

  ghost function Unprint(text: string, l: Layout): Json
    requires IsPrinted(text, l)
    ensures WellFormed(Unprint(text, l)) && Print(Unprint(text, l), l) == text
  {
    var v :| WellFormed(v) && Print(v, l) == text;
    v
  }

  /**
   A parser that undoes the printer exists, and that it does so leaves it free on every other text:
   whatever `elsewhere` answers there, such as refusing "+-" or keeping the last of two equal keys.
   */
  lemma PrinterHasAnInverse(l: Layout, elsewhere: Loads) returns (loads: Loads)
    requires l.Valid()
    ensures InvertsPrinter(loads, l)
    ensures forall text :: !IsPrinted(text, l) ==> loads(text) == elsewhere(text)
  {
    loads := text => if IsPrinted(text, l) then Some(Unprint(text, l)) else elsewhere(text);
    forall v | WellFormed(v)
      ensures loads(Print(v, l)) == Some(v)
    {
      OnlyWellFormedIsPrinted(v, l);
      PrintIsInjective(Unprint(Print(v, l), l), v, l);
    }
  }

  /** The texts of a malformed number and of an object with a repeated key are such texts. */
  lemma MalformedIsFree(l: Layout)
    requires l.Valid()
    ensures !IsPrinted("+-", l)
    ensures forall value :: !IsPrinted(Print(Obj([Member("a", value), Member("a", value)]), l), l)
  {
    var sign: Json := Number("+-");
    OnlyWellFormedIsPrinted(sign, l);
    forall value
      ensures !IsPrinted(Print(Obj([Member("a", value), Member("a", value)]), l), l)
    {
      var members := [Member("a", value), Member("a", value)];
      assert members[0].key == members[1].key;
      OnlyWellFormedIsPrinted(Obj(members), l);
    }
  }
}
