/** The bracket scanner of `planner_json_utils` and what it makes of printed JSON. */
module JsonScan {
  import opened Options
  import opened Strings
  import opened JsonText

  /** Depth of the counted bracket, and where we are in a string literal. */
  datatype Scan = Scan(depth: int, inString: bool, escape: bool)

  /** The bracket pair that is counted. */
  datatype Pair = Pair(open: char, close: char)

  const BRACKETS := Pair('[', ']')
  const BRACES := Pair('{', '}')

  function Next(st: Scan, c: char, p: Pair): Scan {
    if st.inString then
      if st.escape then st.(escape := false)
      else if c == '\\' then st.(escape := true)
      else if c == '"' then st.(inString := false)
      else st
    else if c == '"' then st.(inString := true)
    else if c == p.open then st.(depth := st.depth + 1)
    else if c == p.close then st.(depth := st.depth - 1)
    else st
  }

  /** The character closes the bracket the scan started at. */
  predicate Closes(st: Scan, c: char, p: Pair) {
    !st.inString && c != '"' && c != p.open && c == p.close && st.depth - 1 == 0
  }

  /** How many characters the scan takes up to and including the closing bracket. */
  function End(s: string, st: Scan, p: Pair): (r: Option<nat>)
    ensures r.Some? ==> 0 < r.value <= |s|
  {
    if s == "" then None
    else if Closes(st, s[0], p) then Some(1)
    else
      var later := End(s[1..], Next(st, s[0], p), p);
      if later.None? then None else Some(later.value + 1)
  }

  function After(s: string, st: Scan, p: Pair): Scan {
    if s == "" then st else After(s[1..], Next(st, s[0], p), p)
  }

  predicate StaysOpen(s: string, st: Scan, p: Pair) {
    s == "" || (!Closes(st, s[0], p) && StaysOpen(s[1..], Next(st, s[0], p), p))
  }

  lemma {:induction false} AfterJoins(a: string, b: string, st: Scan, p: Pair)
    ensures After(a + b, st, p) == After(b, After(a, st, p), p)
    ensures StaysOpen(a + b, st, p) <==> StaysOpen(a, st, p) && StaysOpen(b, After(a, st, p), p)
  {
    if a == "" {
      assert a + b == b;
    } else {
      assert (a + b)[1..] == a[1..] + b;
      AfterJoins(a[1..], b, Next(st, a[0], p), p);
    }
  }

  /** While a text stays open the scan goes on behind it. */
  lemma {:induction false} EndPasses(a: string, b: string, st: Scan, p: Pair)
    requires StaysOpen(a, st, p)
    ensures var rest := End(b, After(a, st, p), p);
            End(a + b, st, p) == if rest.None? then None else Some(|a| + rest.value)
  {
    if a == "" {
      assert a + b == b;
    } else {
      assert (a + b)[1..] == a[1..] + b;
      EndPasses(a[1..], b, Next(st, a[0], p), p);
    }
  }

  lemma StaysOpenHasNoEnd(a: string, st: Scan, p: Pair)
    requires StaysOpen(a, st, p)
    ensures End(a, st, p) == None
  {
    EndPasses(a, "", st, p);
    assert a + "" == a;
  }

  // ---------- printed values leave the scan as they found it ----------

  function Outside(depth: int): Scan {
    Scan(depth, false, false)
  }

  function Inside(depth: int): Scan {
    Scan(depth, true, false)
  }

  predicate IsPair(p: Pair) {
    p == BRACKETS || p == BRACES
  }

  /** Read at any depth of at least one, the text closes nothing and ends at the same depth. */
  ghost predicate Neutral(s: string, p: Pair) {
    forall d :: d >= 1 ==> StaysOpen(s, Outside(d), p) && After(s, Outside(d), p) == Outside(d)
  }

  lemma NeutralJoins(a: string, b: string, p: Pair)
    requires Neutral(a, p) && Neutral(b, p)
    ensures Neutral(a + b, p)
  {
    forall d | d >= 1
      ensures StaysOpen(a + b, Outside(d), p) && After(a + b, Outside(d), p) == Outside(d)
    {
      AfterJoins(a, b, Outside(d), p);
    }
  }

  predicate IsPlain(c: char) {
    c !in "\"[]{}"
  }

  lemma {:induction false} PlainIsNeutral(s: string, p: Pair)
    requires IsPair(p) && forall c :: c in s ==> IsPlain(c)
    ensures Neutral(s, p)
  {
    if s != "" {
      assert s[0] in s && forall c :: c in s[1..] ==> c in s;
      PlainIsNeutral(s[1..], p);
      forall d | d >= 1
        ensures StaysOpen(s, Outside(d), p) && After(s, Outside(d), p) == Outside(d)
      {
        assert Next(Outside(d), s[0], p) == Outside(d);
      }
    }
  }

  /** Inside a literal an escaped character changes nothing, quotes and brackets included. */
  lemma EscapedCharStaysInside(c: char, d: int, p: Pair)
    ensures StaysOpen(EscapeChar(c), Inside(d), p) && After(EscapeChar(c), Inside(d), p) == Inside(d)
  {
    var e := EscapeChar(c);
    if |e| == 1 {
      assert e == [c];
      assert Next(Inside(d), c, p) == Inside(d);
    } else if |e| == 2 {
      assert e == [e[0]] + [e[1]] && e[0] == '\\';
      AfterJoins([e[0]], [e[1]], Inside(d), p);
      assert Next(Next(Inside(d), e[0], p), e[1], p) == Inside(d);
    } else {
      HexIsPlain(c as int / 16);
      HexIsPlain(c as int % 16);
      assert e[..2] == ['\\', 'u'] && e[2..] == ['0', '0', e[4], e[5]] && e == e[..2] + e[2..];
      TailStaysInside(e[2..], d, p);
      assert Next(Next(Inside(d), '\\', p), 'u', p) == Inside(d);
    }
  }

  lemma HexIsPlain(n: nat)
    requires n < 16
    ensures HexDigit(n) != '\\' && HexDigit(n) != '"'
  {
    assert HexDigit(n) in "0123456789abcdef";
  }

  lemma TailStaysInside(s: string, d: int, p: Pair)
    requires '\\' !in s && '"' !in s
    ensures StaysOpen(s, Inside(d), p) && After(s, Inside(d), p) == Inside(d)
  {
    if s != "" {
      assert s[0] in s && forall c :: c in s[1..] ==> c in s;
      TailStaysInside(s[1..], d, p);
    }
  }

  lemma {:induction false} EscapedTextStaysInside(s: string, d: int, p: Pair)
    ensures StaysOpen(EscapeText(s), Inside(d), p) && After(EscapeText(s), Inside(d), p) == Inside(d)
  {
    if s != "" {
      EscapedCharStaysInside(s[0], d, p);
      EscapedTextStaysInside(s[1..], d, p);
      AfterJoins(EscapeChar(s[0]), EscapeText(s[1..]), Inside(d), p);
    }
  }

  lemma TextIsNeutral(s: string, p: Pair)
    requires IsPair(p)
    ensures Neutral(PrintText(s), p)
  {
    forall d | d >= 1
      ensures StaysOpen(PrintText(s), Outside(d), p) && After(PrintText(s), Outside(d), p) == Outside(d)
    {
      EscapedTextStaysInside(s, d, p);
      AfterJoins("\"" + EscapeText(s), "\"", Outside(d), p);
      AfterJoins("\"", EscapeText(s), Outside(d), p);
      assert Next(Outside(d), '"', p) == Inside(d) && Next(Inside(d), '"', p) == Outside(d);
    }
  }

  /** Brackets of either kind around a neutral text. */
  lemma BracketedIsNeutral(open: char, s: string, close: char, p: Pair)
    requires IsPair(p) && IsPair(Pair(open, close)) && Neutral(s, p)
    ensures Neutral([open] + s + [close], p)
  {
    forall d | d >= 1
      ensures StaysOpen([open] + s + [close], Outside(d), p)
      ensures After([open] + s + [close], Outside(d), p) == Outside(d)
    {
      var inner := if p.open == open then d + 1 else d;
      AfterJoins([open] + s, [close], Outside(d), p);
      AfterJoins([open], s, Outside(d), p);
      assert After([open], Outside(d), p) == Outside(inner);
      assert After([close], Outside(inner), p) == Outside(d);
    }
  }

  lemma BlanksArePlain(l: Layout)
    requires l.Valid()
    ensures forall c :: c in l.open || c in l.comma || c in l.colon || c in l.close ==> IsPlain(c)
  {
    forall c | c in l.open || c in l.comma || c in l.colon || c in l.close
      ensures c in l.open + l.comma + l.colon + l.close
    {
    }
  }

  lemma BlanksAreNeutral(l: Layout, p: Pair)
    requires l.Valid() && IsPair(p)
    ensures Neutral(l.open, p) && Neutral(l.comma, p) && Neutral(l.colon, p) && Neutral(l.close, p)
    ensures Neutral(",", p) && Neutral(":", p) && Neutral("", p)
  {
    hide Neutral;
    BlanksArePlain(l);
    PlainIsNeutral(l.open, p);
    PlainIsNeutral(l.comma, p);
    PlainIsNeutral(l.colon, p);
    PlainIsNeutral(l.close, p);
    PlainIsNeutral(",", p);
    PlainIsNeutral(":", p);
    PlainIsNeutral("", p);
  }

  lemma {:induction false} PrintIsNeutral(v: Json, l: Layout, p: Pair)
    requires l.Valid() && IsPair(p)
    ensures Neutral(Print(v, l), p)
    decreases v, 1
  {
    hide Neutral, PrintItems, PrintMembers, PrintText;
    match v
    case Null => PlainIsNeutral("null", p);
    case Bool(b) => PlainIsNeutral(Print(v, l), p);
    case Number(lexeme) => PlainIsNeutral(lexeme, p);
    case Str(s) => TextIsNeutral(s, p);
    case Arr(items) =>
      ItemsAreNeutral(items, l, p);
      BracketedIsNeutral('[', PrintItems(items, l), ']', p);
    case Obj(members) =>
      MembersAreNeutral(members, l, p);
      BracketedIsNeutral('{', PrintMembers(members, l), '}', p);
  }

  lemma {:induction false} ItemsAreNeutral(items: seq<Json>, l: Layout, p: Pair)
    requires l.Valid() && IsPair(p)
    ensures Neutral(PrintItems(items, l), p)
    decreases items, 0
  {
    BlanksAreNeutral(l, p);
    if items != [] {
      PrintIsNeutral(items[0], l, p);
      MoreItemsAreNeutral(items[1..], l, p);
      NeutralJoins(l.open, Print(items[0], l), p);
      NeutralJoins(l.open + Print(items[0], l), PrintMoreItems(items[1..], l), p);
    }
  }

  lemma {:induction false} MoreItemsAreNeutral(items: seq<Json>, l: Layout, p: Pair)
    requires l.Valid() && IsPair(p)
    ensures Neutral(PrintMoreItems(items, l), p)
    decreases items, 0
  {
    BlanksAreNeutral(l, p);
    if items != [] {
      PrintIsNeutral(items[0], l, p);
      MoreItemsAreNeutral(items[1..], l, p);
      NeutralJoins(",", l.comma, p);
      NeutralJoins("," + l.comma, Print(items[0], l), p);
      NeutralJoins("," + l.comma + Print(items[0], l), PrintMoreItems(items[1..], l), p);
    }
  }

  lemma {:induction false} MembersAreNeutral(members: seq<Member>, l: Layout, p: Pair)
    requires l.Valid() && IsPair(p)
    ensures Neutral(PrintMembers(members, l), p)
    decreases members, 0
  {
    BlanksAreNeutral(l, p);
    if members != [] {
      MemberIsNeutral(members[0], l, p);
      MoreMembersAreNeutral(members[1..], l, p);
      NeutralJoins(l.open, PrintMember(members[0], l), p);
      NeutralJoins(l.open + PrintMember(members[0], l), PrintMoreMembers(members[1..], l), p);
    }
  }

  lemma {:induction false} MoreMembersAreNeutral(members: seq<Member>, l: Layout, p: Pair)
    requires l.Valid() && IsPair(p)
    ensures Neutral(PrintMoreMembers(members, l), p)
    decreases members, 0
  {
    BlanksAreNeutral(l, p);
    if members != [] {
      MemberIsNeutral(members[0], l, p);
      MoreMembersAreNeutral(members[1..], l, p);
      NeutralJoins(",", l.comma, p);
      NeutralJoins("," + l.comma, PrintMember(members[0], l), p);
      NeutralJoins("," + l.comma + PrintMember(members[0], l), PrintMoreMembers(members[1..], l), p);
    }
  }

  lemma {:induction false} MemberIsNeutral(m: Member, l: Layout, p: Pair)
    requires l.Valid() && IsPair(p)
    ensures Neutral(PrintMember(m, l), p)
    decreases m, 0
  {
    BlanksAreNeutral(l, p);
    TextIsNeutral(m.key, p);
    PrintIsNeutral(m.value, l, p);
    NeutralJoins(PrintText(m.key), ":", p);
    NeutralJoins(PrintText(m.key) + ":", l.colon, p);
    NeutralJoins(PrintText(m.key) + ":" + l.colon, Print(m.value, l), p);
  }

  // ---------- a bracketed text is found whole, and not at all when it is cut ----------

  /** The scan that starts at a bracket ends at its partner, whatever follows. */
  lemma BracketedEnds(p: Pair, s: string, rest: string)
    requires IsPair(p) && Neutral(s, p)
    ensures End([p.open] + s + [p.close] + rest, Outside(0), p) == Some(|s| + 2)
  {
    var head := [p.open] + s;
    AfterJoins([p.open], s, Outside(0), p);
    assert After([p.open], Outside(0), p) == Outside(1);
    EndPasses(head, [p.close] + rest, Outside(0), p);
    assert head + ([p.close] + rest) == [p.open] + s + [p.close] + rest;
  }

  lemma CutBracketHasNoEnd(p: Pair, s: string, cut: nat)
    requires IsPair(p) && Neutral(s, p) && cut <= |s| + 1
    ensures End(([p.open] + s + [p.close])[..cut], Outside(0), p) == None
  {
    var head := [p.open] + s;
    assert (head + [p.close])[..cut] == head[..cut] && head == head[..cut] + head[cut..];
    AfterJoins([p.open], s, Outside(0), p);
    assert After([p.open], Outside(0), p) == Outside(1);
    AfterJoins(head[..cut], head[cut..], Outside(0), p);
    StaysOpenHasNoEnd(head[..cut], Outside(0), p);
  }
}
