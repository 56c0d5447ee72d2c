/**
 Arrays that `json.loads` rejects although their brackets are balanced: a trailing comma, a comment, an
 object that is no JSON. What can be read in front of the fault still comes back.
 */
module JsonRejection {
  import opened Options
  import opened Strings
  import opened JsonText
  import opened JsonScan
  import opened PlannerJson
  import opened JsonRecovery
  import opened JsonTruncation

  /** `json.loads` does not make a list of the text. */
  predicate Rejects(loads: Loads, text: string) {
    loads(text).None? || !loads(text).value.Arr?
  }

  /** Printed values with commas between them. */
  function Body(values: seq<Json>, l: Layout): string {
    if values == [] then ""
    else if |values| == 1 then Print(values[0], l)
    else Print(values[0], l) + "," + l.comma + Body(values[1..], l)
  }

  /** What recovery reads behind a complete object: whatever follows the next comma. */
  function BehindComma(tail: string, loads: Loads): seq<Json> {
    var comma := Find(tail, ',');
    if comma.None? then [] else Recovered(tail[comma.value + 1..], loads)
  }

  lemma RecoversOneAnd(obj: Json, l: Layout, tail: string, loads: Loads)
    requires l.Valid() && obj.Obj? && loads(Print(obj, l)) == Some(obj)
    ensures Recovered(Print(obj, l) + tail, loads) == [obj] + BehindComma(tail, loads)
  {
    hide *;
    FirstObjectWhole(obj, l, tail, loads);
    RecoveredUnfolds(Print(obj, l) + tail, loads);
    BehindCommaUnfolds(tail, loads);
    assert [obj] + [] == [obj];
  }

  lemma BehindCommaUnfolds(tail: string, loads: Loads)
    ensures Find(tail, ',').None? ==> BehindComma(tail, loads) == []
    ensures Find(tail, ',').Some? ==> BehindComma(tail, loads) == Recovered(tail[Find(tail, ',').value + 1..], loads)
  {
    hide Recovered, Find;
  }

  lemma CommaFirst(blanks: string, rest: string, loads: Loads)
    requires '{' !in blanks
    ensures BehindComma("," + blanks + rest, loads) == Recovered(rest, loads)
  {
    var text := "," + blanks + rest;
    assert text == "," + (blanks + rest) && text[1..] == blanks + rest;
    RecoveredSkips(blanks, rest, loads);
    hide Recovered;
    assert Find(text, ',') == Some(0);
  }

  /** Complete objects are read one by one, and then whatever follows the next comma. */
  lemma {:induction false} BodyIsRecovered(objs: seq<Json>, l: Layout, tail: string, loads: Loads)
    requires l.Valid() && objs != [] && AllObjects(objs) && ReadsBack(loads, l, objs)
    ensures Recovered(Body(objs, l) + tail, loads) == objs + BehindComma(tail, loads)
  {
    hide *;
    FirstIsReadBack(loads, l, objs);
    BodyUnfolds(objs, l, tail);
    var rest := objs[1..];
    if rest == [] {
      RecoversOneAnd(objs[0], l, tail, loads);
      assert objs == [objs[0]];
    } else {
      BlanksHaveNo(l);
      AllObjectsTail(objs);
      ReadsBackTail(loads, l, objs);
      BodyIsRecovered(rest, l, tail, loads);
      RecoversOneAnd(objs[0], l, "," + l.comma + (Body(rest, l) + tail), loads);
      CommaFirst(l.comma, Body(rest, l) + tail, loads);
      FirstAndRest(objs, BehindComma(tail, loads));
    }
  }

  lemma BodyUnfolds(objs: seq<Json>, l: Layout, tail: string)
    requires objs != []
    ensures objs[1..] == [] ==> Body(objs, l) + tail == Print(objs[0], l) + tail
    ensures objs[1..] != [] ==>
              Body(objs, l) + tail == Print(objs[0], l) + ("," + l.comma + (Body(objs[1..], l) + tail))
  {
    BodyOfMore(objs, l);
    hide *;
    if objs[1..] != [] {
      Regrouped(Print(objs[0], l), ",", l.comma, Body(objs[1..], l), tail);
    }
  }

  lemma BodyOfMore(objs: seq<Json>, l: Layout)
    requires objs != []
    ensures objs[1..] == [] ==> Body(objs, l) == Print(objs[0], l)
    ensures objs[1..] != [] ==> Body(objs, l) == Print(objs[0], l) + "," + l.comma + Body(objs[1..], l)
  {
    hide Print;
  }

  lemma Regrouped(a: string, b: string, c: string, d: string, tail: string)
    ensures a + b + c + d + tail == a + (b + c + (d + tail))
  {
  }

  lemma FirstAndRest<T>(s: seq<T>, t: seq<T>)
    requires s != []
    ensures [s[0]] + (s[1..] + t) == s + t
  {
  }

  /** Nothing is read behind the last object of a text without another brace. */
  lemma NothingBehind(tail: string, loads: Loads)
    requires '{' !in tail
    ensures BehindComma(tail, loads) == []
  {
    var comma := Find(tail, ',');
    if comma.Some? {
      assert forall c :: c in tail[comma.value + 1..] ==> c in tail;
      RecoveredFromBlanks(tail[comma.value + 1..], loads);
    }
  }

  // ---------- the reply as a whole ----------

  /** When its bracketed text is rejected, a reply is what recovery makes of it. */
  lemma RejectedIsRecovered(prose: string, x: string, loads: Loads)
    requires '[' !in prose && NoFence(prose + x) && x != "" && x[0] == '['
    requires Rejects(loads, Balanced(TrimRight(x, IsSpace), BRACKETS))
    ensures ParsedArray(prose + x, loads) == Recovered(TrimRight(x, IsSpace), loads)
  {
    var lead, kept := TrimLeft(prose, IsSpace), TrimRight(x, IsSpace);
    CleanedCut(prose, x);
    hide StripJsonCodeFence, TrimLeft, TrimRight, IsSpace, Recovered, End;
    assert kept[0] == x[0];
    FindPasses(lead, kept, '[');
    assert Find(kept, '[') == Some(0) && kept[0..] == kept && (lead + kept)[|lead|..] == kept;
    BalancedBehind(lead, kept);
  }

  lemma BalancedBehind(lead: string, kept: string)
    requires '[' !in lead && kept != "" && kept[0] == '['
    ensures Balanced(lead + kept, BRACKETS) == Balanced(kept, BRACKETS)
  {
    hide End;
    FindPasses(lead, kept, '[');
    assert Find(kept, '[') == Some(0) && kept[0..] == kept && (lead + kept)[|lead|..] == kept;
  }

  /** No blanks are cut off in front of the array's closing bracket. */
  lemma TrimmedBehind(inner: string, suffix: string)
    ensures TrimRight("[" + inner + "]" + suffix, IsSpace) == "[" + inner + "]" + TrimRight(suffix, IsSpace)
  {
    var head := "[" + inner + "]";
    assert head[|head| - 1] == ']';
    TrimRightStops(head, suffix, IsSpace);
  }

  lemma InnerIsNeutral(objs: seq<Json>, l: Layout, junk: string)
    requires l.Valid() && forall c :: c in junk ==> IsPlain(c)
    ensures Neutral(l.open + Body(objs, l) + junk, BRACKETS)
  {
    hide Neutral;
    BlanksAreNeutral(l, BRACKETS);
    BodyIsNeutral(objs, l);
    PlainIsNeutral(junk, BRACKETS);
    NeutralJoins(l.open, Body(objs, l), BRACKETS);
    NeutralJoins(l.open + Body(objs, l), junk, BRACKETS);
  }

  lemma {:induction false} BodyIsNeutral(objs: seq<Json>, l: Layout)
    requires l.Valid()
    ensures Neutral(Body(objs, l), BRACKETS)
  {
    hide Neutral;
    BlanksAreNeutral(l, BRACKETS);
    if objs != [] {
      PrintIsNeutral(objs[0], l, BRACKETS);
      if |objs| > 1 {
        BodyIsNeutral(objs[1..], l);
        NeutralJoins(Print(objs[0], l), ",", BRACKETS);
        NeutralJoins(Print(objs[0], l) + ",", l.comma, BRACKETS);
        NeutralJoins(Print(objs[0], l) + "," + l.comma, Body(objs[1..], l), BRACKETS);
      }
    }
  }

  lemma BracketedIsBalanced(inner: string, suffix: string)
    requires Neutral(inner, BRACKETS)
    ensures Balanced("[" + inner + "]" + suffix, BRACKETS) == "[" + inner + "]"
  {
    var text, whole := "[" + inner + "]" + suffix, "[" + inner + "]";
    BracketedEnds(BRACKETS, inner, suffix);
    hide End, Neutral;
    assert [BRACKETS.open] + inner + [BRACKETS.close] + suffix == text;
    assert Find(text, '[') == Some(0) && text[0..] == text && text[..|whole|] == whole;
  }

  lemma RecoversBracketed(objs: seq<Json>, l: Layout, tail: string, loads: Loads)
    requires l.Valid() && AllObjects(objs) && ReadsBack(loads, l, objs)
    ensures objs != [] ==>
              Recovered("[" + l.open + Body(objs, l) + tail, loads) == objs + BehindComma(tail, loads)
    ensures objs == [] && '{' !in tail ==> Recovered("[" + l.open + Body(objs, l) + tail, loads) == []
  {
    hide Recovered, BehindComma, Body, ReadsBack;
    BlanksHaveNo(l);
    var head := "[" + l.open;
    if objs != [] {
      assert head + Body(objs, l) + tail == head + (Body(objs, l) + tail);
      RecoveredSkips(head, Body(objs, l) + tail, loads);
      BodyIsRecovered(objs, l, tail, loads);
    } else if '{' !in tail {
      assert Body(objs, l) == "" by { EmptyBody(l); }
      assert head + Body(objs, l) + tail == head + tail;
      RecoveredFromBlanks(head + tail, loads);
    }
  }

  lemma EmptyBody(l: Layout)
    ensures Body([], l) == ""
  {
  }

  /**
   An array of objects with something behind the last one that makes `json.loads` reject it, such as a
   trailing comma, comes back whole. Neither that nor what follows the array holds a brace.
   */
  lemma RejectedArrayComesBack(prose: string, objs: seq<Json>, l: Layout, junk: string, suffix: string, loads: Loads)
    requires l.Valid() && AllObjects(objs) && ReadsBack(loads, l, objs) && '[' !in prose
    requires (forall c :: c in junk ==> IsPlain(c)) && '{' !in suffix
    requires Rejects(loads, "[" + (l.open + Body(objs, l) + junk) + "]")
    requires NoFence(prose + ("[" + (l.open + Body(objs, l) + junk) + "]" + suffix))
    ensures ParsedArray(prose + ("[" + (l.open + Body(objs, l) + junk) + "]" + suffix), loads) == objs
  {
    hide *;
    var inner, rest := l.open + Body(objs, l) + junk, TrimRight(suffix, IsSpace);
    NoBraceIn(junk, suffix);
    InnerIsNeutral(objs, l, junk);
    BracketedIsBalanced(inner, rest);
    TrimmedBehind(inner, suffix);
    StartsWithBracket(inner, suffix);
    RejectedIsRecovered(prose, "[" + inner + "]" + suffix, loads);
    var tail := junk + "]" + rest;
    InnerRegrouped(l.open, Body(objs, l), junk, rest);
    NothingBehind(tail, loads);
    RecoversBracketed(objs, l, tail, loads);
    assert objs + [] == objs;
  }

  lemma NoBraceIn(junk: string, suffix: string)
    requires (forall c :: c in junk ==> IsPlain(c)) && '{' !in suffix
    ensures '{' !in junk + "]" + TrimRight(suffix, IsSpace)
  {
    assert !IsPlain('{');
  }

  lemma InnerRegrouped(a: string, b: string, junk: string, rest: string)
    ensures "[" + (a + b + junk) + "]" + rest == "[" + a + b + (junk + "]" + rest)
  {
  }

  lemma StartsWithBracket(inner: string, suffix: string)
    ensures ("[" + inner + "]" + suffix)[0] == '[' && "[" + inner + "]" + suffix != ""
  {
  }

  /**
   An object in the middle that `json.loads` cannot read ends the recovery: exactly the objects before it
   come back, whatever follows.
   */
  lemma UnreadableObjectEndsRecovery(prose: string, objs: seq<Json>, l: Layout, inner: string, after: string,
                                     loads: Loads)
    requires l.Valid() && AllObjects(objs) && ReadsBack(loads, l, objs) && '[' !in prose
    requires Neutral(inner, BRACES) && loads("{" + inner + "}") == None
    requires var x := "[" + l.open + Body(objs, l) + ("," + l.comma + ("{" + inner + "}" + after));
             && NoFence(prose + x) && Rejects(loads, Balanced(TrimRight(x, IsSpace), BRACKETS))
    ensures ParsedArray(prose + ("[" + l.open + Body(objs, l) + ("," + l.comma + ("{" + inner + "}" + after))), loads)
            == objs
  {
    hide *;
    var bad := "{" + inner + "}";
    var rest := TrimRight(after, IsSpace);
    var head := "[" + l.open + Body(objs, l) + ("," + l.comma + bad);
    BlanksHaveNo(l);
    Joined("[" + l.open + Body(objs, l), "," + l.comma, bad, after);
    Joined("[" + l.open + Body(objs, l), "," + l.comma, bad, rest);
    EndsWithBrace("[" + l.open + Body(objs, l) + ("," + l.comma), inner);
    TrimRightStops(head, after, IsSpace);
    HeadStarts(l, Body(objs, l), "," + l.comma + (bad + after));
    RejectedIsRecovered(prose, head + after, loads);
    BadObjectIsNothing(inner, rest, loads);
    if objs == [] {
      EmptyBody(l);
      SkippedHead(l, bad + rest);
      RecoveredSkips("[" + l.open + "," + l.comma, bad + rest, loads);
    } else {
      RecoversBracketed(objs, l, "," + l.comma + (bad + rest), loads);
      CommaFirst(l.comma, bad + rest, loads);
      assert "," + l.comma + (bad + rest) == ("," + l.comma) + (bad + rest);
      assert objs + [] == objs;
    }
  }

  lemma Joined(a: string, b: string, bad: string, c: string)
    ensures a + (b + (bad + c)) == a + (b + bad) + c
    ensures a + (b + bad) == a + b + bad
  {
  }

  lemma EndsWithBrace(a: string, inner: string)
    ensures var s := a + ("{" + inner + "}"); s != "" && !IsSpace(s[|s| - 1])
  {
    var s := a + ("{" + inner + "}");
    assert s[|s| - 1] == '}';
  }

  lemma HeadStarts(l: Layout, body: string, tail: string)
    ensures var x := "[" + l.open + body + tail; x != "" && x[0] == '['
  {
  }

  lemma SkippedHead(l: Layout, tail: string)
    requires l.Valid()
    ensures "[" + l.open + "" + ("," + l.comma + tail) == "[" + l.open + "," + l.comma + tail
    ensures '{' !in "[" + l.open + "," + l.comma
  {
    BlanksHaveNo(l);
  }

  lemma BadObjectIsNothing(inner: string, rest: string, loads: Loads)
    requires Neutral(inner, BRACES) && loads("{" + inner + "}") == None
    ensures Recovered("{" + inner + "}" + rest, loads) == []
  {
    var text, bad := "{" + inner + "}" + rest, "{" + inner + "}";
    BracketedEnds(BRACES, inner, rest);
    assert [BRACES.open] + inner + [BRACES.close] + rest == text;
    hide Recovered, End, Neutral;
    assert Find(text, '{') == Some(0) && text[0..] == text && text[..|bad|] == bad;
    assert FirstObject(text, loads) == Nothing;
    RecoversNone(text, loads);
  }
}
