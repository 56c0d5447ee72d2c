/** What the planner gets back from a printed array: all of it, or what a cut left whole. */
module JsonRecovery {
  import opened Options
  import opened Strings
  import opened JsonText
  import opened JsonScan
  import opened PlannerJson

  /** `json.loads` reads each of these values back from its printed text. */
  ghost predicate ReadsBack(loads: Loads, l: Layout, values: seq<Json>) {
    forall v :: v in values ==> loads(Print(v, l)) == Some(v)
  }

  /** `json.loads` undoes the printer on every value that JSON can express. */
  ghost predicate InvertsPrinter(loads: Loads, l: Layout) {
    forall v :: WellFormed(v) ==> loads(Print(v, l)) == Some(v)
  }

  /** So it does for any well-formed values and for the array of them. */
  lemma InverterReadsBack(loads: Loads, l: Layout, values: seq<Json>)
    requires InvertsPrinter(loads, l) && forall v :: v in values ==> WellFormed(v)
    ensures ReadsBack(loads, l, values + [Arr(values)])
  {
    assert forall i :: 0 <= i < |values| ==> values[i] in values;
    assert WellFormed(Arr(values));
  }

  // ---------- balanced extraction ----------

  /** Behind prose without a bracket, the printed array is found whole, whatever follows it. */
  lemma BalancedExtraction(prose: string, items: seq<Json>, l: Layout, suffix: string)
    requires l.Valid() && '[' !in prose
    ensures Balanced(prose + Print(Arr(items), l) + suffix, BRACKETS) == Print(Arr(items), l)
  {
    var printed := Print(Arr(items), l);
    var text := prose + printed + suffix;
    ItemsAreNeutral(items, l, BRACKETS);
    BracketedEnds(BRACKETS, PrintItems(items, l), suffix);
    assert text == prose + (printed + suffix);
    FindPasses(prose, printed + suffix, '[');
    assert text[|prose|..] == printed + suffix;
    assert (printed + suffix)[..|printed|] == printed;
  }

  /** No proper prefix of the array is ever taken for a whole one. */
  lemma CutArrayIsNotBalanced(prose: string, items: seq<Json>, l: Layout, cut: nat)
    requires l.Valid() && '[' !in prose && cut < |Print(Arr(items), l)|
    ensures Balanced(prose + Print(Arr(items), l)[..cut], BRACKETS) == ""
  {
    var piece := Print(Arr(items), l)[..cut];
    ItemsAreNeutral(items, l, BRACKETS);
    CutBracketHasNoEnd(BRACKETS, PrintItems(items, l), cut);
    FindPasses(prose, piece, '[');
    assert (prose + piece)[|prose|..] == piece;
  }

  // ---------- recovering the objects of a cut array ----------

  predicate AllObjects(items: seq<Json>) {
    forall i :: 0 <= i < |items| ==> items[i].Obj?
  }

  /** The text from the first object on. */
  function Rest(objs: seq<Json>, l: Layout): string
    requires objs != []
  {
    Print(objs[0], l) + PrintMoreItems(objs[1..], l) + "]"
  }

  /** How many objects lie wholly within the first `len` characters of `Rest`. */
  function WholeFrom(objs: seq<Json>, l: Layout, len: int): (n: nat)
    ensures n <= |objs|
  {
    if objs == [] || len < |Print(objs[0], l)| then 0
    else 1 + WholeFrom(objs[1..], l, len - |Print(objs[0], l)| - 1 - |l.comma|)
  }

  lemma RecoveredSkips(a: string, b: string, loads: Loads)
    requires '{' !in a
    ensures Recovered(a + b, loads) == Recovered(b, loads)
  {
    FirstObjectSkips(a, b, loads);
    hide *;
    SameFirstObject(a + b, b, loads);
  }

  lemma SameFirstObject(s: string, t: string, loads: Loads)
    requires FirstObject(s, loads) == FirstObject(t, loads)
    ensures Recovered(s, loads) == Recovered(t, loads)
  {
    hide *;
    RecoveredUnfolds(s, loads);
    RecoveredUnfolds(t, loads);
  }

  lemma FirstObjectSkips(a: string, b: string, loads: Loads)
    requires '{' !in a
    ensures FirstObject(a + b, loads) == FirstObject(b, loads)
  {
    FindPasses(a, b, '{');
    var brace := Find(b, '{');
    if brace.Some? {
      assert (a + b)[|a| + brace.value..] == b[brace.value..];
    }
  }

  lemma RecoveredUnfolds(s: string, loads: Loads)
    ensures var first := FirstObject(s, loads);
            Recovered(s, loads) ==
            if first.Nothing? then []
            else if Find(first.rest, ',').None? then [first.item]
            else [first.item] + Recovered(first.rest[Find(first.rest, ',').value + 1..], loads)
  {
    hide FirstObject, Find;
  }

  lemma RecoveredFromBlanks(a: string, loads: Loads)
    requires '{' !in a
    ensures Recovered(a, loads) == []
  {
    FindNothing(a, '{');
  }

  /** A complete first object is read, and only its own text is consumed. */
  lemma FirstObjectWhole(obj: Json, l: Layout, rest: string, loads: Loads)
    requires l.Valid() && obj.Obj? && loads(Print(obj, l)) == Some(obj)
    ensures FirstObject(Print(obj, l) + rest, loads) == Item(obj, rest)
  {
    var text := Print(obj, l);
    MembersAreNeutral(obj.members, l, BRACES);
    BracketedEnds(BRACES, PrintMembers(obj.members, l), rest);
    assert (text + rest)[0..] == text + rest;
    assert (text + rest)[..|text|] == text && (text + rest)[|text|..] == rest;
    assert loads(text) == Some(obj);
  }

  /** An object that is cut is not read at all. */
  lemma FirstObjectCut(obj: Json, l: Layout, cut: nat, loads: Loads)
    requires l.Valid() && obj.Obj? && cut < |Print(obj, l)|
    ensures FirstObject(Print(obj, l)[..cut], loads) == Nothing
  {
    var piece := Print(obj, l)[..cut];
    MembersAreNeutral(obj.members, l, BRACES);
    CutBracketHasNoEnd(BRACES, PrintMembers(obj.members, l), cut);
    assert piece[0..] == piece;
  }

  lemma BlanksHaveNo(l: Layout)
    requires l.Valid()
    ensures '{' !in l.open && '{' !in l.comma && '{' !in l.close && ',' !in l.close
    ensures '[' !in l.open && '`' !in l.open
  {
    var all := l.open + l.comma + l.colon + l.close;
    assert forall c :: c in l.open || c in l.comma || c in l.close ==> c in all;
  }

  /** From the first object on, exactly the objects that are wholly there are recovered. */
  lemma {:induction false} RecoversWholeObjects(objs: seq<Json>, l: Layout, cut: nat, loads: Loads)
    requires l.Valid() && objs != [] && AllObjects(objs) && ReadsBack(loads, l, objs)
    requires cut <= |Rest(objs, l)|
    ensures Recovered(Rest(objs, l)[..cut], loads) == objs[..WholeFrom(objs, l, cut)]
    decreases |objs|, 1
  {
    hide *;
    FirstIsReadBack(loads, l, objs);
    RestSplits(objs, l, cut);
    var first := Print(objs[0], l);
    if cut < |first| {
      FirstObjectCut(objs[0], l, cut, loads);
      RecoversNone(first[..cut], loads);
      WholeUnfolds(objs, l, cut);
    } else {
      var rest := (PrintMoreItems(objs[1..], l) + "]")[..cut - |first|];
      FirstObjectWhole(objs[0], l, rest, loads);
      RecoversBehindFirst(objs, l, rest, loads);
    }
  }

  lemma FirstIsReadBack(loads: Loads, l: Layout, objs: seq<Json>)
    requires ReadsBack(loads, l, objs) && AllObjects(objs) && objs != []
    ensures loads(Print(objs[0], l)) == Some(objs[0]) && objs[0].Obj?
  {
  }

  /** A cut of the text from the first object on falls within that object or behind it. */
  lemma RestSplits(objs: seq<Json>, l: Layout, cut: nat)
    requires objs != [] && cut <= |Rest(objs, l)|
    ensures var first, more := Print(objs[0], l), PrintMoreItems(objs[1..], l) + "]";
            if cut < |first| then Rest(objs, l)[..cut] == first[..cut]
            else cut - |first| <= |more| && Rest(objs, l)[..cut] == first + more[..cut - |first|]
  {
    assert Rest(objs, l) == Print(objs[0], l) + (PrintMoreItems(objs[1..], l) + "]");
    hide *;
  }

  lemma RecoversNone(s: string, loads: Loads)
    requires FirstObject(s, loads) == Nothing
    ensures Recovered(s, loads) == []
  {
    RecoveredUnfolds(s, loads);
    hide *;
  }

  lemma RecoversOne(s: string, loads: Loads, item: Json, rest: string)
    requires FirstObject(s, loads) == Item(item, rest) && ',' !in rest
    ensures Recovered(s, loads) == [item]
  {
    RecoveredUnfolds(s, loads);
    FindNothing(rest, ',');
    hide *;
  }

  lemma RecoversMore(s: string, loads: Loads, item: Json, behind: string)
    requires FirstObject(s, loads) == Item(item, "," + behind)
    ensures Recovered(s, loads) == [item] + Recovered(behind, loads)
  {
    RecoveredUnfolds(s, loads);
    assert Find("," + behind, ',') == Some(0) && ("," + behind)[1..] == behind;
    hide *;
  }

  lemma WholeUnfolds(objs: seq<Json>, l: Layout, len: int)
    ensures objs == [] || len < |Print(objs[0], l)| || len <= 0 ==> WholeFrom(objs, l, len) == 0
    ensures objs != [] && len >= |Print(objs[0], l)| ==>
              WholeFrom(objs, l, len) == 1 + WholeFrom(objs[1..], l, len - |Print(objs[0], l)| - 1 - |l.comma|)
  {
    hide Print;
    if objs != [] {
      PrintIsNotEmpty(objs[0], l);
    }
  }

  lemma PrintIsNotEmpty(v: Json, l: Layout)
    ensures Print(v, l) != ""
  {
  }

  /** What lies behind the first object: the closing of the array, or a comma and the other objects. */
  lemma BehindFirst(more: seq<Json>, l: Layout, rest: string)
    requires l.Valid() && rest <= PrintMoreItems(more, l) + "]"
    ensures more == [] ==> ',' !in rest
    ensures more != [] && rest != "" ==> rest == "," + rest[1..] && rest[1..] <= l.comma + Rest(more, l)
  {
    BlanksHaveNo(l);
    if more == [] {
      assert rest <= l.close + "]";
      assert ',' !in l.close + "]";
    } else {
      hide Print, PrintMoreItems;
      MoreItemsStart(more, l);
    }
  }

  lemma MoreItemsStart(more: seq<Json>, l: Layout)
    requires more != []
    ensures PrintMoreItems(more, l) + "]" == "," + (l.comma + Rest(more, l))
  {
  }

  lemma PrefixOfJoined(piece: string, a: string, b: string)
    requires piece <= a + b
    ensures |piece| <= |a| ==> piece <= a
    ensures |piece| > |a| ==> |piece| - |a| <= |b| && piece == a + b[..|piece| - |a|]
  {
  }

  /** Nothing behind the first object counts as whole. */
  lemma OnlyFirstIsWhole(objs: seq<Json>, l: Layout, rest: string)
    requires objs != [] && (objs[1..] == [] || rest == "")
    ensures objs[..WholeFrom(objs, l, |Print(objs[0], l)| + |rest|)] == [objs[0]]
  {
    hide *;
    WholeUnfolds(objs, l, |Print(objs[0], l)| + |rest|);
    WholeUnfolds(objs[1..], l, |rest| - 1 - |l.comma|);
    TakeFirst(objs);
  }

  lemma {:induction false} RecoversBehindFirst(objs: seq<Json>, l: Layout, rest: string, loads: Loads)
    requires l.Valid() && objs != [] && AllObjects(objs) && ReadsBack(loads, l, objs)
    requires rest <= PrintMoreItems(objs[1..], l) + "]"
    requires FirstObject(Print(objs[0], l) + rest, loads) == Item(objs[0], rest)
    ensures Recovered(Print(objs[0], l) + rest, loads) ==
            objs[..WholeFrom(objs, l, |Print(objs[0], l)| + |rest|)]
    decreases |objs|, 0
  {
    hide *;
    var more := objs[1..];
    AllObjectsTail(objs);
    ReadsBackTail(loads, l, objs);
    BehindFirst(more, l, rest);
    if more == [] || rest == "" {
      RecoversOne(Print(objs[0], l) + rest, loads, objs[0], rest);
      OnlyFirstIsWhole(objs, l, rest);
    } else {
      RecoversBehindComma(more, l, rest[1..], loads);
      RecoversFirstAndMore(objs, l, rest, rest[1..], loads);
    }
  }

  lemma RecoversFirstAndMore(objs: seq<Json>, l: Layout, rest: string, behind: string, loads: Loads)
    requires objs != [] && rest == "," + behind
    requires FirstObject(Print(objs[0], l) + rest, loads) == Item(objs[0], rest)
    requires Recovered(behind, loads) == objs[1..][..WholeFrom(objs[1..], l, |behind| - |l.comma|)]
    ensures Recovered(Print(objs[0], l) + rest, loads) ==
            objs[..WholeFrom(objs, l, |Print(objs[0], l)| + |rest|)]
  {
    hide *;
    assert |rest| == 1 + |behind|;
    RecoversMore(Print(objs[0], l) + rest, loads, objs[0], behind);
    WholeUnfolds(objs, l, |Print(objs[0], l)| + |rest|);
    assert |Print(objs[0], l)| + |rest| - |Print(objs[0], l)| - 1 - |l.comma| == |behind| - |l.comma|;
    TakeOneMore(objs, WholeFrom(objs[1..], l, |behind| - |l.comma|));
  }

  lemma AllObjectsTail(objs: seq<Json>)
    requires AllObjects(objs) && objs != []
    ensures AllObjects(objs[1..])
  {
  }

  lemma ReadsBackTail(loads: Loads, l: Layout, objs: seq<Json>)
    requires ReadsBack(loads, l, objs) && objs != []
    ensures ReadsBack(loads, l, objs[1..])
  {
  }

  lemma TakeFirst<T>(s: seq<T>)
    requires s != []
    ensures s[..1] == [s[0]]
  {
  }

  lemma TakeOneMore<T>(s: seq<T>, n: nat)
    requires s != [] && n <= |s[1..]|
    ensures s[..1 + n] == [s[0]] + s[1..][..n]
  {
  }

  lemma {:induction false} RecoversBehindComma(more: seq<Json>, l: Layout, behind: string, loads: Loads)
    requires l.Valid() && more != [] && AllObjects(more) && ReadsBack(loads, l, more)
    requires behind <= l.comma + Rest(more, l)
    ensures Recovered(behind, loads) == more[..WholeFrom(more, l, |behind| - |l.comma|)]
    decreases |more|, 2
  {
    hide *;
    var tail := Rest(more, l);
    BlanksHaveNo(l);
    PrefixOfJoined(behind, l.comma, tail);
    if |behind| <= |l.comma| {
      RecoveredFromBlanks(behind, loads);
      WholeUnfolds(more, l, |behind| - |l.comma|);
    } else {
      var cut := |behind| - |l.comma|;
      RecoveredSkips(l.comma, tail[..cut], loads);
      RecoversWholeObjects(more, l, cut, loads);
    }
  }
}
