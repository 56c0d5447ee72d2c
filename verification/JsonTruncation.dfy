/** The main results about `parse_json_array`, on the text as the model sent it. */
module JsonTruncation {
  import opened Options
  import opened Strings
  import opened JsonText
  import opened JsonScan
  import opened PlannerJson
  import opened JsonRecovery

  // ---------- code fences and blanks around the text ----------

  /** The text holds no "```". */
  ghost predicate NoFence(s: string) {
    forall i :: 0 <= i < |s| ==> !StartsWithFence(s[i..])
  }

  lemma {:induction false} NothingToRemove(s: string)
    requires NoFence(s)
    ensures RemoveFences(s) == s
  {
    if s != "" {
      assert s[0..] == s;
      forall i | 0 <= i < |s[1..]|
        ensures !StartsWithFence(s[1..][i..])
      {
        assert s[1..][i..] == s[i + 1..];
      }
      NothingToRemove(s[1..]);
    }
  }

  lemma PartHasNoFence(s: string, from: nat, to: nat)
    requires NoFence(s) && from <= to <= |s|
    ensures NoFence(s[from..to])
  {
    var part := s[from..to];
    forall i | 0 <= i < |part|
      ensures !StartsWithFence(part[i..])
    {
      assert !StartsWithFence(s[from + i..]);
    }
  }

  lemma {:induction false} TrimLeftStops(a: string, b: string, drop: CharClass)
    requires b != "" && !drop(b[0])
    ensures TrimLeft(a + b, drop) == TrimLeft(a, drop) + b
  {
    if a == "" {
      assert a + b == b;
    } else {
      assert (a + b)[1..] == a[1..] + b;
      TrimLeftStops(a[1..], b, drop);
    }
  }

  lemma {:induction false} TrimRightStops(a: string, b: string, drop: CharClass)
    requires a != "" && !drop(a[|a| - 1])
    ensures TrimRight(a + b, drop) == a + TrimRight(b, drop)
    decreases |b|
  {
    if b == "" {
      assert a + b == a;
    } else {
      assert (a + b)[..|a + b| - 1] == a + b[..|b| - 1];
      TrimRightStops(a, b[..|b| - 1], drop);
    }
  }

  /** Stripping a text whose middle starts with a bracket trims its two ends only. */
  lemma StripAround(prose: string, x: string)
    requires x != "" && !IsSpace(x[0])
    ensures var kept := TrimRight(x, IsSpace);
            && kept != "" && kept <= x
            && Strip(prose + x, IsSpace) == TrimLeft(prose, IsSpace) + kept
            && forall i :: |kept| <= i < |x| ==> IsSpace(x[i])
  {
    hide TrimLeft, TrimRight, IsSpace;
    var left, kept := TrimLeft(prose, IsSpace), TrimRight(x, IsSpace);
    TrimLeftStops(prose, x, IsSpace);
    TrimRightDrops(x, IsSpace);
    assert x == [x[0]] + x[1..];
    TrimRightStops([x[0]], x[1..], IsSpace);
    TrimRightStops(left + [x[0]], x[1..], IsSpace);
    assert left + x == left + [x[0]] + x[1..];
  }

  lemma TrimmedProse(prose: string)
    requires '[' !in prose
    ensures '[' !in TrimLeft(prose, IsSpace)
  {
    TrimLeftIsSuffix(prose, IsSpace);
  }

  /** Blanks around it and prose before it do not hide an array from the parser. */
  lemma CleanedCut(prose: string, x: string)
    requires '[' !in prose && NoFence(prose + x) && x != "" && x[0] == '['
    ensures var kept := TrimRight(x, IsSpace);
            && kept != "" && kept <= x && (forall i :: |kept| <= i < |x| ==> IsSpace(x[i]))
            && '[' !in TrimLeft(prose, IsSpace)
            && StripJsonCodeFence(prose + x) == TrimLeft(prose, IsSpace) + kept
  {
    assert !IsSpace('[');
    hide TrimLeft, TrimRight, IsSpace, Strip, RemoveFences;
    StripAround(prose, x);
    TrimmedProse(prose);
    TrimLeftIsSuffix(prose, IsSpace);
    InnerPartHasNoFence(prose, TrimLeft(prose, IsSpace), x, TrimRight(x, IsSpace));
    NothingToRemove(TrimLeft(prose, IsSpace) + TrimRight(x, IsSpace));
  }

  lemma InnerPartHasNoFence(a: string, lead: string, b: string, kept: string)
    requires NoFence(a + b) && |lead| <= |a| && lead == a[|a| - |lead|..] && kept <= b
    ensures NoFence(lead + kept)
  {
    var from, to := |a| - |lead|, |a| + |kept|;
    assert (a + b)[from..to] == lead + kept;
    PartHasNoFence(a + b, from, to);
  }

  // ---------- whole arrays ----------

  /** A printed array in prose, with anything behind it, is parsed to its items. */
  lemma WholeArrayParses(prose: string, items: seq<Json>, l: Layout, suffix: string, loads: Loads)
    requires l.Valid() && ReadsBack(loads, l, [Arr(items)]) && '[' !in prose
    requires NoFence(prose + (Print(Arr(items), l) + suffix))
    ensures ParsedArray(prose + (Print(Arr(items), l) + suffix), loads) == items
  {
    var printed := Print(Arr(items), l);
    CleanedCut(prose, printed + suffix);
    TrimRightStops(printed, suffix, IsSpace);
    var tail := TrimRight(suffix, IsSpace);
    var lead := TrimLeft(prose, IsSpace);
    BalancedExtraction(lead, items, l, tail);
    assert lead + (printed + tail) == lead + printed + tail;
    assert loads(printed) == Some(Arr(items));
  }

  lemma {:induction false} FencePasses(a: string, b: string)
    requires '`' !in a
    ensures RemoveFences(a + b) == a + RemoveFences(b)
  {
    hide TrimLeft, IsSpace;
    if a == "" {
      assert a + b == b;
    } else {
      assert (a + b)[1..] == a[1..] + b;
      assert a[0] in a && forall c :: c in a[1..] ==> c in a;
      FencePasses(a[1..], b);
    }
  }

  /** What may stand behind the opening fence: nothing, or "json" in any case. */
  predicate IsJsonTag(tag: string) {
    || tag == ""
    || (|tag| == 4 && tag[0] in "jJ" && tag[1] in "sS" && tag[2] in "oO" && tag[3] in "nN")
  }

  lemma TagIsSkipped(tag: string, rest: string)
    requires IsJsonTag(tag) && rest != "" && rest[0] !in "jJ"
    ensures SkipJsonTag(tag + rest) == rest
  {
    if tag == "" {
      assert tag + rest == rest;
    } else {
      assert (tag + rest)[4..] == rest;
    }
  }

  lemma {:induction false} BlanksAreTrimmed(gap: string, body: string)
    requires (forall c :: c in gap ==> IsSpace(c)) && body != "" && !IsSpace(body[0])
    ensures TrimLeft(gap + body, IsSpace) == body
  {
    hide IsSpace;
    if gap == "" {
      assert gap + body == body;
    } else {
      assert gap[0] in gap && (gap + body)[1..] == gap[1..] + body;
      BlanksAreTrimmed(gap[1..], body);
    }
  }

  lemma FencedIsStripped(inner: string)
    ensures Strip("```" + inner + "```", IsSpace) == "```" + inner + "```"
  {
    var text := "```" + inner + "```";
    assert text[0] == '`' && text[|text| - 1] == '`';
  }

  /** The opening fence goes with its tag and the blanks behind it. */
  lemma FenceOpens(tag: string, gap: string, behind: string)
    requires IsJsonTag(tag) && (forall c :: c in gap ==> IsSpace(c)) && behind != "" && behind[0] == '['
    ensures RemoveFences("```" + (tag + (gap + behind))) == RemoveFences(behind)
  {
    hide TrimLeft, SkipJsonTag, IsJsonTag;
    var untagged := gap + behind;
    var text := "```" + (tag + untagged);
    assert gap != "" ==> gap[0] in gap;
    assert gap == "" ==> untagged == behind;
    assert untagged[0] !in "jJ";
    TagIsSkipped(tag, untagged);
    BlanksAreTrimmed(gap, behind);
    hide IsSpace;
    assert StartsWithFence(text) && text[3..] == tag + untagged;
  }

  /** Removing the fences of a reply leaves the array. */
  lemma FenceComesOff(tag: string, gap: string, body: string)
    requires IsJsonTag(tag) && (forall c :: c in gap ==> IsSpace(c)) && body != "" && body[0] == '[' && '`' !in body
    ensures StripJsonCodeFence("```" + tag + gap + body + "\n```") == body + "\n"
  {
    hide Strip, RemoveFences, IsSpace, IsJsonTag;
    FencedIsStripped(tag + gap + body + "\n");
    FenceOpens(tag, gap, body + "\n```");
    FencePasses(body, "\n```");
    RemovingLastFence();
    Fenced(tag, gap, body);
  }

  lemma Fenced(tag: string, gap: string, body: string)
    ensures "```" + (tag + gap + body + "\n") + "```" == "```" + tag + gap + body + "\n```"
    ensures "```" + (tag + (gap + (body + "\n```"))) == "```" + tag + gap + body + "\n```"
  {
    assert "\n" + "```" == "\n```";
  }

  /** The usual reply, an array in a code fence with or without its tag, is parsed to its items. */
  lemma FencedArrayParses(tag: string, gap: string, items: seq<Json>, l: Layout, loads: Loads)
    requires IsJsonTag(tag) && forall c :: c in gap ==> IsSpace(c)
    requires l.Valid() && ReadsBack(loads, l, [Arr(items)]) && '`' !in Print(Arr(items), l)
    ensures ParsedArray("```" + tag + gap + Print(Arr(items), l) + "\n```", loads) == items
  {
    hide StripJsonCodeFence, Balanced, RecoveredArray, IsSpace, IsJsonTag;
    var printed := Print(Arr(items), l);
    assert printed[0] == '[';
    FenceComesOff(tag, gap, printed);
    BalancedExtraction("", items, l, "\n");
    assert "" + printed + "\n" == printed + "\n";
    assert loads(printed) == Some(Arr(items));
  }

  lemma RemovingLastFence()
    ensures RemoveFences("\n```") == "\n"
  {
    assert "\n```"[1..] == "```";
    assert "```"[3..] == "";
    assert RemoveFences("```") == RemoveFences(TrimLeft(SkipJsonTag(""), IsSpace));
    assert RemoveFences("\n```") == ['\n'] + RemoveFences("```");
  }

  // ---------- cut arrays ----------

  /** Where object `k` starts, counted from the first object. */
  function Offset(objs: seq<Json>, l: Layout, k: nat): nat
    requires k < |objs|
  {
    if k == 0 then 0 else |Print(objs[0], l)| + 1 + |l.comma| + Offset(objs[1..], l, k - 1)
  }

  /** Where object `k` starts and ends in the printed array. */
  function TextStart(objs: seq<Json>, l: Layout, k: nat): nat
    requires k < |objs|
  {
    1 + |l.open| + Offset(objs, l, k)
  }

  function TextEnd(objs: seq<Json>, l: Layout, k: nat): nat
    requires k < |objs|
  {
    TextStart(objs, l, k) + |Print(objs[k], l)|
  }

  lemma RestUnfolds(objs: seq<Json>, l: Layout)
    requires |objs| > 1
    ensures Rest(objs, l) == Print(objs[0], l) + "," + l.comma + Rest(objs[1..], l)
  {
    var more := objs[1..];
    assert PrintMoreItems(more, l) == "," + l.comma + Print(more[0], l) + PrintMoreItems(more[1..], l);
  }

  lemma RestStarts(objs: seq<Json>, l: Layout)
    requires objs != []
    ensures |Print(objs[0], l)| <= |Rest(objs, l)|
    ensures Rest(objs, l)[0..][..|Print(objs[0], l)|] == Print(objs[0], l)
  {
  }

  lemma DropHead(head: string, tail: string, n: nat)
    requires n <= |tail|
    ensures (head + tail)[|head| + n..] == tail[n..]
  {
  }

  lemma {:induction false} OffsetText(objs: seq<Json>, l: Layout, k: nat)
    requires k < |objs|
    ensures Offset(objs, l, k) + |Print(objs[k], l)| <= |Rest(objs, l)|
    ensures Rest(objs, l)[Offset(objs, l, k)..][..|Print(objs[k], l)|] == Print(objs[k], l)
  {
    hide Print, Rest, PrintMoreItems;
    if k == 0 {
      RestStarts(objs, l);
    } else {
      var more := objs[1..];
      OffsetText(more, l, k - 1);
      var head := Print(objs[0], l) + "," + l.comma;
      RestUnfolds(objs, l);
      DropHead(head, Rest(more, l), Offset(more, l, k - 1));
    }
  }

  lemma PrintedArray(objs: seq<Json>, l: Layout)
    requires objs != []
    ensures Print(Arr(objs), l) == "[" + l.open + Rest(objs, l)
  {
  }

  /** That is where the object's own text is. */
  lemma ObjectTextIsThere(objs: seq<Json>, l: Layout, k: nat)
    requires k < |objs|
    ensures TextEnd(objs, l, k) <= |Print(Arr(objs), l)|
    ensures Print(Arr(objs), l)[TextStart(objs, l, k)..TextEnd(objs, l, k)] == Print(objs[k], l)
  {
    PrintedArray(objs, l);
    OffsetText(objs, l, k);
    var head := "[" + l.open;
    assert (head + Rest(objs, l))[|head| + Offset(objs, l, k)..] == Rest(objs, l)[Offset(objs, l, k)..];
  }

  lemma {:induction false} WholeExactly(objs: seq<Json>, l: Layout, len: int, k: nat)
    requires k < |objs|
    ensures k < WholeFrom(objs, l, len) <==> Offset(objs, l, k) + |Print(objs[k], l)| <= len
  {
    hide Print;
    if k > 0 {
      WholeExactly(objs[1..], l, len - |Print(objs[0], l)| - 1 - |l.comma|, k - 1);
    }
  }

  /** How many objects end within the first `len` characters of the printed array. */
  function Whole(objs: seq<Json>, l: Layout, len: int): (n: nat)
    ensures n <= |objs|
  {
    WholeFrom(objs, l, len - 1 - |l.open|)
  }

  lemma WholeCounts(objs: seq<Json>, l: Layout, len: int)
    ensures forall k :: 0 <= k < |objs| ==> (k < Whole(objs, l, len) <==> TextEnd(objs, l, k) <= len)
  {
    forall k | 0 <= k < |objs|
      ensures k < Whole(objs, l, len) <==> TextEnd(objs, l, k) <= len
    {
      WholeExactly(objs, l, len - 1 - |l.open|, k);
    }
  }

  lemma WholeStops(objs: seq<Json>, l: Layout, len: int)
    ensures var n := Whole(objs, l, len);
            (n < |objs| ==> TextEnd(objs, l, n) > len) && (len <= 0 ==> n == 0)
  {
    WholeCounts(objs, l, len);
  }

  lemma CutTextRecovers(objs: seq<Json>, l: Layout, cut: nat, loads: Loads)
    requires l.Valid() && AllObjects(objs) && ReadsBack(loads, l, objs)
    requires cut <= |Print(Arr(objs), l)|
    ensures Recovered(Print(Arr(objs), l)[..cut], loads) == objs[..Whole(objs, l, cut)]
  {
    hide ReadsBack, Recovered, WholeFrom;
    var piece := Print(Arr(objs), l)[..cut];
    BlanksHaveNo(l);
    var head := "[" + l.open;
    WholeStops(objs, l, cut);
    if objs == [] {
      assert piece <= "[]";
      RecoveredFromBlanks(piece, loads);
    } else {
      PrintedArray(objs, l);
      hide Print, Rest;
      if cut <= |head| {
        assert piece == head[..cut];
        RecoveredFromBlanks(piece, loads);
        NoneWhole(objs, l, cut - |head|);
      } else {
        var s := Rest(objs, l)[..cut - |head|];
        assert piece == head + s;
        RecoveredSkips(head, s, loads);
        RecoversWholeObjects(objs, l, cut - |head|, loads);
      }
    }
  }

  lemma NoneWhole(objs: seq<Json>, l: Layout, len: int)
    requires len <= 0
    ensures WholeFrom(objs, l, len) == 0
  {
  }

  /** The recovery pass on a cut array behind prose. */
  lemma CutArrayRecovers(lead: string, objs: seq<Json>, l: Layout, cut: nat, loads: Loads)
    requires l.Valid() && AllObjects(objs) && ReadsBack(loads, l, objs) && '[' !in lead
    requires 0 < cut <= |Print(Arr(objs), l)|
    ensures RecoveredArray(lead + Print(Arr(objs), l)[..cut], loads) == objs[..Whole(objs, l, cut)]
  {
    var piece := Print(Arr(objs), l)[..cut];
    assert piece[0] == '[';
    hide ReadsBack, Recovered, Whole, Print;
    CutTextRecovers(objs, l, cut, loads);
    FindPasses(lead, piece, '[');
    assert (lead + piece)[|lead|..] == piece;
  }

  /** Dropping blanks from the end of a cut loses no whole object. */
  lemma TrimmingKeepsWhole(objs: seq<Json>, l: Layout, cut: nat, kept: nat)
    requires l.Valid() && AllObjects(objs) && kept <= cut <= |Print(Arr(objs), l)|
    requires forall i :: kept <= i < cut ==> IsSpace(Print(Arr(objs), l)[i])
    ensures Whole(objs, l, kept) == Whole(objs, l, cut)
  {
    WholeCounts(objs, l, kept);
    WholeCounts(objs, l, cut);
    forall k | 0 <= k < |objs|
      ensures TextEnd(objs, l, k) <= cut <==> TextEnd(objs, l, k) <= kept
    {
      ObjectTextIsThere(objs, l, k);
      var text, printed := Print(objs[k], l), Print(Arr(objs), l);
      assert text[|text| - 1] == '}';
      assert printed[TextStart(objs, l, k)..TextEnd(objs, l, k)][|text| - 1] == printed[TextEnd(objs, l, k) - 1];
    }
    var m, n := Whole(objs, l, kept), Whole(objs, l, cut);
    WholeStops(objs, l, kept);
    WholeStops(objs, l, cut);
  }

  /**
   A list of objects printed as an array and cut anywhere comes back as exactly the objects whose
   text lies wholly inside the cut, whatever quotes, escapes and brackets their strings contain.
   */
  lemma TruncationRecovery(prose: string, objs: seq<Json>, l: Layout, cut: nat, loads: Loads)
    requires l.Valid() && AllObjects(objs) && ReadsBack(loads, l, objs + [Arr(objs)])
    requires '[' !in prose && NoFence(prose + Print(Arr(objs), l))
    requires cut <= |prose + Print(Arr(objs), l)|
    ensures ParsedArray((prose + Print(Arr(objs), l))[..cut], loads) == objs[..Whole(objs, l, cut - |prose|)]
    ensures forall k :: 0 <= k < |objs| ==>
              (k < Whole(objs, l, cut - |prose|) <==> |prose| + TextEnd(objs, l, k) <= cut)
  {
    hide *;
    var printed := Print(Arr(objs), l);
    WholeCounts(objs, l, cut - |prose|);
    WholeStops(objs, l, cut - |prose|);
    PartHasNoFence(prose + printed, 0, cut);
    CutJoined(prose, printed, cut);
    if cut <= |prose| {
      CutBeforeArray(prose[..cut], loads);
    } else {
      CutInsideArray(prose, objs, l, cut - |prose|, loads);
    }
  }

  lemma CutJoined(a: string, b: string, cut: nat)
    requires cut <= |a + b|
    ensures (a + b)[0..cut] == (a + b)[..cut]
    ensures (a + b)[..cut] == if cut <= |a| then a[..cut] else a + b[..cut - |a|]
    ensures cut <= |a| ==> forall c :: c in a[..cut] ==> c in a
  {
  }

  lemma ParsedRecovers(text: string, cleaned: string, loads: Loads)
    requires StripJsonCodeFence(text) == cleaned && Balanced(cleaned, BRACKETS) == ""
    ensures ParsedArray(text, loads) == RecoveredArray(cleaned, loads)
  {
  }

  lemma UncutArrayParses(prose: string, objs: seq<Json>, l: Layout, loads: Loads)
    requires l.Valid() && ReadsBack(loads, l, [Arr(objs)]) && '[' !in prose && NoFence(prose + Print(Arr(objs), l))
    ensures ParsedArray(prose + Print(Arr(objs), l), loads) == objs
  {
    var printed := Print(Arr(objs), l);
    hide *;
    assert printed + "" == printed;
    WholeArrayParses(prose, objs, l, "", loads);
  }

  lemma CutStarts(objs: seq<Json>, l: Layout, len: nat)
    requires 0 < len <= |Print(Arr(objs), l)|
    ensures var x := Print(Arr(objs), l)[..len]; x != "" && x[0] == '['
  {
    hide PrintItems;
  }

  lemma ReadsBackBoth(loads: Loads, l: Layout, objs: seq<Json>)
    requires ReadsBack(loads, l, objs + [Arr(objs)])
    ensures ReadsBack(loads, l, objs) && ReadsBack(loads, l, [Arr(objs)])
  {
    hide Print;
    assert Arr(objs) in objs + [Arr(objs)];
  }

  lemma PrefixOfCut(piece: string, text: string, len: nat)
    requires len <= |text| && piece <= text[..len]
    ensures |piece| <= len && piece == text[..|piece|]
    ensures forall i :: 0 <= i < len ==> text[..len][i] == text[i]
  {
  }

  lemma CutInsideArray(prose: string, objs: seq<Json>, l: Layout, len: nat, loads: Loads)
    requires l.Valid() && AllObjects(objs) && ReadsBack(loads, l, objs + [Arr(objs)])
    requires '[' !in prose && 0 < len <= |Print(Arr(objs), l)|
    requires NoFence(prose + Print(Arr(objs), l)[..len])
    ensures ParsedArray(prose + Print(Arr(objs), l)[..len], loads) == objs[..Whole(objs, l, len)]
  {
    hide *;
    var printed := Print(Arr(objs), l);
    var x := printed[..len];
    CutStarts(objs, l, len);
    ReadsBackBoth(loads, l, objs);
    CleanedCut(prose, x);
    var kept := |TrimRight(x, IsSpace)|;
    PrefixOfCut(TrimRight(x, IsSpace), printed, len);
    TrimmingKeepsWhole(objs, l, len, kept);
    if kept < |printed| {
      var lead := TrimLeft(prose, IsSpace);
      CutArrayIsNotBalanced(lead, objs, l, kept);
      ParsedRecovers(prose + x, lead + printed[..kept], loads);
      CutArrayRecovers(lead, objs, l, kept, loads);
    } else {
      assert x == printed;
      UncutArrayParses(prose, objs, l, loads);
      AllAreWhole(objs, l);
    }
  }

  lemma CutBeforeArray(text: string, loads: Loads)
    requires '[' !in text && NoFence(text)
    ensures ParsedArray(text, loads) == []
  {
    hide NoFence, IsSpace, TrimLeft, TrimRight, RemoveFences, Recovered;
    var left := TrimLeft(text, IsSpace);
    var cleaned := TrimRight(left, IsSpace);
    TrimmedProse(text);
    assert '[' !in cleaned;
    FindNothing(cleaned, '[');
    TrimLeftIsSuffix(text, IsSpace);
    InnerPartHasNoFence("", "", left, cleaned) by {
      PartHasNoFence(text, |text| - |left|, |text|);
      assert "" + left == text[|text| - |left|..|text|];
    }
    assert "" + cleaned == cleaned;
    NothingToRemove(cleaned);
  }

  lemma AllAreWhole(objs: seq<Json>, l: Layout)
    ensures Whole(objs, l, |Print(Arr(objs), l)|) == |objs|
  {
    WholeCounts(objs, l, |Print(Arr(objs), l)|);
    forall k | 0 <= k < |objs|
      ensures TextEnd(objs, l, k) <= |Print(Arr(objs), l)|
    {
      ObjectTextIsThere(objs, l, k);
    }
    WholeStops(objs, l, |Print(Arr(objs), l)|);
  }
}
