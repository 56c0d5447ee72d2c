/** What the history sent with a request promises about tool pairs, tokens and roles. */
module ConversationContext {
  import opened Options
  import opened ConversationHistory

  // ---------- tool pairs ----------

  /** Every tool use is answered by the next message, and every result answers the one before. */
  ghost predicate WellPaired(h: seq<Message>) {
    && (forall i :: 0 <= i < |h| && UsesOf(h[i]) != [] ==> i + 1 < |h| && Answers(h[i], h[i + 1]))
    && (forall i :: 0 <= i < |h| && IsToolResultMessage(h[i]) ==> i > 0 && UsesOf(h[i - 1]) != [])
  }

  lemma ResultIdsFound(blocks: seq<Block>)
    requires ResultIds(blocks) != []
    ensures exists b :: b in blocks && b.ToolResult?
  {
    if blocks[0].ToolResult? {
      assert blocks[0] in blocks;
    } else {
      ResultIdsFound(blocks[1..]);
      var b :| b in blocks[1..] && b.ToolResult?;
      assert b in blocks;
    }
  }

  lemma AnswerIsResult(use: Message, result: Message)
    requires Answers(use, result)
    ensures IsToolResultMessage(result) && UsesOf(result) == [] && !IsToolResultMessage(use)
  {
    ResultIdsFound(result.content.blocks);
  }

  lemma PlainInFront(m: Message, rest: seq<Message>)
    requires WellPaired(rest) && UsesOf(m) == [] && !IsToolResultMessage(m)
    ensures WellPaired([m] + rest)
  {
    hide UsesOf, Answers, IsToolResultMessage;
    var h := [m] + rest;
    forall i | 0 <= i < |h|
      ensures UsesOf(h[i]) != [] ==> i + 1 < |h| && Answers(h[i], h[i + 1])
      ensures IsToolResultMessage(h[i]) ==> i > 0 && UsesOf(h[i - 1]) != []
    {
      if i > 0 {
        assert h[i] == rest[i - 1];
        assert i + 1 < |h| ==> h[i + 1] == rest[i];
        assert i > 1 ==> h[i - 1] == rest[i - 2];
      }
    }
  }

  lemma PairInFront(use: Message, result: Message, rest: seq<Message>)
    requires WellPaired(rest) && Answers(use, result)
    ensures WellPaired([use, result] + rest)
  {
    AnswerIsResult(use, result);
    assert UsesOf(use) != [];
    hide UsesOf, Answers, IsToolResultMessage;
    var h := [use, result] + rest;
    forall i | 0 <= i < |h|
      ensures UsesOf(h[i]) != [] ==> i + 1 < |h| && Answers(h[i], h[i + 1])
      ensures IsToolResultMessage(h[i]) ==> i > 0 && UsesOf(h[i - 1]) != []
    {
      if i > 1 {
        assert h[i] == rest[i - 2];
        assert i + 1 < |h| ==> h[i + 1] == rest[i - 1];
        assert i > 2 ==> h[i - 1] == rest[i - 3];
      }
    }
  }

  /** Whatever was in the history, only whole tool pairs survive the cleaning. */
  lemma {:induction false} CleanIsWellPaired(h: seq<Message>)
    ensures WellPaired(Clean(h))
    decreases |h|
  {
    hide UsesOf, Answers, IsToolResultMessage;
    if h != [] {
      var m := h[0];
      if UsesOf(m) != [] {
        if |h| > 1 && Answers(m, h[1]) {
          CleanIsWellPaired(h[2..]);
          PairInFront(m, h[1], Clean(h[2..]));
        } else if |h| > 1 && IsToolResultMessage(h[1]) {
          CleanIsWellPaired(h[2..]);
        } else {
          CleanIsWellPaired(h[1..]);
        }
      } else {
        CleanIsWellPaired(h[1..]);
        if !IsToolResultMessage(m) {
          PlainInFront(m, Clean(h[1..]));
        }
      }
    }
  }

  predicate IsPlain(m: Message) {
    UsesOf(m) == [] && !IsToolResultMessage(m)
  }

  function PlainOf(h: seq<Message>): seq<Message> {
    if h == [] then [] else (if IsPlain(h[0]) then [h[0]] else []) + PlainOf(h[1..])
  }

  /** Cleaning drops tool messages only; every other message stays, in order. */
  lemma {:induction false} CleanKeepsPlain(h: seq<Message>)
    ensures PlainOf(Clean(h)) == PlainOf(h)
    decreases |h|
  {
    hide UsesOf, Answers, IsToolResultMessage;
    if h != [] {
      var m := h[0];
      if UsesOf(m) != [] {
        if |h| > 1 && (Answers(m, h[1]) || IsToolResultMessage(h[1])) {
          CleanKeepsPlain(h[2..]);
          assert h[1..][1..] == h[2..];
          if Answers(m, h[1]) {
            AnswerIsResult(m, h[1]);
            var pair := [m, h[1]] + Clean(h[2..]);
            assert pair[1..][1..] == Clean(h[2..]) && pair[1..][0] == h[1];
          }
        } else {
          CleanKeepsPlain(h[1..]);
        }
      } else {
        CleanKeepsPlain(h[1..]);
        if !IsToolResultMessage(m) {
          assert ([m] + Clean(h[1..]))[1..] == Clean(h[1..]);
        }
      }
    }
  }

  lemma WellPairedTail(h: seq<Message>, k: nat)
    requires WellPaired(h) && k <= |h| && (k < |h| ==> !IsToolResultMessage(h[k]))
    ensures WellPaired(h[k..])
  {
    hide UsesOf, Answers, IsToolResultMessage;
    var t := h[k..];
    forall i | 0 <= i < |t|
      ensures UsesOf(t[i]) != [] ==> i + 1 < |t| && Answers(t[i], t[i + 1])
      ensures IsToolResultMessage(t[i]) ==> i > 0 && UsesOf(t[i - 1]) != []
    {
      assert t[i] == h[k + i];
    }
  }

  lemma NoResultBehindPlain(h: seq<Message>, i: nat)
    requires WellPaired(h) && 0 < i < |h| && UsesOf(h[i - 1]) == []
    ensures !IsToolResultMessage(h[i])
  {
    hide UsesOf, Answers, IsToolResultMessage;
  }

  /** A history of whole pairs is left alone. */
  lemma {:induction false} CleanKeepsWellPaired(h: seq<Message>)
    requires WellPaired(h)
    ensures Clean(h) == h
    decreases |h|
  {
    hide UsesOf, Answers, IsToolResultMessage;
    if h != [] {
      if UsesOf(h[0]) != [] {
        AnswerIsResult(h[0], h[1]);
        if |h| > 2 {
          NoResultBehindPlain(h, 2);
        }
        WellPairedTail(h, 2);
        assert Clean(h) == [h[0], h[1]] + Clean(h[2..]);
        hide *;
        CleanKeepsWellPaired(h[2..]);
        assert [h[0], h[1]] + h[2..] == h;
      } else {
        if |h| > 1 {
          NoResultBehindPlain(h, 1);
        }
        WellPairedTail(h, 1);
        assert Clean(h) == [h[0]] + Clean(h[1..]);
        hide *;
        CleanKeepsWellPaired(h[1..]);
        assert [h[0]] + h[1..] == h;
      }
    }
  }

  // ---------- the token budget ----------

  /** What the messages cost once they are compacted. */
  function Cost(h: seq<Message>, size: BlockSize): nat {
    EstimateTokens(CompactAll(h), size)
  }

  lemma {:induction false} TokensAdd(a: seq<Message>, b: seq<Message>, size: BlockSize)
    ensures EstimateTokens(a + b, size) == EstimateTokens(a, size) + EstimateTokens(b, size)
  {
    if a == [] {
      assert a + b == b;
    } else {
      assert (a + b)[1..] == a[1..] + b;
      TokensAdd(a[1..], b, size);
    }
  }

  lemma CompactSplits(h: seq<Message>, j: nat, k: nat)
    requires j <= k <= |h|
    ensures CompactAll(h[j..]) == CompactAll(h[..k][j..]) + CompactAll(h[k..])
  {
  }

  lemma CostAdds(h: seq<Message>, j: nat, k: nat, size: BlockSize)
    requires j <= k <= |h|
    ensures Cost(h[j..], size) == Cost(h[..k][j..], size) + Cost(h[k..], size)
  {
    CompactSplits(h, j, k);
    TokensAdd(CompactAll(h[..k][j..]), CompactAll(h[k..]), size);
  }

  /** A place between two groups. */
  predicate IsBoundary(h: seq<Message>, k: int) {
    0 <= k <= |h| && (k < |h| ==> !IsToolResultMessage(h[k]))
  }

  lemma WellPairedHead(h: seq<Message>, k: nat)
    requires WellPaired(h) && IsBoundary(h, k)
    ensures WellPaired(h[..k])
  {
    hide UsesOf, Answers, IsToolResultMessage;
    var t := h[..k];
    forall i | 0 <= i < |t| && UsesOf(t[i]) != []
      ensures i + 1 < |t| && Answers(t[i], t[i + 1])
    {
      assert t[i] == h[i];
      AnswerIsResult(h[i], h[i + 1]);
      assert i + 1 != k;
      assert t[i + 1] == h[i + 1];
    }
    forall i | 0 <= i < |t| && IsToolResultMessage(t[i])
      ensures i > 0 && UsesOf(t[i - 1]) != []
    {
      assert t[i] == h[i] && i > 0 && t[i - 1] == h[i - 1];
    }
  }

  lemma NewestGroup(h: seq<Message>)
    requires WellPaired(h) && h != []
    ensures GroupSize(h) <= |h|
    ensures var from := |h| - GroupSize(h);
            && IsBoundary(h, from) && WellPaired(h[..from])
            && forall j :: IsBoundary(h, j) && j < |h| ==> j <= from
  {
    hide UsesOf, Answers, IsToolResultMessage;
    var from := |h| - GroupSize(h);
    if GroupSize(h) == 2 {
      AnswerIsResult(h[from], h[from + 1]);
    }
    WellPairedHead(h, from);
  }

  lemma BoundaryOfHead(h: seq<Message>, from: nat, j: nat)
    requires from <= |h| && IsBoundary(h, from)
    ensures j < from ==> (IsBoundary(h[..from], j) <==> IsBoundary(h, j))
  {
    hide UsesOf, Answers, IsToolResultMessage;
    assert j < from ==> h[..from][j] == h[j];
  }

  /** One more group in front of what is selected already. */
  lemma SelectedTakesGroup(h: seq<Message>, used: nat, any: bool, budget: int, size: BlockSize)
    requires h != [] && GroupSize(h) <= |h|
    ensures var from := |h| - GroupSize(h);
            var cost := Cost(h[from..], size);
            Selected(h, used, any, budget, size) ==
            if any && used + cost > budget then []
            else Selected(h[..from], used + cost, true, budget, size) + CompactAll(h[from..])
  {
    hide UsesOf, Answers, IsToolResultMessage;
  }

  /** The selection from `h` reaches back to `k`: everything from there fits, nothing more would. */
  ghost predicate ReachesBack(h: seq<Message>, k: nat, used: nat, budget: int, size: BlockSize) {
    && IsBoundary(h, k)
    && (k < |h| ==> used + Cost(h[k..], size) <= budget)
    && (forall j :: IsBoundary(h, j) && j < k ==> used + Cost(h[j..], size) > budget)
  }

  lemma NothingCosts(h: seq<Message>, size: BlockSize)
    ensures Cost(h[|h|..], size) == 0 && CompactAll(h[|h|..]) == [] && IsBoundary(h, |h|)
  {
  }

  /** When the newest group fits, selecting goes on in front of it. */
  lemma ReachesFurther(h: seq<Message>, from: nat, k: nat, used: nat, budget: int, size: BlockSize)
    requires IsBoundary(h, from) && from < |h| && k <= from
    requires ReachesBack(h[..from], k, used + Cost(h[from..], size), budget, size)
    ensures IsBoundary(h, k)
    ensures used + Cost(h[from..], size) <= budget ==> used + Cost(h[k..], size) <= budget
    ensures k < from ==> used + Cost(h[k..], size) <= budget
    ensures forall j :: IsBoundary(h, j) && j < k ==> used + Cost(h[j..], size) > budget
  {
    BoundaryOfHead(h, from, k);
    NothingCosts(h[..from], size);
    CostAdds(h, k, from, size);
    hide Cost, IsBoundary;
    forall j | IsBoundary(h, j) && j < k
      ensures used + Cost(h[j..], size) > budget
    {
      BoundaryOfHead(h, from, j);
      CostAdds(h, j, from, size);
    }
  }

  /** When the newest group does not fit, nothing is selected. */
  lemma ReachesNowhere(h: seq<Message>, from: nat, used: nat, budget: int, size: BlockSize)
    requires from <= |h| && used + Cost(h[from..], size) > budget
    requires forall j :: IsBoundary(h, j) && j < |h| ==> j <= from
    ensures ReachesBack(h, |h|, used, budget, size)
  {
    hide Cost;
    forall j | IsBoundary(h, j) && j < |h|
      ensures used + Cost(h[j..], size) > budget
    {
      CostAdds(h, j, from, size);
    }
  }

  lemma ShowReach(h: seq<Message>, k: nat, used: nat, budget: int, size: BlockSize)
    requires IsBoundary(h, k) && used + Cost(h[k..], size) <= budget
    requires forall j :: IsBoundary(h, j) && j < k ==> used + Cost(h[j..], size) > budget
    ensures ReachesBack(h, k, used, budget, size)
  {
  }

  /** Where the selection loop stops. */
  function Reach(h: seq<Message>, used: nat, any: bool, budget: int, size: BlockSize): (k: nat)
    ensures k <= |h|
    decreases |h|
  {
    if h == [] || GroupSize(h) > |h| then |h|
    else
      var from := |h| - GroupSize(h);
      var cost := Cost(h[from..], size);
      if any && used + cost > budget then |h| else Reach(h[..from], used + cost, true, budget, size)
  }

  lemma ReachUnfolds(h: seq<Message>, used: nat, any: bool, budget: int, size: BlockSize)
    requires h != [] && GroupSize(h) <= |h|
    ensures var from := |h| - GroupSize(h);
            var cost := Cost(h[from..], size);
            from < |h| &&
            Reach(h, used, any, budget, size) ==
            if any && used + cost > budget then |h| else Reach(h[..from], used + cost, true, budget, size)
  {
    hide Cost, IsToolResultMessage;
  }

  lemma NothingToReach(used: nat, any: bool, budget: int, size: BlockSize)
    ensures Reach([], used, any, budget, size) == 0
    ensures Selected([], used, any, budget, size) == [] && CompactAll([]) == []
    ensures ReachesBack([], 0, used, budget, size)
  {
  }

  /** The loop returns the compacted messages from there on. */
  lemma {:induction false} SelectedFromReach(h: seq<Message>, used: nat, any: bool, budget: int, size: BlockSize)
    requires WellPaired(h)
    ensures Selected(h, used, any, budget, size) == CompactAll(h[Reach(h, used, any, budget, size)..])
    decreases |h|
  {
    hide *;
    if h == [] {
      NothingToReach(used, any, budget, size);
      assert h[0..] == [];
    } else {
      NewestGroup(h);
      SelectedTakesGroup(h, used, any, budget, size);
      ReachUnfolds(h, used, any, budget, size);
      var from := |h| - GroupSize(h);
      var cost := Cost(h[from..], size);
      if any && used + cost > budget {
        NothingCosts(h, size);
      } else {
        SelectedFromReach(h[..from], used + cost, true, budget, size);
        CompactSplits(h, Reach(h, used, any, budget, size), from);
      }
    }
  }

  /** And that is as far as the budget goes, when `used` tokens are spent already. */
  lemma {:induction false} ReachIsFarthest(h: seq<Message>, used: nat, budget: int, size: BlockSize)
    requires WellPaired(h)
    ensures ReachesBack(h, Reach(h, used, true, budget, size), used, budget, size)
    decreases |h|
  {
    hide *;
    if h == [] {
      NothingToReach(used, true, budget, size);
    } else {
      NewestGroup(h);
      ReachUnfolds(h, used, true, budget, size);
      var from := |h| - GroupSize(h);
      var cost := Cost(h[from..], size);
      if used + cost > budget {
        ReachesNowhere(h, from, used, budget, size);
      } else {
        var k := Reach(h, used, true, budget, size);
        ReachIsFarthest(h[..from], used + cost, budget, size);
        ReachesFurther(h, from, k, used, budget, size);
        ShowReach(h, k, used, budget, size);
      }
    }
  }

  /**
   The context is the longest suffix of whole groups of the cleaned history that fits the budget, or
   the newest group alone when that is already too much; in it, too, every tool use is answered by
   the next message and every result answers the one before.
   */
  lemma ContextIsLongestFit(messages: seq<Message>, budget: int, toolBlocks: bool, size: BlockSize)
    ensures var h := Clean(if toolBlocks then messages else DropTools(messages, [], false));
            var k := Reach(h, 0, false, budget, size);
            var context := ForContext(messages, budget, toolBlocks, size);
            && IsBoundary(h, k) && context == CompactAll(h[k..])
            && WellPaired(context)
            && (h != [] ==> k < |h|)
            && (h != [] && Cost(h[k..], size) > budget ==> |h| - k == GroupSize(h))
            && (forall j :: IsBoundary(h, j) && j < k ==> Cost(h[j..], size) > budget)
  {
    var h := Clean(if toolBlocks then messages else DropTools(messages, [], false));
    CleanIsWellPaired(if toolBlocks then messages else DropTools(messages, [], false));
    SelectedFromReach(h, 0, false, budget, size);
    FirstGroupIsTaken(h, budget, size);
    hide Reach, Selected, Cost, CompactAll, WellPaired;
    WellPairedTail(h, Reach(h, 0, false, budget, size));
    CompactKeepsPairs(h[Reach(h, 0, false, budget, size)..]);
  }

  lemma FirstGroupIsTaken(h: seq<Message>, budget: int, size: BlockSize)
    requires WellPaired(h)
    ensures var k := Reach(h, 0, false, budget, size);
            && IsBoundary(h, k)
            && (h != [] ==> k < |h|)
            && (h != [] && Cost(h[k..], size) > budget ==> |h| - k == GroupSize(h))
            && (forall j :: IsBoundary(h, j) && j < k ==> Cost(h[j..], size) > budget)
  {
    hide *;
    if h == [] {
      NothingToReach(0, false, budget, size);
      NothingCosts(h, size);
    } else {
      NewestGroup(h);
      ReachUnfolds(h, 0, false, budget, size);
      var from := |h| - GroupSize(h);
      ReachIsFarthest(h[..from], Cost(h[from..], size), budget, size);
      ReachesFurther(h, from, Reach(h, 0, false, budget, size), 0, budget, size);
    }
  }

  /** Shortening long texts touches no tool block. */
  lemma CompactKeepsPairs(h: seq<Message>)
    requires WellPaired(h)
    ensures WellPaired(CompactAll(h))
  {
    var c := CompactAll(h);
    forall i | 0 <= i < |h|
      ensures UsesOf(c[i]) == UsesOf(h[i]) && ResultsOf(c[i]) == ResultsOf(h[i])
      ensures IsToolResultMessage(c[i]) <==> IsToolResultMessage(h[i])
    {
    }
    forall i | 0 <= i < |c|
      ensures UsesOf(c[i]) != [] ==> i + 1 < |c| && Answers(c[i], c[i + 1])
      ensures IsToolResultMessage(c[i]) ==> i > 0 && UsesOf(c[i - 1]) != []
    {
    }
  }

  // ---------- providers without tool blocks ----------

  predicate Alternates(h: seq<Message>) {
    forall i :: 0 <= i < |h| - 1 ==> h[i].role != h[i + 1].role
  }

  predicate OthersAreTexts(h: seq<Message>) {
    forall i :: 0 <= i < |h| ==> HasToolBlocks(h[i]) || h[i].content.Text?
  }

  predicate AllTexts(h: seq<Message>) {
    forall i :: 0 <= i < |h| ==> h[i].content.Text?
  }

  lemma {:induction false} DropToolsAlternates(h: seq<Message>, kept: seq<Message>, dropped: bool)
    requires Alternates(h) && OthersAreTexts(h) && Alternates(kept) && AllTexts(kept)
    requires !dropped && kept != [] && h != [] ==> kept[|kept| - 1].role != h[0].role
    ensures Alternates(DropTools(h, kept, dropped)) && AllTexts(DropTools(h, kept, dropped))
    decreases |h|
  {
    if h != [] {
      assert Alternates(h[1..]) && OthersAreTexts(h[1..]);
      if HasToolBlocks(h[0]) {
        DropToolsAlternates(h[1..], kept, true);
      } else {
        var next := KeepOne(kept, h[0], dropped);
        assert next[|next| - 1].role == h[0].role;
        assert Alternates(next) && AllTexts(next);
        DropToolsAlternates(h[1..], next, false);
      }
    }
  }

  /** The texts of a history, in order, with blank lines between them. */
  function Joined(h: seq<Message>): string
    requires AllTexts(h)
  {
    if h == [] then "" else if |h| == 1 then h[0].content.text
    else Joined(h[..|h| - 1]) + "\n\n" + h[|h| - 1].content.text
  }

  function WithoutTools(h: seq<Message>): (r: seq<Message>)
    ensures OthersAreTexts(h) ==> AllTexts(r)
  {
    if h == [] then []
    else (if HasToolBlocks(h[0]) then [] else [h[0]]) + WithoutTools(h[1..])
  }

  lemma JoinedMerges(kept: seq<Message>, m: Message)
    requires AllTexts(kept) && m.content.Text? && kept != []
    ensures var last := kept[|kept| - 1];
            var merged := kept[..|kept| - 1] + [Message(m.role, Text(last.content.text + "\n\n" + m.content.text))];
            AllTexts(kept + [m]) && AllTexts(merged) && Joined(merged) == Joined(kept + [m])
  {
    var last := kept[|kept| - 1];
    var merged := kept[..|kept| - 1] + [Message(m.role, Text(last.content.text + "\n\n" + m.content.text))];
    assert (kept + [m])[..|kept|] == kept && merged[..|kept| - 1] == kept[..|kept| - 1];
    if |kept| > 1 {
      var a, b, c := Joined(kept[..|kept| - 1]), last.content.text, m.content.text;
      assert a + "\n\n" + b + "\n\n" + c == a + "\n\n" + (b + "\n\n" + c);
    }
  }

  /** Two histories that read the same so far still do after the same message. */
  lemma JoinedAppends(a: seq<Message>, b: seq<Message>, tail: seq<Message>)
    requires AllTexts(a) && AllTexts(b) && AllTexts(tail)
    requires Joined(a) == Joined(b) && (a == [] <==> b == [])
    ensures AllTexts(a + tail) && AllTexts(b + tail) && Joined(a + tail) == Joined(b + tail)
    decreases |tail|
  {
    if tail == [] {
      assert a + tail == a && b + tail == b;
    } else {
      var front, m := tail[..|tail| - 1], tail[|tail| - 1];
      assert tail == front + [m];
      hide Joined;
      JoinedAppends(a, b, front);
      JoinedSnoc(a + front, m);
      JoinedSnoc(b + front, m);
      Regroup(a, front, [m]);
      Regroup(b, front, [m]);
    }
  }

  lemma JoinedSnoc(h: seq<Message>, m: Message)
    requires AllTexts(h) && m.content.Text?
    ensures AllTexts(h + [m])
    ensures Joined(h + [m]) == if h == [] then m.content.text else Joined(h) + "\n\n" + m.content.text
  {
    assert (h + [m])[..|h|] == h;
  }

  lemma {:induction false} DropToolsKeepsTexts(h: seq<Message>, kept: seq<Message>, dropped: bool)
    requires OthersAreTexts(h) && AllTexts(kept)
    ensures AllTexts(DropTools(h, kept, dropped)) && AllTexts(kept + WithoutTools(h))
    ensures Joined(DropTools(h, kept, dropped)) == Joined(kept + WithoutTools(h))
    decreases |h|
  {
    if h == [] {
      assert kept + WithoutTools(h) == kept;
    } else if HasToolBlocks(h[0]) {
      DropToolsKeepsTexts(h[1..], kept, true);
      assert WithoutTools(h) == WithoutTools(h[1..]);
    } else {
      KeepingKeepsTexts(kept, h[0], dropped);
      var next, rest := KeepOne(kept, h[0], dropped), WithoutTools(h[1..]);
      assert WithoutTools(h) == [h[0]] + rest;
      hide *;
      DropToolsKeepsTexts(h[1..], next, false);
      JoinedAppends(next, kept + [h[0]], rest);
      Regroup(kept, [h[0]], rest);
    }
  }

  lemma Regroup<T>(a: seq<T>, b: seq<T>, c: seq<T>)
    ensures a + b + c == a + (b + c)
  {
  }

  lemma KeepingKeepsTexts(kept: seq<Message>, m: Message, dropped: bool)
    requires AllTexts(kept) && m.content.Text?
    ensures var next := KeepOne(kept, m, dropped);
            next != [] && AllTexts(next) && AllTexts(kept + [m]) && Joined(next) == Joined(kept + [m])
  {
    if kept != [] {
      JoinedMerges(kept, m);
    }
  }

  lemma {:induction false} CleanKeepsTexts(h: seq<Message>)
    requires AllTexts(h)
    ensures Clean(h) == h
  {
    CleanKeepsWellPaired(h);
  }

  /**
   Leaving out the tool messages of an alternating conversation leaves an alternating one, from
   which no other text is missing and in which the order of the texts is unchanged.
   */
  lemma DroppingToolsKeepsAlternation(messages: seq<Message>)
    requires Alternates(messages) && OthersAreTexts(messages)
    ensures var h := Clean(DropTools(messages, [], false));
            && Alternates(h) && AllTexts(h) && AllTexts(WithoutTools(messages))
            && Joined(h) == Joined(WithoutTools(messages))
  {
    DropToolsAlternates(messages, [], false);
    DropToolsKeepsTexts(messages, [], false);
    CleanKeepsTexts(DropTools(messages, [], false));
    assert [] + WithoutTools(messages) == WithoutTools(messages);
  }

  // ---------- the stored history ----------

  /** No stored result without the tool use before it. */
  predicate NoOrphans(h: seq<Message>) {
    forall i :: 0 <= i < |h| && IsToolResultMessage(h[i]) ==> i > 0 && UsesOf(h[i - 1]) != []
  }

  lemma {:induction false} LeadingResultsGo(h: seq<Message>) returns (k: nat)
    ensures k <= |h| && WithoutLeadingResults(h) == h[k..]
    ensures k < |h| ==> !IsToolResultMessage(h[k])
    ensures forall i :: 0 <= i < k ==> IsToolResultMessage(h[i])
  {
    hide UsesOf, Answers, IsToolResultMessage;
    if h != [] && IsToolResultMessage(h[0]) {
      k := LeadingResultsGo(h[1..]);
      assert h[1..][k..] == h[k + 1..];
      assert forall i :: 1 <= i < k + 1 ==> h[i] == h[1..][i - 1];
      k := k + 1;
    } else {
      k := 0;
      assert h[0..] == h;
    }
  }

  /** Trimming never leaves a result whose tool use was trimmed away. */
  lemma AddingKeepsNoOrphans(h: seq<Message>, m: Message, max: nat)
    requires NoOrphans(h)
    requires IsToolResultMessage(m) ==> h != [] && UsesOf(h[|h| - 1]) != []
    ensures NoOrphans(Added(h, m, max))
    ensures max > 0 ==> |Added(h, m, max)| <= 2 * max
    ensures exists k :: 0 <= k <= |h| + 1 && Added(h, m, max) == (h + [m])[k..]
  {
    hide UsesOf, Answers, IsToolResultMessage;
    var all := h + [m];
    var cut := if |all| > max * 2 && max > 0 then |all| - max * 2 else 0;
    assert all[0..] == all;
    var k := LeadingResultsGo(all[cut..]);
    assert all[cut..][k..] == all[cut + k..];
    var r := all[cut + k..];
    forall i | 0 <= i < |r| && IsToolResultMessage(r[i])
      ensures i > 0 && UsesOf(r[i - 1]) != []
    {
      assert r[i] == all[cut + k + i];
    }
  }
}
