/** What is sent with a request, message by message, and which messages of the history are left out. */
module SentContext {
  import opened ConversationHistory
  import opened ConversationContext

  // ---------- what becomes of one message ----------

  predicate IsDigit(c: char) {
    '0' <= c <= '9'
  }

  /** The number a row of decimal digits stands for. */
  function ValueOf(digits: string): int {
    if digits == "" then 0
    else 10 * ValueOf(digits[..|digits| - 1]) + (digits[|digits| - 1] as int - '0' as int)
  }

  /** The usual decimal notation: digits only, no leading zero. */
  predicate IsDecimal(digits: string, n: nat) {
    && digits != "" && (forall c :: c in digits ==> IsDigit(c)) && ValueOf(digits) == n
    && (|digits| > 1 ==> digits[0] != '0')
  }

  lemma DigitOf(n: nat)
    requires n < 10
    ensures "0123456789"[n] as int == '0' as int + n && IsDigit("0123456789"[n])
    ensures n > 0 ==> "0123456789"[n] != '0'
  {
  }

  lemma {:induction false} DigitsAreDecimal(n: nat)
    ensures IsDecimal(Digits(n), n)
    ensures n > 0 ==> Digits(n)[0] != '0'
  {
    DigitOf(n % 10);
    if n < 10 {
      assert Digits(n)[..0] == "";
    } else {
      DigitsAreDecimal(n / 10);
      assert Digits(n)[..|Digits(n)| - 1] == Digits(n / 10);
    }
  }

  /** A text of more than 2000 characters is replaced by a note of its length; nothing else is changed. */
  ghost predicate IsSentAs(m: Message, sent: Message) {
    && sent.role == m.role
    && if m.content.Text? && |m.content.text| > 2000 then
         exists digits :: sent.content == Text("[도구 결과 요약: " + digits + "자]")
                          && IsDecimal(digits, |m.content.text|)
       else sent.content == m.content
  }

  lemma CompactSays(m: Message)
    ensures IsSentAs(m, Compact(m))
  {
    if m.content.Text? {
      DigitsAreDecimal(|m.content.text|);
    }
  }

  /**
   The context is the end of the cleaned history, message by message: every message has its role and its
   content, except that an overlong text is replaced by a note of its length.
   */
  lemma ContextSays(messages: seq<Message>, budget: int, toolBlocks: bool, size: BlockSize) returns (k: nat)
    ensures var h := Clean(if toolBlocks then messages else DropTools(messages, [], false));
            var context := ForContext(messages, budget, toolBlocks, size);
            && k + |context| == |h|
            && (h != [] ==> context != [])
            && forall i :: 0 <= i < |context| ==> IsSentAs(h[k + i], context[i])
  {
    hide IsSentAs, WellPaired, Cost, IsBoundary, Clean, DropTools, ForContext, Reach;
    var h := Clean(if toolBlocks then messages else DropTools(messages, [], false));
    k := Reach(h, 0, false, budget, size);
    ContextIsLongestFit(messages, budget, toolBlocks, size);
    forall i | 0 <= i < |h| - k
      ensures IsSentAs(h[k + i], CompactAll(h[k..])[i])
    {
      CompactSays(h[k + i]);
    }
  }

  /** The length the estimate goes by. */
  function LengthOf(m: Message, size: BlockSize): nat {
    match m.content
    case Text(t) => |t|
    case Blocks(b) => size(b)
    case NoContent => 0
  }

  /** A message costs a third of its length, rounded down, but one token at least. */
  lemma TokensExactly(m: Message, size: BlockSize)
    ensures var tokens := TokensOf(m, size);
            && tokens >= 1
            && (tokens == 1 ==> LengthOf(m, size) <= 5)
            && (tokens > 1 ==> 3 * tokens <= LengthOf(m, size) <= 3 * tokens + 2)
  {
  }

  /** And several cost the sum. */
  lemma EstimateExactly(m: Message, rest: seq<Message>, size: BlockSize)
    ensures EstimateTokens([], size) == 0 && EstimateTokens([m], size) == TokensOf(m, size)
    ensures EstimateTokens([m] + rest, size) == TokensOf(m, size) + EstimateTokens(rest, size)
  {
    TokensAdd([m], rest, size);
    assert [m][1..] == [];
    assert EstimateTokens([m], size) == TokensOf(m, size) + EstimateTokens([], size);
  }

  // ---------- which messages survive the cleaning ----------

  /** A message without tool use or result, or one half of a pair that belongs together. */
  predicate Stays(h: seq<Message>, i: nat)
    requires i < |h|
  {
    || IsPlain(h[i])
    || (i + 1 < |h| && Answers(h[i], h[i + 1]))
    || (i > 0 && Answers(h[i - 1], h[i]))
  }

  function Staying(h: seq<Message>, i: nat): seq<Message>
    requires i <= |h|
    decreases |h| - i
  {
    if i == |h| then [] else (if Stays(h, i) then [h[i]] else []) + Staying(h, i + 1)
  }

  /** Not between the two halves of a pair. */
  predicate StartsFresh(h: seq<Message>, i: nat) {
    0 < i < |h| ==> !Answers(h[i - 1], h[i])
  }

  lemma StayingUnfolds(h: seq<Message>, i: nat)
    requires i < |h|
    ensures Staying(h, i) == (if Stays(h, i) then [h[i]] else []) + Staying(h, i + 1)
    ensures Staying(h, |h|) == []
  {
  }

  lemma AnsweredStay(h: seq<Message>, i: nat)
    requires i + 1 < |h| && Answers(h[i], h[i + 1])
    ensures Stays(h, i) && Stays(h, i + 1)
  {
  }

  lemma FreshBehindResult(h: seq<Message>, i: nat)
    requires i < |h| && UsesOf(h[i]) == []
    ensures StartsFresh(h, i + 1)
  {
    if i + 1 < |h| {
      UsesDiffer(h, i);
    }
    hide Answers, UsesOf;
  }

  lemma PairStays(h: seq<Message>, i: nat)
    requires i + 1 < |h| && Answers(h[i], h[i + 1])
    ensures Staying(h, i) == [h[i], h[i + 1]] + Staying(h, i + 2) && StartsFresh(h, i + 2)
  {
    hide *;
    AnswerIsResult(h[i], h[i + 1]);
    AnsweredStay(h, i);
    StayingUnfolds(h, i);
    StayingUnfolds(h, i + 1);
    FreshBehindResult(h, i + 1);
    assert [h[i]] + ([h[i + 1]] + Staying(h, i + 2)) == [h[i], h[i + 1]] + Staying(h, i + 2);
  }

  lemma UsesDiffer(h: seq<Message>, i: nat)
    requires i + 1 < |h| && UsesOf(h[i]) == []
    ensures !Answers(h[i], h[i + 1])
  {
  }

  lemma LoneUseGoes(h: seq<Message>, i: nat)
    requires i < |h| && StartsFresh(h, i) && UsesOf(h[i]) != []
    requires i + 1 < |h| ==> !Answers(h[i], h[i + 1])
    ensures Staying(h, i) == Staying(h, i + 1) && StartsFresh(h, i + 1)
  {
    StayingUnfolds(h, i);
    hide Answers, Staying, UsesOf, IsToolResultMessage;
  }

  lemma LoneResultGoes(h: seq<Message>, i: nat)
    requires i < |h| && StartsFresh(h, i) && IsToolResultMessage(h[i])
    ensures Staying(h, i) == Staying(h, i + 1) && StartsFresh(h, i + 1)
  {
    StayingUnfolds(h, i);
    hide Staying;
    assert UsesOf(h[i]) == [];
  }

  lemma PlainStays(h: seq<Message>, i: nat)
    requires i < |h| && IsPlain(h[i])
    ensures Staying(h, i) == [h[i]] + Staying(h, i + 1) && StartsFresh(h, i + 1)
  {
    StayingUnfolds(h, i);
    hide Staying;
  }

  lemma {:induction false} CleanFrom(h: seq<Message>, i: nat)
    requires i <= |h| && StartsFresh(h, i)
    ensures Clean(h[i..]) == Staying(h, i)
    decreases |h| - i
  {
    hide UsesOf, Answers, IsToolResultMessage, Clean, Staying, StartsFresh, Stays;
    if i == |h| {
      CleanOfNothing();
      assert h[i..] == [] && Staying(h, i) == [] by { StayingEnds(h); }
    } else {
      CleanTurn(h, i, []);
      NothingInFront(Clean(h[i..]));
      if UsesOf(h[i]) != [] {
        if i + 1 < |h| && Answers(h[i], h[i + 1]) {
          PairStays(h, i);
          CleanFrom(h, i + 2);
          assert [] + [h[i], h[i + 1]] == [h[i], h[i + 1]];
        } else {
          LoneUseGoes(h, i);
          if i + 1 < |h| && IsToolResultMessage(h[i + 1]) {
            LoneResultGoes(h, i + 1);
            CleanFrom(h, i + 2);
            NothingInFront(Clean(h[i + 2..]));
          } else {
            CleanFrom(h, i + 1);
            NothingInFront(Clean(h[i + 1..]));
          }
        }
      } else if IsToolResultMessage(h[i]) {
        LoneResultGoes(h, i);
        CleanFrom(h, i + 1);
        NothingInFront(Clean(h[i + 1..]));
      } else {
        PlainStays(h, i);
        CleanFrom(h, i + 1);
        assert [] + [h[i]] == [h[i]];
      }
    }
  }

  lemma StayingEnds(h: seq<Message>)
    ensures Staying(h, |h|) == [] && h[|h|..] == []
  {
  }

  lemma NothingInFront(s: seq<Message>)
    ensures [] + s == s
  {
  }

  /** Cleaning keeps exactly the plain messages and the two halves of every answered tool use, in order. */
  lemma CleanExactly(h: seq<Message>)
    ensures Clean(h) == Staying(h, 0)
  {
    CleanFrom(h, 0);
    assert h[0..] == h;
  }

  // ---------- leaving tool messages out ----------

  predicate NoTools(h: seq<Message>) {
    forall i :: 0 <= i < |h| ==> !HasToolBlocks(h[i])
  }

  predicate OnlyTools(h: seq<Message>) {
    forall i :: 0 <= i < |h| ==> HasToolBlocks(h[i])
  }

  lemma {:induction false} NothingIsDropped(h: seq<Message>, kept: seq<Message>)
    requires NoTools(h)
    ensures DropTools(h, kept, false) == kept + h
    decreases |h|
  {
    if h != [] {
      NothingIsDropped(h[1..], kept + [h[0]]);
      assert kept + [h[0]] + h[1..] == kept + h;
    } else {
      assert kept + h == kept;
    }
  }

  lemma {:induction false} ToolsAreDropped(tools: seq<Message>, rest: seq<Message>, kept: seq<Message>, dropped: bool)
    requires OnlyTools(tools) && tools != []
    ensures DropTools(tools + rest, kept, dropped) == DropTools(rest, kept, true)
    decreases |tools|
  {
    assert (tools + rest)[1..] == tools[1..] + rest;
    if |tools| == 1 {
      assert tools[1..] + rest == rest;
    } else {
      ToolsAreDropped(tools[1..], rest, kept, true);
    }
  }

  lemma {:induction false} KeptUntilTools(a: seq<Message>, rest: seq<Message>, kept: seq<Message>)
    requires NoTools(a)
    ensures DropTools(a + rest, kept, false) == DropTools(rest, kept + a, false)
    decreases |a|
  {
    if a == [] {
      assert a + rest == rest && kept + a == kept;
    } else {
      assert (a + rest)[1..] == a[1..] + rest;
      KeptUntilTools(a[1..], rest, kept + [a[0]]);
      assert kept + [a[0]] + a[1..] == kept + a;
    }
  }

  /** Two messages that come together are joined exactly when they are texts of one role. */
  function Together(a: seq<Message>, b: seq<Message>): seq<Message> {
    if a != [] && b != [] && a[|a| - 1].role == b[0].role && a[|a| - 1].content.Text? && b[0].content.Text? then
      a[..|a| - 1]
      + [Message(b[0].role, Text(a[|a| - 1].content.text + "\n\n" + b[0].content.text))] + b[1..]
    else a + b
  }

  lemma DropUnfolds(h: seq<Message>, kept: seq<Message>, dropped: bool)
    ensures DropTools([], kept, dropped) == kept
    ensures h != [] && !HasToolBlocks(h[0]) ==>
              DropTools(h, kept, dropped) == DropTools(h[1..], KeepOne(kept, h[0], dropped), false)
  {
    hide HasToolBlocks, KeepOne;
  }

  lemma KeepIsTogether(a: seq<Message>, b: seq<Message>)
    requires b != []
    ensures KeepOne(a, b[0], true) + b[1..] == Together(a, b)
  {
    assert a + [b[0]] + b[1..] == a + b;
  }

  lemma BehindTools(a: seq<Message>, b: seq<Message>)
    requires NoTools(b)
    ensures DropTools(b, a, true) == Together(a, b)
  {
    DropUnfolds(b, a, true);
    if b != [] {
      hide DropTools, KeepOne, Together, HasToolBlocks;
      NothingIsDropped(b[1..], KeepOne(a, b[0], true));
      KeepIsTogether(a, b);
    } else {
      assert a + b == a;
    }
  }

  lemma InThreeParts(a: seq<Message>, tools: seq<Message>, b: seq<Message>)
    ensures a + tools + b == a + (tools + b) && [] + a == a
    ensures tools == [] ==> tools + b == b
  {
  }

  /** Without tool messages nothing changes; where some are left out, the messages around them may be joined. */
  lemma DroppedExactly(a: seq<Message>, tools: seq<Message>, b: seq<Message>)
    requires NoTools(a) && OnlyTools(tools) && NoTools(b)
    ensures DropTools(a + tools + b, [], false) == if tools == [] then a + b else Together(a, b)
  {
    hide *;
    InThreeParts(a, tools, b);
    KeptUntilTools(a, tools + b, []);
    if tools == [] {
      NothingIsDropped(b, a);
    } else {
      ToolsAreDropped(tools, b, a, false);
      BehindTools(a, b);
    }
  }

  // ---------- the stored history ----------

  /**
   Adding a message keeps the newest messages up to twice the limit, less the tool results that would
   stand at their front, and no fewer.
   */
  lemma AddedExactly(h: seq<Message>, m: Message, max: nat) returns (k: nat)
    ensures var all := h + [m];
            var cut := if max > 0 && |all| > 2 * max then |all| - 2 * max else 0;
            && cut <= k <= |all| && Added(h, m, max) == all[k..]
            && (forall i :: cut <= i < k ==> IsToolResultMessage(all[i]))
            && (k < |all| ==> !IsToolResultMessage(all[k]))
  {
    hide IsToolResultMessage;
    var all := h + [m];
    var cut := if max > 0 && |all| > 2 * max then |all| - 2 * max else 0;
    assert all[0..] == all;
    var skipped := LeadingResultsGo(all[cut..]);
    k := cut + skipped;
    assert all[cut..][skipped..] == all[k..];
    assert forall i :: cut <= i < k ==> all[i] == all[cut..][i - cut];
  }
}
