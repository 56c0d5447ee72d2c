/** `llm_provider`: the conversation history and the part of it that is sent with a request. */
module ConversationHistory {
  import opened Options

  datatype Role = User | Assistant | OtherRole(name: string)

  datatype Block =
    | ToolUse(id: Option<string>)
    | ToolResult(toolUseId: Option<string>)
    | OtherBlock(body: string)

  datatype Content = Text(text: string) | Blocks(blocks: seq<Block>) | NoContent

  datatype Message = Message(role: Role, content: Content)

  /** The length of `json.dumps` on a list of blocks. */
  type BlockSize = seq<Block> -> nat

  predicate IsToolResultMessage(m: Message) {
    m.role == User && m.content.Blocks? && exists b :: b in m.content.blocks && b.ToolResult?
  }

  predicate HasToolBlocks(m: Message) {
    m.content.Blocks? && exists b :: b in m.content.blocks && (b.ToolUse? || b.ToolResult?)
  }

  function UseIds(blocks: seq<Block>): seq<Option<string>> {
    if blocks == [] then []
    else (if blocks[0].ToolUse? then [blocks[0].id] else []) + UseIds(blocks[1..])
  }

  function ResultIds(blocks: seq<Block>): seq<Option<string>> {
    if blocks == [] then []
    else (if blocks[0].ToolResult? then [blocks[0].toolUseId] else []) + ResultIds(blocks[1..])
  }

  /** The ids an assistant message asks tools for. */
  function UsesOf(m: Message): seq<Option<string>> {
    if m.role == Assistant && m.content.Blocks? then UseIds(m.content.blocks) else []
  }

  /** The ids a user message brings results for. */
  function ResultsOf(m: Message): seq<Option<string>> {
    if m.role == User && m.content.Blocks? then ResultIds(m.content.blocks) else []
  }

  predicate Distinct<T(==)>(s: seq<T>) {
    forall i, j :: 0 <= i < j < |s| ==> s[i] != s[j]
  }

  /** The second message answers exactly the tool uses of the first. */
  predicate Answers(use: Message, result: Message) {
    UsesOf(use) != [] && None !in UsesOf(use) && Distinct(UsesOf(use)) && UsesOf(use) == ResultsOf(result)
  }

  // ---------- leaving tool blocks out ----------

  /** The loop for providers without tool blocks; `dropped` tells that a message was just left out. */
  function DropTools(history: seq<Message>, kept: seq<Message>, dropped: bool): seq<Message>
    decreases |history|
  {
    if history == [] then kept
    else
      var m := history[0];
      if HasToolBlocks(m) then DropTools(history[1..], kept, true)
      else DropTools(history[1..], KeepOne(kept, m, dropped), false)
  }

  /** A kept message joins the previous one when the two came together and have one role. */
  function KeepOne(kept: seq<Message>, m: Message, dropped: bool): seq<Message> {
    if dropped && kept != [] && kept[|kept| - 1].role == m.role
       && kept[|kept| - 1].content.Text? && m.content.Text? then
      kept[..|kept| - 1]
      + [Message(m.role, Text(kept[|kept| - 1].content.text + "\n\n" + m.content.text))]
    else kept + [m]
  }

  // ---------- dropping broken tool pairs ----------

  function Clean(history: seq<Message>): seq<Message>
    decreases |history|
  {
    if history == [] then []
    else
      var m := history[0];
      if UsesOf(m) != [] then
        if |history| > 1 && Answers(m, history[1]) then [m, history[1]] + Clean(history[2..])
        else if |history| > 1 && IsToolResultMessage(history[1]) then Clean(history[2..])
        else Clean(history[1..])
      else if IsToolResultMessage(m) then Clean(history[1..])
      else [m] + Clean(history[1..])
  }

  // ---------- fitting the token budget ----------

  function Digits(n: nat): string {
    if n < 10 then ["0123456789"[n]] else Digits(n / 10) + ["0123456789"[n % 10]]
  }

  function Compact(m: Message): Message {
    if m.content.Text? && |m.content.text| > 2000 then
      m.(content := Text("[도구 결과 요약: " + Digits(|m.content.text|) + "자]"))
    else m
  }

  function CompactAll(messages: seq<Message>): seq<Message> {
    seq(|messages|, i requires 0 <= i < |messages| => Compact(messages[i]))
  }

  function TokensOf(m: Message, size: BlockSize): nat {
    var length := match m.content
      case Text(t) => |t|
      case Blocks(b) => size(b)
      case NoContent => 0;
    if length / 3 < 1 then 1 else length / 3
  }

  function EstimateTokens(messages: seq<Message>, size: BlockSize): nat {
    if messages == [] then 0 else TokensOf(messages[0], size) + EstimateTokens(messages[1..], size)
  }

  /** The newest group: one message, or a tool result with the message before it. */
  function GroupSize(history: seq<Message>): nat
    requires history != []
  {
    if IsToolResultMessage(history[|history| - 1]) then 2 else 1
  }

  /** What the selection loop takes from the end of the history. */
  function Selected(history: seq<Message>, used: nat, any: bool, budget: int, size: BlockSize): seq<Message>
    decreases |history|
  {
    if history == [] || GroupSize(history) > |history| then []
    else
      var from := |history| - GroupSize(history);
      var group := CompactAll(history[from..]);
      var cost := EstimateTokens(group, size);
      if any && used + cost > budget then []
      else Selected(history[..from], used + cost, true, budget, size) + group
  }

  lemma CleanTurn(history: seq<Message>, index: nat, cleaned: seq<Message>)
    requires index < |history|
    ensures var m, behind := history[index], index + 1 < |history|;
            var left := cleaned + Clean(history[index..]);
            if UsesOf(m) != [] then
              if behind && Answers(m, history[index + 1]) then
                left == cleaned + [m, history[index + 1]] + Clean(history[index + 2..])
              else if behind && IsToolResultMessage(history[index + 1]) then
                left == cleaned + Clean(history[index + 2..])
              else left == cleaned + Clean(history[index + 1..])
            else if IsToolResultMessage(m) then left == cleaned + Clean(history[index + 1..])
            else left == cleaned + [m] + Clean(history[index + 1..])
  {
    hide UsesOf, Answers, IsToolResultMessage;
    var rest := history[index..];
    assert rest[0] == history[index] && rest[1..] == history[index + 1..];
    if index + 1 < |history| {
      assert rest[1] == history[index + 1] && rest[2..] == history[index + 2..];
    }
  }

  lemma CleanOfNothing()
    ensures Clean([]) == []
  {
  }

  lemma SelectedStep(rest: seq<Message>, used: nat, any: bool, budget: int, size: BlockSize, newer: seq<Message>)
    ensures rest == [] || GroupSize(rest) > |rest| ==> Selected(rest, used, any, budget, size) == []
    ensures rest != [] && GroupSize(rest) <= |rest| ==>
              var from := |rest| - GroupSize(rest);
              var group := CompactAll(rest[from..]);
              var cost := EstimateTokens(group, size);
              from < |rest| && group != []
              && Selected(rest, used, any, budget, size) + newer ==
                 if any && used + cost > budget then newer
                 else Selected(rest[..from], used + cost, true, budget, size) + (group + newer)
  {
    if rest != [] && GroupSize(rest) <= |rest| {
      hide IsToolResultMessage, UsesOf;
      var from := |rest| - GroupSize(rest);
      var group := CompactAll(rest[from..]);
      var cost := EstimateTokens(group, size);
      var older := Selected(rest[..from], used + cost, true, budget, size);
      assert older + group + newer == older + (group + newer);
      assert [] + newer == newer;
    }
  }

  class History {
    var messages: seq<Message>
    const maxHistory: nat
    const maxContextTokens: int
    const size: BlockSize

    constructor (maxHistory: nat, maxContextTokens: int, size: BlockSize)
      ensures messages == [] && this.maxHistory == maxHistory
      ensures this.maxContextTokens == maxContextTokens && this.size == size
    {
      messages := [];
      this.maxHistory, this.maxContextTokens, this.size := maxHistory, maxContextTokens, size;
    }

    method AddToHistory(role: Role, content: Content)
      modifies this
      ensures messages == Added(old(messages), Message(role, content), maxHistory)
    {
      messages := messages + [Message(role, content)];
      if |messages| > maxHistory * 2 && maxHistory > 0 {
        messages := messages[|messages| - maxHistory * 2..];
      }
      ghost var trimmed := messages;
      while messages != [] && IsToolResultMessage(messages[0])
        invariant WithoutLeadingResults(messages) == WithoutLeadingResults(trimmed)
        decreases |messages|
      {
        messages := messages[1..];
      }
    }

    /** `max_tokens or self.max_context_tokens or 8000`. */
    function Budget(maxTokens: int): int {
      if maxTokens != 0 then maxTokens else if maxContextTokens != 0 then maxContextTokens else 8000
    }

    method HistoryForContext(maxTokens: int, toolBlocks: bool) returns (selected: seq<Message>)
      ensures var budget := if maxTokens != 0 then maxTokens
                            else if maxContextTokens != 0 then maxContextTokens else 8000;
              selected == ForContext(messages, budget, toolBlocks, size)
    {
      var budget := Budget(maxTokens);
      var history := messages;
      if !toolBlocks {
        history := KeepWithoutTools(history);
      }
      history := CleanPairs(history);
      selected := SelectNewest(history, budget);
    }

    method KeepWithoutTools(history: seq<Message>) returns (kept: seq<Message>)
      ensures kept == DropTools(history, [], false)
    {
      kept := [];
      var dropped := false;
      for i := 0 to |history|
        invariant DropTools(history[i..], kept, dropped) == DropTools(history, [], false)
      {
        var m := history[i];
        assert history[i..][0] == m && history[i..][1..] == history[i + 1..];
        if HasToolBlocks(m) {
          dropped := true;
        } else {
          kept := KeepOne(kept, m, dropped);
          dropped := false;
        }
      }
    }

    method CleanPairs(history: seq<Message>) returns (cleaned: seq<Message>)
      ensures cleaned == Clean(history)
    {
      hide *;
      cleaned := [];
      var index := 0;
      assert history[0..] == history && cleaned + Clean(history) == Clean(history);
      while index < |history|
        invariant index <= |history|
        invariant cleaned + Clean(history[index..]) == Clean(history)
        decreases |history| - index
      {
        CleanTurn(history, index, cleaned);
        var m := history[index];
        if UsesOf(m) != [] {
          if index + 1 < |history| && Answers(m, history[index + 1]) {
            cleaned := cleaned + [m, history[index + 1]];
            index := index + 2;
          } else {
            index := index + 1;
            if index < |history| && IsToolResultMessage(history[index]) {
              index := index + 1;
            }
          }
        } else if IsToolResultMessage(m) {
          index := index + 1;
        } else {
          cleaned := cleaned + [m];
          index := index + 1;
        }
      }
      CleanOfNothing();
      assert history[index..] == [];
    }

    method SelectNewest(history: seq<Message>, budget: int) returns (selected: seq<Message>)
      ensures selected == Selected(history, 0, false, budget, size)
    {
      hide *;
      selected := [];
      var rest, used: nat, any := history, 0, false;
      assert Selected(history, 0, false, budget, size) + selected == Selected(history, 0, false, budget, size);
      while rest != []
        invariant any <==> selected != []
        invariant Selected(rest, used, any, budget, size) + selected == Selected(history, 0, false, budget, size)
        decreases |rest|
      {
        SelectedStep(rest, used, any, budget, size, selected);
        var from := |rest| - GroupSize(rest);
        if from < 0 {
          return;
        }
        var group := CompactAll(rest[from..]);
        var cost := EstimateTokens(group, size);
        if any && used + cost > budget {
          return;
        }
        selected := group + selected;
        used := used + cost;
        any := true;
        rest := rest[..from];
      }
      SelectedStep(rest, used, any, budget, size, selected);
    }
  }

  function WithoutLeadingResults(messages: seq<Message>): seq<Message> {
    if messages != [] && IsToolResultMessage(messages[0]) then WithoutLeadingResults(messages[1..]) else messages
  }

  /** The history after one more message: the newest `2 * max`, from the first that is no tool result. */
  function Added(messages: seq<Message>, m: Message, max: nat): seq<Message> {
    var all := messages + [m];
    WithoutLeadingResults(if |all| > max * 2 && max > 0 then all[|all| - max * 2..] else all)
  }

  function ForContext(messages: seq<Message>, budget: int, toolBlocks: bool, size: BlockSize): seq<Message> {
    Selected(Clean(if toolBlocks then messages else DropTools(messages, [], false)), 0, false, budget, size)
  }
}
