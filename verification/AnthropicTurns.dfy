/**
 Translation of an OpenAI-shaped conversation into Anthropic turns
 (internal/llm/anthropic.go). The code merges each message into the last turn and
 shifts tool results ahead of the other blocks; the specification splits the
 conversation into maximal same-side runs and lists each run's tool results first.

 Image URLs and tool-call arguments stay as the text they arrive as.
 */
module AnthropicTurns {
  import opened Base

  datatype Role = System | User | Assistant | Tool | Unknown(name: string)

  datatype Part = TextPart(text: string) | ImagePart(url: Option<string>) | OtherPart

  datatype ToolCall = ToolCall(id: string, name: string, arguments: string)

  /** `parts` is `None` for plain string content. */
  datatype Message = Message(
    role: Role, content: string, parts: Option<seq<Part>>, toolCalls: seq<ToolCall>, toolCallId: string)

  datatype Block =
    | Text(text: string)
    | Image(url: string)
    | ToolUse(call: ToolCall)
    | ToolResult(id: string, content: string)

  datatype Side = UserSide | AssistantSide

  datatype Turn = Turn(side: Side, content: seq<Block>)

  datatype Error = UnsupportedRole(name: string) | NoMessages | LeadingAssistant

  datatype Outcome = Built(system: seq<string>, turns: seq<Turn>) | Failed(error: Error)

  // ------------------------------------------------------------------
  // What each message contributes
  // ------------------------------------------------------------------

  function PartBlocks(parts: seq<Part>): seq<Block> {
    if parts == [] then []
    else PartBlocks(Init(parts)) +
         match Last(parts)
         case TextPart(t) => [Text(t)]
         case ImagePart(Some(u)) => [Image(u)]
         case ImagePart(None) => []
         case OtherPart => []
  }

  function UserBlocks(m: Message): seq<Block> {
    if m.parts.None? then [Text(m.content)] else PartBlocks(m.parts.value)
  }

  function Calls(calls: seq<ToolCall>): seq<Block> {
    if calls == [] then [] else Calls(Init(calls)) + [ToolUse(Last(calls))]
  }

  function AssistantBlocks(m: Message): seq<Block> {
    (if m.content != "" then [Text(m.content)] else []) + Calls(m.toolCalls)
  }

  /** A message that takes part in the conversation: its side, its tool results and its other blocks. */
  datatype Item = Item(side: Side, results: seq<Block>, others: seq<Block>)

  /** System messages and empty assistant messages take no part. */
  function ItemOf(m: Message): Option<Item> {
    match m.role
    case User => Some(Item(UserSide, [], UserBlocks(m)))
    case Tool => Some(Item(UserSide, [ToolResult(m.toolCallId, m.content)], []))
    case Assistant => if AssistantBlocks(m) == [] then None else Some(Item(AssistantSide, [], AssistantBlocks(m)))
    case System => None
    case Unknown(_) => None
  }

  function Items(messages: seq<Message>): seq<Item> {
    if messages == [] then []
    else Items(Init(messages)) + if ItemOf(Last(messages)).Some? then [ItemOf(Last(messages)).value] else []
  }

  function SystemParts(messages: seq<Message>): seq<string> {
    if messages == [] then []
    else SystemParts(Init(messages)) +
         if Last(messages).role == System && Last(messages).content != "" then [Last(messages).content] else []
  }

  // ------------------------------------------------------------------
  // Maximal runs, and the turns they stand for
  // ------------------------------------------------------------------

  datatype Run = Run(side: Side, items: seq<Item>)

  ghost predicate Uniform(run: Run) {
    run.items != [] && forall i :: 0 <= i < |run.items| ==> run.items[i].side == run.side
  }

  function Flatten(runs: seq<Run>): seq<Item> {
    if runs == [] then [] else Flatten(Init(runs)) + Last(runs).items
  }

  /** `runs` cuts `items` into maximal runs of one side each. */
  ghost predicate MaximalRuns(runs: seq<Run>, items: seq<Item>) {
    && Flatten(runs) == items
    && (forall k :: 0 <= k < |runs| ==> Uniform(runs[k]))
    && (forall k :: 0 < k < |runs| ==> runs[k - 1].side != runs[k].side)
  }

  function Results(items: seq<Item>): seq<Block> {
    if items == [] then [] else Results(Init(items)) + Last(items).results
  }

  function Others(items: seq<Item>): seq<Block> {
    if items == [] then [] else Others(Init(items)) + Last(items).others
  }

  /** One turn: the run's tool results in order, then its other blocks in order. */
  function TurnOf(run: Run): Turn {
    Turn(run.side, Results(run.items) + Others(run.items))
  }

  ghost predicate Renders(turns: seq<Turn>, runs: seq<Run>) {
    |turns| == |runs| && forall k :: 0 <= k < |runs| ==> turns[k] == TurnOf(runs[k])
  }

  // ------------------------------------------------------------------
  // Maximal runs exist in exactly one way
  // ------------------------------------------------------------------

  function AppendItem(runs: seq<Run>, x: Item): seq<Run> {
    if runs != [] && Last(runs).side == x.side then Init(runs) + [Run(x.side, Last(runs).items + [x])]
    else runs + [Run(x.side, [x])]
  }

  function Runs(items: seq<Item>): seq<Run> {
    if items == [] then [] else AppendItem(Runs(Init(items)), Last(items))
  }

  lemma FlattenSnoc(runs: seq<Run>, run: Run)
    ensures Flatten(runs + [run]) == Flatten(runs) + run.items
  {
  }

  lemma {:induction false} AppendItemKeepsRuns(runs: seq<Run>, items: seq<Item>, x: Item)
    requires MaximalRuns(runs, items)
    ensures MaximalRuns(AppendItem(runs, x), items + [x])
  {
    if runs != [] && Last(runs).side == x.side {
      FlattenSnoc(Init(runs), Run(x.side, Last(runs).items + [x]));
      assert Flatten(AppendItem(runs, x)) == items + [x];
      assert forall k :: 0 < k < |runs| ==> runs[k - 1].side != runs[k].side;
    } else {
      FlattenSnoc(runs, Run(x.side, [x]));
    }
  }

  lemma RunsSnoc(before: seq<Item>, x: Item)
    ensures Runs(before + [x]) == AppendItem(Runs(before), x)
  {
    assert Init(before + [x]) == before;
  }

  lemma RunsStep(before: seq<Item>, x: Item)
    requires MaximalRuns(Runs(before), before)
    ensures MaximalRuns(Runs(before + [x]), before + [x])
  {
    RunsSnoc(before, x);
    AppendItemKeepsRuns(Runs(before), before, x);
  }

  lemma {:induction false} RunsAreMaximal(items: seq<Item>)
    ensures MaximalRuns(Runs(items), items)
  {
    if items == [] {
      assert Flatten([]) == [];
    } else {
      var before, x := Init(items), Last(items);
      RunsAreMaximal(before);
      RunsStep(before, x);
      assert before + [x] == items;
    }
  }

  /** The last run with its last item taken off; a run of one item goes away. */
  function DropItem(runs: seq<Run>): seq<Run>
    requires runs != [] && Last(runs).items != []
  {
    if |Last(runs).items| == 1 then Init(runs) else Init(runs) + [Run(Last(runs).side, Init(Last(runs).items))]
  }

  lemma DropThenAppend(runs: seq<Run>)
    requires runs != [] && Uniform(Last(runs))
    requires |runs| > 1 ==> runs[|runs| - 2].side != Last(runs).side
    ensures runs == AppendItem(DropItem(runs), Last(Last(runs).items))
  {
    var items := Last(runs).items;
    assert items == Init(items) + [Last(items)];
    assert runs == Init(runs) + [Last(runs)];
    if |items| > 1 {
      assert Init(DropItem(runs)) == Init(runs);
    }
  }

  lemma DropFlattens(runs: seq<Run>)
    requires runs != [] && Last(runs).items != []
    ensures Flatten(runs) != []
    ensures Flatten(DropItem(runs)) == Init(Flatten(runs)) && Last(Flatten(runs)) == Last(Last(runs).items)
  {
  }

  lemma DropItemKeepsRuns(runs: seq<Run>, items: seq<Item>)
    requires MaximalRuns(runs, items) && runs != []
    ensures items != [] && Last(runs).items != [] && MaximalRuns(DropItem(runs), Init(items))
    ensures runs == AppendItem(DropItem(runs), Last(items))
  {
    assert Uniform(runs[|runs| - 1]);
    DropFlattens(runs);
    if |runs| > 1 {
      assert runs[|runs| - 2].side != runs[|runs| - 1].side;
    }
    DropThenAppend(runs);
    DropKeepsSides(runs);
  }

  lemma DropKeepsSides(runs: seq<Run>)
    requires runs != [] && Last(runs).items != [] && forall k :: 0 <= k < |runs| ==> Uniform(runs[k])
    requires forall k :: 0 < k < |runs| ==> runs[k - 1].side != runs[k].side
    ensures forall k :: 0 <= k < |DropItem(runs)| ==> Uniform(DropItem(runs)[k])
    ensures forall k :: 0 < k < |DropItem(runs)| ==> DropItem(runs)[k - 1].side != DropItem(runs)[k].side
  {
    var last := Last(runs);
    assert Uniform(runs[|runs| - 1]);
    assert |last.items| > 1 ==> Uniform(Run(last.side, Init(last.items)));
  }

  lemma {:induction false} MaximalRunsAreUnique(runs: seq<Run>, items: seq<Item>)
    requires MaximalRuns(runs, items)
    ensures runs == Runs(items)
    decreases |items|
  {
    if runs != [] {
      DropItemKeepsRuns(runs, items);
      MaximalRunsAreUnique(DropItem(runs), Init(items));
    }
  }

  // ------------------------------------------------------------------
  // The loop
  // ------------------------------------------------------------------

  ghost predicate NoResults(blocks: seq<Block>) {
    forall i :: 0 <= i < |blocks| ==> !blocks[i].ToolResult?
  }

  ghost predicate AllResults(blocks: seq<Block>) {
    forall i :: 0 <= i < |blocks| ==> blocks[i].ToolResult?
  }

  lemma {:induction false} PartsHoldNoResults(parts: seq<Part>)
    ensures NoResults(PartBlocks(parts))
  {
    if parts != [] {
      PartsHoldNoResults(Init(parts));
    }
  }

  lemma {:induction false} CallsAreToolUses(calls: seq<ToolCall>)
    ensures NoResults(Calls(calls))
  {
    if calls != [] {
      CallsAreToolUses(Init(calls));
    }
  }

  /** Tool results and other blocks are told apart by their kind alone. */
  ghost predicate Sorted(item: Item) {
    AllResults(item.results) && NoResults(item.others)
  }

  lemma ItemIsSorted(m: Message)
    requires ItemOf(m).Some?
    ensures Sorted(ItemOf(m).value)
  {
    if m.parts.Some? {
      PartsHoldNoResults(m.parts.value);
    }
    CallsAreToolUses(m.toolCalls);
  }

  lemma {:induction false} ItemsAreSorted(messages: seq<Message>)
    ensures forall i :: 0 <= i < |Items(messages)| ==> Sorted(Items(messages)[i])
  {
    if messages != [] {
      ItemsAreSorted(Init(messages));
      if ItemOf(Last(messages)).Some? {
        ItemIsSorted(Last(messages));
      }
    }
  }

  lemma {:induction false} RunIsSorted(items: seq<Item>)
    requires forall i :: 0 <= i < |items| ==> Sorted(items[i])
    ensures AllResults(Results(items)) && NoResults(Others(items))
  {
    if items != [] {
      RunIsSorted(Init(items));
      assert Sorted(items[|items| - 1]);
    }
  }

  /** The number of leading tool results. */
  method LeadingResults(content: seq<Block>) returns (n: nat)
    ensures n <= |content| && AllResults(content[..n]) && (n < |content| ==> !content[n].ToolResult?)
  {
    n := 0;
    while n < |content| && content[n].ToolResult?
      invariant n <= |content| && AllResults(content[..n])
    {
      n := n + 1;
    }
  }

  /** Makes room at `insert` by shifting the tail one place right, in place, then stores `block` there. */
  method ShiftInsert(arr: array<Block>, insert: nat, block: Block)
    requires insert < arr.Length
    modifies arr
    ensures arr[..] == old(arr[..insert]) + [block] + old(arr[insert..arr.Length - 1])
  {
    ghost var was := arr[..];
    var i := arr.Length - 1;
    while insert < i
      invariant insert <= i < arr.Length
      invariant forall k :: 0 <= k <= i ==> arr[k] == was[k]
      invariant forall k :: i < k < arr.Length ==> arr[k] == was[k - 1]
    {
      arr[i] := arr[i - 1];
      i := i - 1;
    }
    arr[insert] := block;
  }

  /** Inserts `block` after the leading tool results. */
  method InsertResult(content: seq<Block>, block: Block) returns (r: seq<Block>)
    ensures forall results: seq<Block>, others: seq<Block> ::
              content == results + others && AllResults(results) && NoResults(others) ==>
                r == results + [block] + others
  {
    var insert := LeadingResults(content);
    var arr := new Block[|content| + 1];
    forall k | 0 <= k < |content| {
      arr[k] := content[k];
    }
    assert arr[..|content|] == content;
    ShiftInsert(arr, insert, block);
    r := arr[..];
    forall results: seq<Block>, others: seq<Block>
      | content == results + others && AllResults(results) && NoResults(others)
      ensures r == results + [block] + others
    {
      SplitPoint(content, insert, results, others);
    }
  }

  /** Where the leading tool results end, the split into results and others is. */
  lemma SplitPoint(content: seq<Block>, n: nat, results: seq<Block>, others: seq<Block>)
    requires n <= |content| && AllResults(content[..n]) && (n < |content| ==> !content[n].ToolResult?)
    requires content == results + others && AllResults(results) && NoResults(others)
    ensures content[..n] == results && content[n..] == others
  {
    assert forall k :: 0 <= k < |content| ==> (content[k].ToolResult? <==> k < |results|);
    assert forall k :: 0 <= k < n ==> content[..n][k] == content[k] && content[k].ToolResult?;
    assert |results| < |content| ==> !content[|results|].ToolResult?;
    assert n == |results|;
  }

  lemma RunSnoc(items: seq<Item>, x: Item)
    ensures Results(items + [x]) == Results(items) + x.results
    ensures Others(items + [x]) == Others(items) + x.others
  {
  }

  lemma RunOfOne(x: Item)
    ensures TurnOf(Run(x.side, [x])) == Turn(x.side, x.results + x.others)
  {
    RunSnoc([], x);
    assert [] + [x] == [x];
    assert Results([x]) == x.results && Others([x]) == x.others;
  }

  /** A message carries other blocks only, or is one tool result. */
  ghost predicate Simple(x: Item) {
    Sorted(x) && (x.results == [] || (|x.results| == 1 && x.others == []))
  }

  /** The last turn's content once `x` has been merged into it. */
  method MergeContent(content: seq<Block>, x: Item, ghost run: seq<Item>) returns (r: seq<Block>)
    requires Simple(x) && content == Results(run) + Others(run)
    requires AllResults(Results(run)) && NoResults(Others(run))
    ensures r == Results(run + [x]) + Others(run + [x])
  {
    RunSnoc(run, x);
    if x.results == [] {
      r := content + x.others;
    } else {
      assert x.results == [x.results[0]];
      r := InsertResult(content, x.results[0]);
    }
  }

  lemma LastRunIsSorted(runs: seq<Run>)
    requires runs != []
    requires forall i :: 0 <= i < |Flatten(runs)| ==> Sorted(Flatten(runs)[i])
    ensures forall i :: 0 <= i < |Flatten(Init(runs))| ==> Sorted(Flatten(Init(runs))[i])
    ensures forall i :: 0 <= i < |Last(runs).items| ==> Sorted(Last(runs).items[i])
    ensures AllResults(Results(Last(runs).items)) && NoResults(Others(Last(runs).items))
  {
    var a, b := Flatten(Init(runs)), Last(runs).items;
    assert forall i :: 0 <= i < |a| ==> Flatten(runs)[i] == a[i];
    assert forall i :: 0 <= i < |b| ==> Flatten(runs)[|a| + i] == b[i];
    RunIsSorted(b);
  }

  /** Merging a message into the turns does to them what appending its item does to the runs. */
  method MergeItem(turns: seq<Turn>, x: Item, ghost runs: seq<Run>) returns (r: seq<Turn>)
    requires Renders(turns, runs) && Simple(x)
    requires forall i :: 0 <= i < |Flatten(runs)| ==> Sorted(Flatten(runs)[i])
    ensures Renders(r, AppendItem(runs, x))
  {
    var n := |turns|;
    if n > 0 && turns[n - 1].side == x.side {
      LastRunIsSorted(runs);
      assert turns[n - 1] == TurnOf(runs[n - 1]);
      var content := MergeContent(turns[n - 1].content, x, Last(runs).items);
      r := turns[n - 1 := Turn(x.side, content)];
      assert AppendItem(runs, x) == runs[n - 1 := Run(x.side, Last(runs).items + [x])];
    } else {
      RunOfOne(x);
      r := turns + [Turn(x.side, x.results + x.others)];
    }
  }

  lemma ItemsSnoc(messages: seq<Message>, i: nat)
    requires i < |messages|
    ensures Items(messages[..i + 1]) ==
            if ItemOf(messages[i]).Some? then Items(messages[..i]) + [ItemOf(messages[i]).value]
            else Items(messages[..i])
  {
    assert Init(messages[..i + 1]) == messages[..i];
  }

  lemma SystemSnoc(messages: seq<Message>, i: nat)
    requires i < |messages|
    ensures SystemParts(messages[..i + 1]) ==
            if messages[i].role == System && messages[i].content != ""
            then SystemParts(messages[..i]) + [messages[i].content]
            else SystemParts(messages[..i])
  {
    assert Init(messages[..i + 1]) == messages[..i];
  }

  /** The turns after message `i`, given those before it. */
  method TakeMessage(turns: seq<Turn>, messages: seq<Message>, i: nat) returns (r: seq<Turn>)
    requires i < |messages| && Renders(turns, Runs(Items(messages[..i])))
    ensures Renders(r, Runs(Items(messages[..i + 1])))
  {
    ItemsSnoc(messages, i);
    var item := ItemOf(messages[i]);
    if item.None? {
      return turns;
    }
    ghost var items := Items(messages[..i]);
    RunsAreMaximal(items);
    ItemsAreSorted(messages[..i]);
    ItemIsSorted(messages[i]);
    r := MergeItem(turns, item.value, Runs(items));
    RunsSnoc(items, item.value);
  }

  /** What the loop has after `i` messages. */
  ghost predicate Collected(messages: seq<Message>, i: nat, system: seq<string>, turns: seq<Turn>) {
    && i <= |messages|
    && system == SystemParts(messages[..i])
    && Renders(turns, Runs(Items(messages[..i])))
  }

  method CollectOne(messages: seq<Message>, i: nat, system: seq<string>, turns: seq<Turn>)
    returns (system': seq<string>, turns': seq<Turn>)
    requires i < |messages| && Collected(messages, i, system, turns)
    ensures Collected(messages, i + 1, system', turns')
  {
    SystemSnoc(messages, i);
    system' := system;
    if messages[i].role.System? && messages[i].content != "" {
      system' := system + [messages[i].content];
    }
    turns' := TakeMessage(turns, messages, i);
  }

  /** The message loop; it stops at the first unknown role. */
  method Collect(messages: seq<Message>) returns (bad: Option<nat>, system: seq<string>, turns: seq<Turn>)
    ensures bad.Some? ==>
              && bad.value < |messages| && messages[bad.value].role.Unknown?
              && forall j :: 0 <= j < bad.value ==> !messages[j].role.Unknown?
    ensures bad.None? ==>
              && (forall j :: 0 <= j < |messages| ==> !messages[j].role.Unknown?)
              && system == SystemParts(messages)
              && Renders(turns, Runs(Items(messages)))
  {
    system, turns := [], [];
    var i := 0;
    while i < |messages|
      invariant i <= |messages|
      invariant forall j :: 0 <= j < i ==> !messages[j].role.Unknown?
      invariant Collected(messages, i, system, turns)
    {
      if messages[i].role.Unknown? {
        return Some(i), system, turns;
      }
      system, turns := CollectOne(messages, i, system, turns);
      i := i + 1;
    }
    assert messages[..|messages|] == messages;
    bad := None;
  }

  /**
   The payload's turns. A role outside the four known ones fails first; then a
   conversation with no message left, then one that opens with the assistant.
   */
  method BuildTurns(messages: seq<Message>) returns (r: Outcome)
    ensures r.Failed? && r.error.UnsupportedRole? <==>
            exists i :: 0 <= i < |messages| && messages[i].role.Unknown?
    ensures r.Failed? && r.error.UnsupportedRole? ==>
              exists i :: 0 <= i < |messages| && messages[i].role == Role.Unknown(r.error.name)
                          && forall j :: 0 <= j < i ==> !messages[j].role.Unknown?
    ensures (forall i :: 0 <= i < |messages| ==> !messages[i].role.Unknown?) ==>
              && (r == Failed(NoMessages) <==> Items(messages) == [])
              && (r == Failed(LeadingAssistant) <==> Items(messages) != [] && Items(messages)[0].side == AssistantSide)
    ensures r.Built? ==>
              && r.system == SystemParts(messages)
              && Renders(r.turns, Runs(Items(messages)))
              && r.turns != [] && r.turns[0].side == UserSide
  {
    var bad, system, turns := Collect(messages);
    if bad.Some? {
      return Failed(UnsupportedRole(messages[bad.value].role.name));
    }
    RunsAreMaximal(Items(messages));
    FirstTurn(turns, Runs(Items(messages)), Items(messages));
    if |turns| == 0 {
      return Failed(NoMessages);
    }
    if turns[0].side != UserSide {
      return Failed(LeadingAssistant);
    }
    return Built(system, turns);
  }

  lemma {:induction false} FlattenHead(runs: seq<Run>)
    requires runs != [] && runs[0].items != []
    ensures Flatten(runs) != [] && Flatten(runs)[0] == runs[0].items[0]
  {
    if |runs| > 1 {
      FlattenHead(Init(runs));
    }
  }

  lemma FirstTurn(turns: seq<Turn>, runs: seq<Run>, items: seq<Item>)
    requires Renders(turns, runs) && MaximalRuns(runs, items)
    ensures turns == [] <==> items == []
    ensures turns != [] ==> turns[0].side == items[0].side
  {
    if runs != [] {
      FlattenHead(runs);
    }
  }

  // ------------------------------------------------------------------
  // What the turns promise
  // ------------------------------------------------------------------

  ghost function Contents(turns: seq<Turn>): seq<Block> {
    if turns == [] then [] else Contents(Init(turns)) + Last(turns).content
  }

  /** The tool results (or the other blocks) of a block list, in order. */
  ghost function Pick(blocks: seq<Block>, results: bool): seq<Block> {
    if blocks == [] then []
    else if Last(blocks).ToolResult? == results then Pick(Init(blocks), results) + [Last(blocks)]
    else Pick(Init(blocks), results)
  }

  lemma {:induction false} PickAppend(a: seq<Block>, b: seq<Block>, results: bool)
    ensures Pick(a + b, results) == Pick(a, results) + Pick(b, results)
  {
    if b == [] {
      assert a + b == a;
    } else {
      assert Init(a + b) == a + Init(b) && Last(a + b) == Last(b);
      PickAppend(a, Init(b), results);
    }
  }

  lemma {:induction false} PickAll(a: seq<Block>, results: bool)
    requires forall i :: 0 <= i < |a| ==> a[i].ToolResult? == results
    ensures Pick(a, results) == a
  {
    if a != [] {
      PickAll(Init(a), results);
      assert a == Init(a) + [Last(a)];
    }
  }

  lemma {:induction false} PickNone(a: seq<Block>, results: bool)
    requires forall i :: 0 <= i < |a| ==> a[i].ToolResult? == results
    ensures Pick(a, !results) == []
  {
    if a != [] {
      PickNone(Init(a), results);
    }
  }

  lemma {:induction false} ResultsAppend(a: seq<Item>, b: seq<Item>)
    ensures Results(a + b) == Results(a) + Results(b)
  {
    if b == [] {
      assert a + b == a;
    } else {
      assert Init(a + b) == a + Init(b) && Last(a + b) == Last(b);
      ResultsAppend(a, Init(b));
      AppendIsAssociative(Results(a), Results(Init(b)), Last(b).results);
    }
  }

  lemma {:induction false} OthersAppend(a: seq<Item>, b: seq<Item>)
    ensures Others(a + b) == Others(a) + Others(b)
  {
    if b == [] {
      assert a + b == a;
    } else {
      assert Init(a + b) == a + Init(b) && Last(a + b) == Last(b);
      OthersAppend(a, Init(b));
      AppendIsAssociative(Others(a), Others(Init(b)), Last(b).others);
    }
  }

  lemma PickTurn(results: seq<Block>, others: seq<Block>)
    requires AllResults(results) && NoResults(others)
    ensures Pick(results + others, true) == results
    ensures Pick(results + others, false) == others
  {
    PickAppend(results, others, true);
    PickAppend(results, others, false);
    PickAll(results, true);
    PickNone(results, true);
    PickAll(others, false);
    PickNone(others, false);
  }

  /**
   No block is lost, added or reordered among its kind: reading the turns in order
   gives every tool result in message order and every other block in message order.
   */
  lemma {:induction false} TurnsKeepEveryBlock(turns: seq<Turn>, runs: seq<Run>)
    requires Renders(turns, runs)
    requires forall i :: 0 <= i < |Flatten(runs)| ==> Sorted(Flatten(runs)[i])
    ensures Pick(Contents(turns), true) == Results(Flatten(runs))
    ensures Pick(Contents(turns), false) == Others(Flatten(runs))
  {
    if runs != [] {
      LastRunIsSorted(runs);
      TurnsKeepEveryBlock(Init(turns), Init(runs));
      var items := Last(runs).items;
      ResultsAppend(Flatten(Init(runs)), items);
      OthersAppend(Flatten(Init(runs)), items);
      PickTurn(Results(items), Others(items));
      PickAppend(Contents(Init(turns)), Last(turns).content, true);
      PickAppend(Contents(Init(turns)), Last(turns).content, false);
    }
  }

  /** Tool results lead the turn. */
  ghost predicate ResultsLead(turn: Turn) {
    exists n: nat :: n <= |turn.content| && AllResults(turn.content[..n]) && NoResults(turn.content[n..])
  }

  lemma {:induction false} EveryTurnLeadsWithResults(turns: seq<Turn>, runs: seq<Run>)
    requires Renders(turns, runs)
    requires forall i :: 0 <= i < |Flatten(runs)| ==> Sorted(Flatten(runs)[i])
    ensures forall k :: 0 <= k < |turns| ==> ResultsLead(turns[k])
  {
    if runs != [] {
      LastRunIsSorted(runs);
      EveryTurnLeadsWithResults(Init(turns), Init(runs));
      var items := Last(runs).items;
      var n := |Results(items)|;
      assert Last(turns).content[..n] == Results(items);
      assert Last(turns).content[n..] == Others(items);
      assert forall k :: 0 <= k < |turns| - 1 ==> Init(turns)[k] == turns[k];
    }
  }

  /**
   What every conversation that builds may rely on: strict alternation, tool results
   leading every turn, and nothing lost, added or reordered among its kind.
   */
  lemma {:induction false} BuiltTurnsAreFaithful(messages: seq<Message>, turns: seq<Turn>)
    requires Renders(turns, Runs(Items(messages)))
    ensures forall k :: 0 < k < |turns| ==> turns[k - 1].side != turns[k].side
    ensures forall k :: 0 <= k < |turns| ==> ResultsLead(turns[k])
    ensures Pick(Contents(turns), true) == Results(Items(messages))
    ensures Pick(Contents(turns), false) == Others(Items(messages))
  {
    RunsAreMaximal(Items(messages));
    ItemsAreSorted(messages);
    FaithfulTurns(Items(messages), Runs(Items(messages)), turns);
  }

  lemma FaithfulTurns(items: seq<Item>, runs: seq<Run>, turns: seq<Turn>)
    requires Renders(turns, runs) && MaximalRuns(runs, items) && forall i :: 0 <= i < |items| ==> Sorted(items[i])
    ensures forall k :: 0 < k < |turns| ==> turns[k - 1].side != turns[k].side
    ensures forall k :: 0 <= k < |turns| ==> ResultsLead(turns[k])
    ensures Pick(Contents(turns), true) == Results(items)
    ensures Pick(Contents(turns), false) == Others(items)
  {
    EveryTurnLeadsWithResults(turns, runs);
    TurnsKeepEveryBlock(turns, runs);
    assert forall k :: 0 < k < |runs| ==> runs[k - 1].side != runs[k].side;
  }

  ghost predicate Blockless(items: seq<Item>) {
    forall i :: 0 <= i < |items| ==> items[i].results == [] && items[i].others == []
  }

  lemma {:induction false} EmptyRun(items: seq<Item>)
    ensures Results(items) == [] && Others(items) == [] <==> Blockless(items)
  {
    if items != [] {
      EmptyRun(Init(items));
      var last := Last(items);
      assert Results(items) == [] && Others(items) == [] <==>
             Results(Init(items)) == [] && Others(Init(items)) == [] && last.results == [] && last.others == [];
      assert Blockless(items) <==> Blockless(Init(items)) && Last(items).results == [] && Last(items).others == [];
    }
  }

  lemma EmptyTurn(run: Run)
    ensures TurnOf(run).content == [] <==> Blockless(run.items)
  {
    EmptyRun(run.items);
  }

  /** Assistant runs always carry a block. */
  lemma BlocklessRunIsUser(messages: seq<Message>, k: nat)
    requires k < |Runs(Items(messages))| && Blockless(Runs(Items(messages))[k].items)
    ensures Runs(Items(messages))[k].side == UserSide
  {
    var runs := Runs(Items(messages));
    RunsAreMaximal(Items(messages));
    assert Uniform(runs[k]);
    RunElement(runs, k, 0);
    AssistantItemsCarryBlocks(messages);
  }

  /**
   An output turn is empty exactly when its whole run carries no block; such a run
   is made only of user messages whose parts all translate to nothing.
   */
  lemma EmptyTurnsExactly(turns: seq<Turn>, messages: seq<Message>, k: nat)
    requires Renders(turns, Runs(Items(messages))) && k < |turns|
    ensures turns[k].content == [] <==> Blockless(Runs(Items(messages))[k].items)
    ensures turns[k].content == [] ==> turns[k].side == UserSide
  {
    EmptyTurn(Runs(Items(messages))[k]);
    if turns[k].content == [] {
      BlocklessRunIsUser(messages, k);
    }
  }

  // ------------------------------------------------------------------
  // Decoded requests have no empty turn
  // ------------------------------------------------------------------

  /** The content field as it arrives: absent or null, a string, or an array of parts. */
  datatype Wire = NoContent | Plain(text: string) | Parts(parts: seq<Part>)

  function Texts(parts: seq<Part>): string {
    if parts == [] then "" else Texts(Init(parts)) + if Last(parts).TextPart? then Last(parts).text else ""
  }

  /** A text part, or an image part with a URL. */
  predicate Supported(p: Part) {
    p.TextPart? || (p.ImagePart? && p.url.Some? && p.url.value != "")
  }

  /** Decoding a message: unsupported parts are refused and an empty array is an empty string. */
  function Decode(role: Role, wire: Wire, calls: seq<ToolCall>, id: string): Option<Message> {
    match wire
    case NoContent => Some(Message(role, "", None, calls, id))
    case Plain(t) => Some(Message(role, t, None, calls, id))
    case Parts(ps) =>
      if ps == [] then Some(Message(role, "", None, calls, id))
      else if forall p :: p in ps ==> Supported(p) then Some(Message(role, Texts(ps), Some(ps), calls, id))
      else None
  }

  ghost predicate Decoded(m: Message) {
    exists wire :: Decode(m.role, wire, m.toolCalls, m.toolCallId) == Some(m)
  }

  lemma {:induction false} SupportedPartsCarryBlocks(parts: seq<Part>)
    requires forall p :: p in parts ==> Supported(p)
    ensures |PartBlocks(parts)| == |parts|
  {
    if parts != [] {
      assert Last(parts) in parts;
      SupportedPartsCarryBlocks(Init(parts));
    }
  }

  lemma DecodedCarriesBlocks(m: Message)
    requires Decoded(m) && ItemOf(m).Some?
    ensures ItemOf(m).value.results != [] || ItemOf(m).value.others != []
  {
    if m.role.User? && m.parts.Some? {
      var wire :| Decode(m.role, wire, m.toolCalls, m.toolCallId) == Some(m);
      SupportedPartsCarryBlocks(wire.parts);
      assert |PartBlocks(m.parts.value)| > 0;
    }
  }

  lemma {:induction false} DecodedItemsCarryBlocks(messages: seq<Message>)
    requires forall m :: m in messages ==> Decoded(m)
    ensures forall x :: x in Items(messages) ==> x.results != [] || x.others != []
  {
    if messages != [] {
      DecodedItemsCarryBlocks(Init(messages));
      assert Last(messages) in messages;
      if ItemOf(Last(messages)).Some? {
        DecodedCarriesBlocks(Last(messages));
      }
    }
  }

  /** No turn of a conversation that came in as a request is empty. */
  lemma DecodedTurnsAreNotEmpty(turns: seq<Turn>, messages: seq<Message>, k: nat)
    requires forall m :: m in messages ==> Decoded(m)
    requires Renders(turns, Runs(Items(messages))) && k < |turns|
    ensures turns[k].content != []
  {
    var runs := Runs(Items(messages));
    EmptyTurnsExactly(turns, messages, k);
    RunsAreMaximal(Items(messages));
    assert Uniform(runs[k]);
    RunElement(runs, k, 0);
    DecodedItemsCarryBlocks(messages);
  }

  /** A message built in process with an empty list of parts does open an empty turn. */
  lemma EmptyPartsOpenEmptyTurn(content: string, calls: seq<ToolCall>, id: string)
    ensures var m := Message(User, content, Some([]), calls, id);
            !Decoded(m) && Renders([Turn(UserSide, [])], Runs(Items([m])))
  {
    var m := Message(User, content, Some([]), calls, id);
    var x := Item(UserSide, [], []);
    assert Init([m]) == [] && PartBlocks([]) == [];
    assert Items([m]) == [x];
    RunsSnoc([], x);
    assert [] + [x] == [x];
    RunOfOne(x);
  }

  lemma {:induction false} RunElement(runs: seq<Run>, k: nat, i: nat)
    requires k < |runs| && i < |runs[k].items|
    ensures runs[k].items[i] in Flatten(runs)
    decreases |runs|
  {
    if k < |runs| - 1 {
      RunElement(Init(runs), k, i);
    } else {
      assert Flatten(runs) == Flatten(Init(runs)) + runs[k].items;
      assert Flatten(runs)[|Flatten(Init(runs))| + i] == runs[k].items[i];
    }
  }

  lemma {:induction false} AssistantItemsCarryBlocks(messages: seq<Message>)
    ensures forall x :: x in Items(messages) && x.side == AssistantSide ==> x.others != []
  {
    if messages != [] {
      AssistantItemsCarryBlocks(Init(messages));
    }
  }

  // ------------------------------------------------------------------
  // max_tokens
  // ------------------------------------------------------------------

  const DefaultMaxTokens := 8192
  const ThinkingBudget := 4096

  /** The max_tokens field of the payload. */
  function MaxTokens(requested: int, hardCap: int, thinking: bool): (r: int)
    ensures r > 0
    ensures thinking ==> (r <= ThinkingBudget <==> 0 < requested <= ThinkingBudget && 0 < hardCap <= ThinkingBudget)
    ensures 0 < requested && (!thinking || requested > ThinkingBudget) ==> r == requested
    ensures hardCap > 0 ==> r <= hardCap || r == (if requested <= 0 then DefaultMaxTokens else requested)
  {
    var base := if requested <= 0 then DefaultMaxTokens else requested;
    if thinking && base <= ThinkingBudget then
      var raised := ThinkingBudget + DefaultMaxTokens;
      if hardCap > 0 && raised > hardCap then hardCap else raised
    else base
  }

  // ------------------------------------------------------------------
  // The whole payload
  // ------------------------------------------------------------------

  /** A tool definition; one without a name is left out of the payload. */
  datatype Tool = Undecodable | Decl(name: string, definition: string)

  datatype Payload = Payload(system: seq<string>, turns: seq<Turn>, tools: seq<Tool>, maxTokens: int)

  datatype PayloadResult = Ready(payload: Payload) | TurnError(error: Error) | ToolError

  function NamedTools(tools: seq<Tool>): seq<Tool> {
    if tools == [] then []
    else NamedTools(Init(tools)) + if Last(tools).Decl? && Last(tools).name != "" then [Last(tools)] else []
  }

  /** The order of the tools stays. */
  lemma {:induction false} NamedToolsKeepOrder(tools: seq<Tool>)
    ensures Subsequence(NamedTools(tools), tools)
  {
    if tools != [] {
      NamedToolsKeepOrder(Init(tools));
      assert tools == Init(tools) + [Last(tools)];
      assert NamedTools(Init(tools)) + [] == NamedTools(Init(tools));
    }
  }

  /** Nothing is left out but the nameless. */
  lemma {:induction false} NamedToolsAreKept(tools: seq<Tool>, t: Tool)
    ensures t in NamedTools(tools) <==> t in tools && t.Decl? && t.name != ""
  {
    if tools != [] {
      NamedToolsAreKept(Init(tools), t);
      assert tools == Init(tools) + [Last(tools)];
    }
  }

  method BuildTools(tools: seq<Tool>) returns (r: Option<seq<Tool>>)
    ensures r.None? <==> Undecodable in tools
    ensures r.Some? ==> r.value == NamedTools(tools)
  {
    var out := [];
    var i := 0;
    while i < |tools|
      invariant i <= |tools| && Undecodable !in tools[..i]
      invariant out == NamedTools(tools[..i])
    {
      assert Init(tools[..i + 1]) == tools[..i];
      if tools[i].Undecodable? {
        return None;
      }
      if tools[i].name != "" {
        out := out + [tools[i]];
      }
      i := i + 1;
    }
    assert tools[..|tools|] == tools;
    return Some(out);
  }

  /** Turn errors come before tool errors; a ready payload has faithful turns and a positive max_tokens. */
  method BuildPayload(messages: seq<Message>, tools: seq<Tool>, requested: int, hardCap: int, thinking: bool)
    returns (r: PayloadResult)
    ensures r.TurnError? <==>
            || (exists i :: 0 <= i < |messages| && messages[i].role.Unknown?)
            || Items(messages) == [] || Items(messages)[0].side == AssistantSide
    ensures r.ToolError? ==> Undecodable in tools
    ensures r.Ready? ==>
              && Undecodable !in tools && r.payload.tools == NamedTools(tools)
              && r.payload.system == SystemParts(messages)
              && Renders(r.payload.turns, Runs(Items(messages)))
              && r.payload.turns != [] && r.payload.turns[0].side == UserSide
              && r.payload.maxTokens == MaxTokens(requested, hardCap, thinking)
  {
    var built := BuildTurns(messages);
    if built.Failed? {
      return TurnError(built.error);
    }
    var kept := BuildTools(tools);
    if kept.None? {
      return ToolError;
    }
    return Ready(Payload(built.system, built.turns, kept.value, MaxTokens(requested, hardCap, thinking)));
  }
}
