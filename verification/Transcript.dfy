/**
  The transcript reducer on values: what each operation, batch, reset and page merge computes.

  Names follow `apps/web/src/transcript-model.ts`. Fields the reducer only copies (roles, states,
  timestamps, tool inputs and the like) are kept together in an opaque `body`.
*/
module Transcript {
  import opened Wrappers
  import opened Json
  import opened Ordering

  /** One UTF-16 code unit, the unit in which JavaScript measures string length. */
  newtype CodeUnit = x: int | 0 <= x < 0x1_0000
  type Text = seq<CodeUnit>

  type JsonObject = j: Json | j.Object? witness Json.Object(map[])

  // ---------- entities ----------

  /** `text` is present exactly on text and thinking frames. */
  datatype Frame = Frame(frameId: string, text: Option<Text>, body: Json)

  datatype Step = Step(stepId: string, ordinal: int, body: Json, frames: seq<Frame>)

  datatype Turn = Turn(turnId: string, ordinal: int, body: Json, steps: seq<Step>)

  datatype Item =
    | TurnItem(turn: Turn)
    | MarkerItem(markerId: string, body: Json)
    | TaskRefItem(refId: string, body: Json)

  datatype Task = Task(taskId: string, outputTail: Text, body: Json)

  /** The four keyed collections that the reducer treats alike. */
  datatype Table = Interactions | Attachments | Todos | Prompts
  datatype Tables = Tables(
    interactions: map<string, Json>,
    attachments: map<string, Json>,
    todos: map<string, Json>,
    prompts: map<string, Json>)

  datatype State = State(
    agentId: string,
    items: seq<Item>,
    tasks: map<string, Task>,
    tables: Tables,
    meta: JsonObject,
    pendingInteractions: set<string>,
    hasMoreOlder: bool,
    cursor: int)

  datatype Page = Page(
    agentId: string,
    items: seq<Item>,
    hasMore: bool,
    tasks: seq<Task>,
    interactions: seq<Json>,
    attachments: seq<Json>,
    todos: seq<Json>,
    prompts: seq<Json>,
    meta: JsonObject,
    pendingInteractions: set<string>,
    cursor: Option<int>)

  datatype TurnHead = TurnHead(turnId: string, ordinal: int, body: Json)
  datatype StepHead = StepHead(stepId: string, ordinal: int, body: Json)

  /** An append's offset; None stands for a missing or unreadable number, JavaScript's NaN. */
  type Offset = Option<int>

  datatype Operation =
    | Reset(agentId: Option<string>, snapshot: Option<Page>)
    | TurnUpsert(head: TurnHead)
    | StepUpsert(turnId: string, step: Option<StepHead>)
    | FrameUpsert(turnId: string, stepId: string, frame: Option<Frame>)
    | AppendFrame(turnId: string, stepId: string, frameId: string, offset: Offset, text: Text)
    | AppendTask(taskId: string, offset: Offset, text: Text)
    | ItemUpsert(item: Item)
    | ItemsRemove(ids: set<string>)
    | TaskUpsert(task: Option<Task>)
    | TableUpsert(table: Table, value: Json)
    | MetaMerge(patch: JsonObject)
    | Unknown

  datatype Outcome = Outcome(state: State, gap: bool)

  /** What the comparator of `sortItems` can see of an item. */
  datatype SortKey = TurnKey(ordinal: int) | OtherKey

  /** The engine's choice for `sortItems`, a function of what the comparator can see. */
  type ItemOrder = seq<SortKey> -> seq<nat>

  // ---------- identities and lookups ----------

  function ItemId(item: Item): string {
    match item
    case TurnItem(turn) => "turn:" + turn.turnId
    case MarkerItem(id, _) => "marker:" + id
    case TaskRefItem(id, _) => "taskref:" + id
  }

  predicate IsTurn(item: Item, turnId: string) {
    item.TurnItem? && item.turn.turnId == turnId
  }

  function ItemIds(items: seq<Item>): (ids: seq<string>)
    ensures |ids| == |items| && forall i :: 0 <= i < |items| ==> ids[i] == ItemId(items[i])
  {
    seq(|items|, i requires 0 <= i < |items| => ItemId(items[i]))
  }

  function StepIds(steps: seq<Step>): (ids: seq<string>)
    ensures |ids| == |steps| && forall i :: 0 <= i < |steps| ==> ids[i] == steps[i].stepId
  {
    seq(|steps|, i requires 0 <= i < |steps| => steps[i].stepId)
  }

  function FrameIds(frames: seq<Frame>): (ids: seq<string>)
    ensures |ids| == |frames| && forall i :: 0 <= i < |frames| ==> ids[i] == frames[i].frameId
  {
    seq(|frames|, i requires 0 <= i < |frames| => frames[i].frameId)
  }

  /** The first position of `id`. */
  function IndexOf(ids: seq<string>, id: string): (at: Option<nat>)
    ensures at.Some? ==> at.value < |ids| && ids[at.value] == id && id !in ids[..at.value]
    ensures at.None? ==> id !in ids
  {
    if ids == [] then None
    else if ids[0] == id then Some(0)
    else
      var at := IndexOf(ids[1..], id);
      if at.None? then None else Some(at.value + 1)
  }

  /** The first turn called `turnId`; the kind prefix of item ids keeps other kinds apart. */
  function FindTurn(items: seq<Item>, turnId: string): (at: Option<nat>)
    ensures at.Some? ==> at.value < |items| && IsTurn(items[at.value], turnId)
    ensures at.Some? ==> forall i :: 0 <= i < at.value ==> !IsTurn(items[i], turnId)
    ensures at.None? ==> forall i :: 0 <= i < |items| ==> !IsTurn(items[i], turnId)
  {
    forall i | 0 <= i < |items| ensures ItemId(items[i]) == "turn:" + turnId <==> IsTurn(items[i], turnId) {
      TurnIdsAreApart(items[i], turnId);
    }
    var at := IndexOf(ItemIds(items), "turn:" + turnId);
    assert at.Some? ==> forall i :: 0 <= i < at.value ==> ItemIds(items)[i] in ItemIds(items)[..at.value];
    at
  }

  lemma FindTurnIsIndexOf(items: seq<Item>, turnId: string)
    ensures FindTurn(items, turnId) == IndexOf(ItemIds(items), "turn:" + turnId)
  {
  }

  lemma TurnIdsAreApart(item: Item, turnId: string)
    ensures ItemId(item) == "turn:" + turnId <==> IsTurn(item, turnId)
  {
    match item
    case TurnItem(turn) => assert ("turn:" + turn.turnId)[5..] == turn.turnId && ("turn:" + turnId)[5..] == turnId;
    case MarkerItem(_, _) => assert ItemId(item)[0] == 'm';
    case TaskRefItem(_, _) => assert ItemId(item)[1] == 'a';
  }

  function FindStep(items: seq<Item>, turnId: string, stepId: string): (at: Option<(nat, nat)>)
    ensures at.Some? ==>
      && at.value.0 < |items| && IsTurn(items[at.value.0], turnId)
      && at.value.1 < |items[at.value.0].turn.steps|
      && items[at.value.0].turn.steps[at.value.1].stepId == stepId
      && (forall i :: 0 <= i < at.value.0 ==> !IsTurn(items[i], turnId))
      && (forall j :: 0 <= j < at.value.1 ==> items[at.value.0].turn.steps[j].stepId != stepId)
    ensures at.None? ==> forall i :: 0 <= i < |items| && IsTurn(items[i], turnId) ==>
      (exists i' :: 0 <= i' < i && IsTurn(items[i'], turnId)) ||
      forall j :: 0 <= j < |items[i].turn.steps| ==> items[i].turn.steps[j].stepId != stepId
  {
    var i := FindTurn(items, turnId);
    if i.None? then None
    else
      var ids := StepIds(items[i.value].turn.steps);
      var j := IndexOf(ids, stepId);
      assert j.Some? ==> forall k :: 0 <= k < j.value ==> ids[k] in ids[..j.value];
      if j.None? then None else Some((i.value, j.value))
  }

  function StepAt(items: seq<Item>, at: (nat, nat)): Step
    requires at.0 < |items| && items[at.0].TurnItem? && at.1 < |items[at.0].turn.steps|
  {
    items[at.0].turn.steps[at.1]
  }

  /** The items with the step at `at` replaced. */
  function PutStep(items: seq<Item>, at: (nat, nat), step: Step): (r: seq<Item>)
    requires at.0 < |items| && items[at.0].TurnItem? && at.1 < |items[at.0].turn.steps|
  {
    var turn := items[at.0].turn;
    items[at.0 := TurnItem(turn.(steps := turn.steps[at.1 := step]))]
  }

  /** Replacing a step by one of its name moves nothing. */
  lemma PutStepKeepsPlaces(items: seq<Item>, at: (nat, nat), step: Step, turnId: string, stepId: string)
    requires at.0 < |items| && items[at.0].TurnItem? && at.1 < |items[at.0].turn.steps|
    requires step.stepId == StepAt(items, at).stepId
    ensures FindStep(PutStep(items, at, step), turnId, stepId) == FindStep(items, turnId, stepId)
    ensures StepAt(PutStep(items, at, step), at) == step
  {
    var items' := PutStep(items, at, step);
    FindTurnIsIndexOf(items, turnId);
    FindTurnIsIndexOf(items', turnId);
    assert ItemIds(items') == ItemIds(items);
    assert StepIds(items'[at.0].turn.steps) == StepIds(items[at.0].turn.steps);
  }

  function FindFrame(items: seq<Item>, turnId: string, stepId: string, frameId: string): Option<Frame> {
    var at := FindStep(items, turnId, stepId);
    if at.None? then None
    else
      var frames := StepAt(items, at.value).frames;
      var k := IndexOf(FrameIds(frames), frameId);
      if k.None? then None else Some(frames[k.value])
  }

  /** The items with a found frame's text replaced. */
  function RewriteFrame(items: seq<Item>, turnId: string, stepId: string, frameId: string, text: Text): seq<Item>
    requires FindFrame(items, turnId, stepId, frameId).Some?
  {
    var at := FindStep(items, turnId, stepId).value;
    var step := StepAt(items, at);
    var k := IndexOf(FrameIds(step.frames), frameId).value;
    PutStep(items, at, step.(frames := step.frames[k := step.frames[k].(text := Some(text))]))
  }

  /** Rewriting a text moves neither steps nor frames. */
  lemma RewritingKeepsPlaces(items: seq<Item>, turnId: string, stepId: string, frameId: string, text: Text,
    turnId': string, stepId': string)
    requires FindFrame(items, turnId, stepId, frameId).Some?
    ensures var items' := RewriteFrame(items, turnId, stepId, frameId, text);
      var at := FindStep(items, turnId', stepId');
      && FindStep(items', turnId', stepId') == at
      && (at.Some? ==> FrameIds(StepAt(items', at.value).frames) == FrameIds(StepAt(items, at.value).frames))
  {
    var at := FindStep(items, turnId, stepId).value;
    var step := StepAt(items, at);
    var k := IndexOf(FrameIds(step.frames), frameId).value;
    var frames := step.frames[k := step.frames[k].(text := Some(text))];
    assert FrameIds(frames) == FrameIds(step.frames);
    PutStepKeepsPlaces(items, at, step.(frames := frames), turnId', stepId');
  }

  /** Replace in place when found, append otherwise. */
  function Put<T>(s: seq<T>, at: Option<nat>, x: T): seq<T>
    requires at.Some? ==> at.value < |s|
  {
    if at.Some? then s[at.value := x] else s + [x]
  }

  // ---------- sorting ----------

  function SortKeys(items: seq<Item>): seq<SortKey> {
    seq(|items|, i requires 0 <= i < |items| =>
      if items[i].TurnItem? then TurnKey(items[i].turn.ordinal) else OtherKey)
  }

  function SortItems(order: ItemOrder, items: seq<Item>): seq<Item> {
    Arrange(items, order(SortKeys(items)))
  }

  function StepOrdinals(steps: seq<Step>): seq<int> {
    seq(|steps|, i requires 0 <= i < |steps| => steps[i].ordinal)
  }

  function SortSteps(steps: seq<Step>): seq<Step> {
    Arrange(steps, StableOrder(StepOrdinals(steps)))
  }

  // ---------- pages ----------

  const EmptyTables := Tables(map[], map[], map[], map[])

  function KeyName(table: Table): string {
    match table
    case Interactions => "interactionId"
    case Attachments => "attachmentId"
    case Todos => "todoId"
    case Prompts => "promptId"
  }

  /** The string under `name`, if `value` is an object that has one there. */
  function KeyOf(value: Json, name: string): Option<string> {
    if value.Object? && name in value.fields && value.fields[name].String?
    then Some(value.fields[name].s) else None
  }

  function KeyedMap(values: seq<Json>, name: string): map<string, Json> {
    if values == [] then map[]
    else
      var last := values[|values| - 1];
      var m := KeyedMap(values[..|values| - 1], name);
      if KeyOf(last, name).Some? then m[KeyOf(last, name).value := last] else m
  }

  function TasksById(tasks: seq<Task>): map<string, Task> {
    if tasks == [] then map[]
    else TasksById(tasks[..|tasks| - 1])[tasks[|tasks| - 1].taskId := tasks[|tasks| - 1]]
  }

  function TranscriptFromPage(page: Page): State {
    State(
      page.agentId, page.items, TasksById(page.tasks),
      Tables(
        KeyedMap(page.interactions, KeyName(Interactions)),
        KeyedMap(page.attachments, KeyName(Attachments)),
        KeyedMap(page.todos, KeyName(Todos)),
        KeyedMap(page.prompts, KeyName(Prompts))),
      page.meta, page.pendingInteractions, page.hasMore,
      if page.cursor.Some? then page.cursor.value else 0)
  }

  function EmptyTranscript(agentId: string): State {
    State(agentId, [], map[], EmptyTables, Json.Object(map[]), {}, false, 0)
  }

  function ApplyTranscriptReset(current: Option<State>, page: Page): State {
    var next := TranscriptFromPage(page);
    if current.None? then next
    else if next.cursor > 0 && current.value.cursor > 0 && next.cursor < current.value.cursor then current.value
    else if next.items == [] && current.value.items != [] then
      if next.cursor <= current.value.cursor then current.value
      else next.(items := current.value.items)
    else next
  }

  function MergeTranscriptPage(current: Option<State>, currentSession: string, targetSession: string,
    page: Page): State {
    if currentSession == targetSession then ApplyTranscriptReset(current, page) else TranscriptFromPage(page)
  }

  function PrependTranscriptPage(state: State, page: Page): State {
    state.(items := WithoutIds(page.items, set id | id in ItemIds(state.items)) + state.items,
      hasMoreOlder := page.hasMore)
  }

  function WithoutIds(items: seq<Item>, ids: set<string>): (kept: seq<Item>)
    ensures forall item :: item in kept <==> item in items && ItemId(item) !in ids
  {
    if items == [] then []
    else
      var kept := WithoutIds(items[..|items| - 1], ids);
      var last := items[|items| - 1];
      assert items == items[..|items| - 1] + [last];
      if ItemId(last) in ids then kept else kept + [last]
  }

  /** The positions of the items that are not listed. */
  function Unlisted(items: seq<Item>, ids: set<string>): (at: seq<nat>)
    ensures forall k :: 0 <= k < |at| ==> at[k] < |items|
  {
    if items == [] then []
    else
      var n := |items| - 1;
      var before := Unlisted(items[..n], ids);
      if ItemId(items[n]) in ids then before else before + [n]
  }

  lemma {:induction false} UnlistedPositions(items: seq<Item>, ids: set<string>, i: nat)
    requires i < |items|
    ensures i in Unlisted(items, ids) <==> ItemId(items[i]) !in ids
  {
    var n := |items| - 1;
    if i < n {
      UnlistedPositions(items[..n], ids, i);
    } else {
      var before := Unlisted(items[..n], ids);
      assert forall k :: 0 <= k < |before| ==> before[k] < n;
      assert n !in before;
    }
  }

  /** Exactly these items are left, in the same order. */
  lemma {:induction false} RemovalKeepsOrder(items: seq<Item>, ids: set<string>)
    ensures var kept, at := WithoutIds(items, ids), Unlisted(items, ids);
      && |at| == |kept|
      && (forall k :: 0 <= k < |at| ==> kept[k] == items[at[k]])
      && (forall k, k' :: 0 <= k < k' < |at| ==> at[k] < at[k'])
  {
    if items != [] {
      RemovalKeepsOrder(items[..|items| - 1], ids);
    }
  }

  // ---------- operations ----------

  function Done(state: State): Outcome { Outcome(state, false) }
  function Gap(state: State): Outcome { Outcome(state, true) }

  /** What an append at `offset` does to text already there: NaN compares false both ways and extends. */
  datatype Append = Repeat | Overshoot | Extend(text: Text)

  function AppendTo(shown: Text, offset: Offset, text: Text): Append {
    if offset.Some? && offset.value < |shown| then Repeat
    else if offset.Some? && offset.value > |shown| then Overshoot
    else Extend(shown + text)
  }

  function UpsertTurn(order: ItemOrder, items: seq<Item>, head: TurnHead): seq<Item> {
    var at := FindTurn(items, head.turnId);
    var steps := if at.Some? then items[at.value].turn.steps else [];
    SortItems(order, Put(items, at, TurnItem(Turn(head.turnId, head.ordinal, head.body, steps))))
  }

  function UpsertStep(steps: seq<Step>, head: StepHead): seq<Step> {
    var at := IndexOf(StepIds(steps), head.stepId);
    var frames := if at.Some? then steps[at.value].frames else [];
    SortSteps(Put(steps, at, Step(head.stepId, head.ordinal, head.body, frames)))
  }

  function UpsertFrame(frames: seq<Frame>, frame: Frame): seq<Frame> {
    Put(frames, IndexOf(FrameIds(frames), frame.frameId), frame)
  }

  function UpsertInTable(tables: Tables, table: Table, value: Json): Tables {
    var key := KeyOf(value, KeyName(table));
    if key.None? then tables
    else match table
      case Interactions => tables.(interactions := tables.interactions[key.value := value])
      case Attachments => tables.(attachments := tables.attachments[key.value := value])
      case Todos => tables.(todos := tables.todos[key.value := value])
      case Prompts => tables.(prompts := tables.prompts[key.value := value])
  }

  function SnapshotState(state: State, agentId: Option<string>, snapshot: Page): State {
    TranscriptFromPage(snapshot.(
      agentId := if agentId.Some? then agentId.value else state.agentId,
      pendingInteractions := {},
      cursor := None))
  }

  function ApplyOperation(order: ItemOrder, state: State, operation: Operation): Outcome {
    match operation {
    case Reset(agentId, snapshot) =>
      if snapshot.None? then Gap(state) else Done(SnapshotState(state, agentId, snapshot.value))
    case TurnUpsert(head) =>
      Done(state.(items := UpsertTurn(order, state.items, head)))
    case StepUpsert(turnId, step) =>
      var at := FindTurn(state.items, turnId);
      if at.None? || step.None? then Gap(state)
      else
        var turn := state.items[at.value].turn;
        Done(state.(items := state.items[at.value := TurnItem(turn.(steps := UpsertStep(turn.steps, step.value)))]))
    case FrameUpsert(turnId, stepId, frame) =>
      var at := FindStep(state.items, turnId, stepId);
      if at.None? || frame.None? then Gap(state)
      else
        var step := StepAt(state.items, at.value);
        Done(state.(items := PutStep(state.items, at.value, step.(frames := UpsertFrame(step.frames, frame.value)))))
    case AppendFrame(turnId, stepId, frameId, offset, text) =>
      var at := FindStep(state.items, turnId, stepId);
      if at.None? then Gap(state)
      else
        var step := StepAt(state.items, at.value);
        var k := IndexOf(FrameIds(step.frames), frameId);
        if k.None? || step.frames[k.value].text.None? then Gap(state)
        else
          var frame := step.frames[k.value];
          (match AppendTo(frame.text.value, offset, text)
          case Repeat => Done(state)
          case Overshoot => Gap(state)
          case Extend(longer) => Done(state.(items := PutStep(state.items, at.value,
            step.(frames := step.frames[k.value := frame.(text := Some(longer))])))))
    case AppendTask(taskId, offset, text) =>
      if taskId !in state.tasks then Gap(state)
      else
        var task := state.tasks[taskId];
        (match AppendTo(task.outputTail, offset, text)
        case Repeat => Done(state)
        case Overshoot => Gap(state)
        case Extend(longer) => Done(state.(tasks := state.tasks[task.taskId := task.(outputTail := longer)])))
    case ItemUpsert(item) =>
      Done(state.(items := Put(state.items, IndexOf(ItemIds(state.items), ItemId(item)), item)))
    case ItemsRemove(ids) =>
      Done(state.(items := WithoutIds(state.items, ids)))
    case TaskUpsert(task) =>
      Done(if task.None? then state else state.(tasks := state.tasks[task.value.taskId := task.value]))
    case TableUpsert(table, value) =>
      Done(state.(tables := UpsertInTable(state.tables, table, value)))
    case MetaMerge(patch) =>
      Done(state.(meta := DeepMerge(state.meta, patch)))
    case Unknown =>
      Gap(state)
    }
  }

  /** The ways an append to a frame can go. */
  lemma AppendFrameCases(order: ItemOrder, state: State, operation: Operation)
    requires operation.AppendFrame?
    ensures var next := ApplyOperation(order, state, operation);
      var frame := FindFrame(state.items, operation.turnId, operation.stepId, operation.frameId);
      if frame.None? || frame.value.text.None? then next == Gap(state)
      else match AppendTo(frame.value.text.value, operation.offset, operation.text)
        case Repeat => next == Done(state)
        case Overshoot => next == Gap(state)
        case Extend(longer) => next == Done(state.(items :=
          RewriteFrame(state.items, operation.turnId, operation.stepId, operation.frameId, longer)))
  {
  }

  /** The operations of a batch in order, up to the first gap. */
  function RunOperations(order: ItemOrder, state: State, operations: seq<Operation>): Outcome
    decreases |operations|
  {
    if operations == [] then Done(state)
    else
      var first := ApplyOperation(order, state, operations[0]);
      if first.gap then first else RunOperations(order, first.state, operations[1..])
  }

  /** Running one operation more; after a gap nothing more runs. */
  lemma {:induction false} RunOneMore(order: ItemOrder, state: State, operations: seq<Operation>, d: nat)
    requires d < |operations|
    ensures var before := RunOperations(order, state, operations[..d]);
      RunOperations(order, state, operations[..d + 1]) ==
        if before.gap then before else ApplyOperation(order, before.state, operations[d])
    decreases |operations|
  {
    assert operations[..d + 1][0] == operations[0];
    if d > 0 {
      var first := ApplyOperation(order, state, operations[0]);
      assert operations[..d][1..] == operations[1..][..d - 1] && operations[..d + 1][1..] == operations[1..][..d];
      if !first.gap { RunOneMore(order, first.state, operations[1..], d - 1); }
    } else {
      assert operations[..1][1..] == [];
    }
  }

  /** Operation `i` is reached and goes through. */
  predicate GoesThrough(order: ItemOrder, state: State, operations: seq<Operation>, i: nat)
    requires i < |operations|
  {
    !RunOperations(order, state, operations[..i + 1]).gap
  }

  lemma {:induction false} GapEndsRun(order: ItemOrder, state: State, operations: seq<Operation>, d: nat, e: nat)
    requires d <= e <= |operations| && RunOperations(order, state, operations[..d]).gap
    ensures RunOperations(order, state, operations[..e]) == RunOperations(order, state, operations[..d])
    decreases e
  {
    if d < e {
      GapEndsRun(order, state, operations, d, e - 1);
      RunOneMore(order, state, operations, e - 1);
    }
  }

  function ApplyTranscriptOps(order: ItemOrder, current: State, operations: seq<Operation>,
    sequence: Option<int>): Outcome {
    if sequence.Some? && sequence.value <= current.cursor then Done(current)
    else if sequence.Some? && current.cursor > 0 && sequence.value > current.cursor + 1 then Gap(current)
    else
      var run := RunOperations(order, current, operations);
      if run.gap then Gap(current)
      else if sequence.Some? then Done(run.state.(cursor := sequence.value))
      else run
  }

  /** A batch leaves the state alone or, if its operations all go through, puts it where they lead, under a cursor. */
  lemma BatchStates(order: ItemOrder, current: State, operations: seq<Operation>, sequence: Option<int>)
    ensures var result := ApplyTranscriptOps(order, current, operations, sequence);
      var run := RunOperations(order, current, operations);
      && (result.gap ==> result.state == current)
      && (result.state == current || (!run.gap && result.state == run.state.(cursor := result.state.cursor)))
  {
  }
}
