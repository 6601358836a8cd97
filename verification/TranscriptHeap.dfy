/**
  The reducer on objects: what each operation and each batch edits in place, what it leaves alone, and
  that it computes what the reducer on values computes.
*/
module TranscriptHeap {
  import opened Wrappers
  import opened Json
  import opened Transcript
  import opened TranscriptObjects

  // ---------- operations ----------

  class SnapshotObject {
    var items: ArrayObject<ItemObject>
    var rest: Page
    ghost var below: set<object>

    constructor (items: ArrayObject<ItemObject>, rest: Page, ghost below: set<object>)
      ensures this.items == items && this.rest == rest && this.below == below
    {
      this.items, this.rest, this.below := items, rest, below;
    }

    ghost function Repr(): set<object>
      reads this
    {
      {this, items} + below
    }

    ghost predicate Is(v: Page)
      reads this, items, below
    {
      this !in below && items !in below && ItemsAre(items.elems, below, v.items) && v == rest.(items := v.items)
    }
  }

  /** Operations by what objects of their payload the state may take in. */
  datatype OperationObject =
    | Scalar(operation: Operation)
    | FrameOf(turnId: string, stepId: string, frame: FrameObject)
    | ItemOf(item: ItemObject)
    | SnapshotOf(agentId: Option<string>, snapshot: SnapshotObject)
  {
    ghost function Roots(): set<object> {
      match this
      case Scalar(_) => {}
      case FrameOf(_, _, frame) => {frame}
      case ItemOf(item) => item.Objects()
      case SnapshotOf(_, snapshot) => {snapshot}
    }

    /** Everything the payload reaches. */
    ghost function Repr(): (repr: set<object>)
      reads Roots()
      ensures Roots() <= repr
    {
      match this
      case Scalar(_) => {}
      case FrameOf(_, _, frame) => {frame}
      case ItemOf(item) => item.Repr()
      case SnapshotOf(_, snapshot) => snapshot.Repr()
    }

    ghost predicate Is(v: Operation)
      reads Roots(), Repr()
    {
      match this
      case Scalar(operation) => v == operation && TakesNothing(operation)
      case FrameOf(turnId, stepId, frame) =>
        v.FrameUpsert? && v.turnId == turnId && v.stepId == stepId && v.frame.Some? && frame.Is(v.frame.value)
      case ItemOf(item) => v.ItemUpsert? && item.Is(v.item)
      case SnapshotOf(agentId, snapshot) =>
        v.Reset? && v.agentId == agentId && v.snapshot.Some? && snapshot.Is(v.snapshot.value)
    }
  }

  predicate TakesNothing(operation: Operation) {
    match operation
    case Reset(_, snapshot) => snapshot.None?
    case FrameUpsert(_, _, frame) => frame.None?
    case ItemUpsert(_) => false
    case _ => true
  }

  /** The objects of a state that an operation may write. */
  ghost function Writable(state: StateObject, operation: Operation): set<object>
    reads *
  {
    match operation
    case AppendFrame(turnId, _, frameId, _, _) =>
      set o: object | o in state.TurnReach(turnId) && o is FrameObject && (o as FrameObject).frameId == frameId
    case StepUpsert(turnId, _) => {state} + NoFrames(state.TurnReach(turnId))
    case FrameUpsert(turnId, _, _) => {state} + NoFrames(state.TurnReach(turnId))
    case TurnUpsert(_) => {state, state.items}
    case ItemUpsert(_) => {state, state.items}
    case ItemsRemove(_) => {state}
    case MetaMerge(_) => {state}
    case AppendTask(_, _, _) => {state.tasks}
    case TaskUpsert(_) => {state.tasks}
    case TableUpsert(table, _) => {state.tables.Of(table)}
    case Reset(_, _) => {}
    case Unknown => {}
  }

  /** The name of the turns an operation is about. */
  function Home(operation: Operation): string {
    match operation
    case TurnUpsert(head) => head.turnId
    case StepUpsert(turnId, _) => turnId
    case FrameUpsert(turnId, _, _) => turnId
    case AppendFrame(turnId, _, _, _, _) => turnId
    case ItemUpsert(item) => ItemName(item)
    case _ => ""
  }

  /** What an operation that takes in `added` brings to turns called `id`. */
  ghost function Gain(operation: Operation, id: string, added: set<object>): set<object> {
    if operation.Reset? then added else Share(id, Home(operation), added)
  }

  ghost function NoFrames(objects: set<object>): set<object> {
    set o: object | o in objects && !(o is FrameObject)
  }

  lemma WritableIsOwn(state: StateObject, v: State, operation: Operation)
    requires state.Is(v)
    ensures Writable(state, operation) <= state.Repr()
  {
    forall id ensures state.TurnReach(id) <= state.below {}
  }

  lemma ReachIsWritable(state: StateObject, operation: Operation, objects: set<object>)
    requires operation.StepUpsert? || operation.FrameUpsert?
    requires objects <= state.TurnReach(operation.turnId) && forall o: object :: o in objects ==> !(o is FrameObject)
    ensures objects + {state} <= Writable(state, operation)
  {
  }

  function FindTurnObject(state: StateObject, ghost v: State, turnId: string): (at: Option<nat>)
    requires state.Is(v)
    reads state, state.Own(), state.below
    ensures at == FindTurn(v.items, turnId)
    ensures at.Some? ==> state.TurnAt(v, at.value) && state.items.elems[at.value].turn.Repr() <= state.TurnReach(turnId)
  {
    IdsAgree(state.items.elems, state.below, v.items);
    FindTurnIsIndexOf(v.items, turnId);
    var at := IndexOf(ObjectIds(state.items.elems), "turn:" + turnId);
    state.OwnTurnsAreKnown(v);
    assert at.Some? ==> state.TurnAt(v, at.value) by { if at.Some? { state.ItemAt(v, at.value); } }
    at
  }

  function FindStepObject(state: StateObject, ghost v: State, turnId: string, stepId: string): (at: Option<(nat, nat)>)
    requires state.Is(v)
    reads state, state.Own(), state.below
    ensures at == FindStep(v.items, turnId, stepId)
    ensures at.Some? ==>
      && state.TurnAt(v, at.value.0) && state.items.elems[at.value.0].turn.Repr() <= state.TurnReach(turnId)
      && at.value.1 < |state.items.elems[at.value.0].turn.steps.elems|
  {
    var i := FindTurnObject(state, v, turnId);
    if i.None? then None
    else
      var turn := state.items.elems[i.value].turn;
      StepIdsAgree(turn.steps.elems, turn.below, v.items[i.value].turn.steps);
      var j := IndexOf(StepObjectIds(turn.steps.elems), stepId);
      if j.None? then None else Some((i.value, j.value))
  }

  lemma StepIdsAgree(steps: seq<StepObject>, below: set<object>, vs: seq<Step>)
    requires StepsAre(steps, below, vs)
    ensures StepObjectIds(steps) == StepIds(vs)
  {
    forall j | 0 <= j < |steps| ensures steps[j].stepId == vs[j].stepId { assert steps[j].Is(vs[j]); }
  }

  /** `after` is the value of the state once the operation is done. */
  method AppendToFrame(order: ItemOrder, state: StateObject, ghost v: State, operation: Operation)
    returns (gap: bool, ghost after: State)
    requires state.Is(v) && operation.AppendFrame?
    modifies Writable(state, operation)
    ensures unchanged(state)
    ensures forall id :: state.TurnReach(id) <= old(state.TurnReach(id))
    ensures state.Is(after) && Outcome(after, gap) == ApplyOperation(order, v, operation)
  {
    after := v;
    var at := FindStepObject(state, v, operation.turnId, operation.stepId);
    if at.None? { return true, v; }
    var (i, j) := at.value;
    var step := state.items.elems[i].turn.steps.elems[j];
    ghost var stepV := v.items[i].turn.steps[j];
    assert step.Is(stepV);
    var ids := FrameObjectIds(step.frames.elems);
    assert ids == FrameIds(stepV.frames);
    var k := IndexOf(ids, operation.frameId);
    if k.None? || step.frames.elems[k.value].text.None? { return true, v; }
    match AppendTo(step.frames.elems[k.value].text.value, operation.offset, operation.text) {
      case Repeat => return false, v;
      case Overshoot => return true, v;
      case Extend(longer) =>
        assert step.frames.elems[k.value] in state.items.elems[i].turn.Repr();
        state.PutText(v, i, j, k.value, longer);
        after := v.(items := PutStep(v.items, (i, j),
          stepV.(frames := stepV.frames[k.value := stepV.frames[k.value].(text := Some(longer))])));
        return false, after;
    }
  }

  method UpsertStepObject(order: ItemOrder, state: StateObject, ghost v: State, operation: Operation)
    returns (gap: bool, ghost after: State, ghost added: set<object>)
    requires state.Is(v) && operation.StepUpsert?
    modifies Writable(state, operation)
    ensures fresh(added) && state.below == old(state.below) + added
    ensures unchanged(state`items, state`tasks, state`tables)
    ensures forall id :: state.TurnReach(id) <= old(state.TurnReach(id)) + Share(id, Home(operation), added)
    ensures state.Is(after) && Outcome(after, gap) == ApplyOperation(order, v, operation)
  {
    var i := FindTurnObject(state, v, operation.turnId);
    if i.None? || operation.step.None? { return true, v, {}; }
    ghost var turnV := v.items[i.value].turn;
    var turn := state.items.elems[i.value].turn;
    ReachIsWritable(state, operation, {turn, turn.steps});
    added := state.PutStep(v, i.value, operation.step.value);
    gap := false;
    after := v.(items := v.items[i.value := TurnItem(turnV.(steps := UpsertStep(turnV.steps, operation.step.value)))]);
  }

  /** The operations that write a map or replace the metadata. */
  method ApplyToCollections(order: ItemOrder, state: StateObject, ghost v: State, operation: Operation)
    returns (gap: bool, ghost after: State)
    requires state.Is(v) && TakesNothing(operation)
    requires !operation.TurnUpsert? && !operation.StepUpsert? && !operation.AppendFrame? && !operation.ItemsRemove?
    modifies Writable(state, operation)
    ensures state.below == old(state.below) && unchanged(state`items, state`tasks, state`tables)
    ensures state.items == old(state.items) && unchanged(old(state.items))
    ensures forall id :: state.TurnReach(id) <= old(state.TurnReach(id))
    ensures state.Is(after) && Outcome(after, gap) == ApplyOperation(order, v, operation)
  {
    gap, after := false, v;
    match operation {
      case AppendTask(taskId, offset, text) =>
        if taskId !in state.tasks.entries { return true, v; }
        var task := state.tasks.entries[taskId];
        match AppendTo(task.outputTail, offset, text) {
          case Repeat =>
          case Overshoot => gap := true;
          case Extend(longer) =>
            state.SetTask(v, task.taskId, task.(outputTail := longer));
            after := v.(tasks := v.tasks[task.taskId := task.(outputTail := longer)]);
        }
      case TaskUpsert(task) =>
        if task.Some? {
          state.SetTask(v, task.value.taskId, task.value);
          after := v.(tasks := v.tasks[task.value.taskId := task.value]);
        }
      case TableUpsert(table, value) =>
        var key := KeyOf(value, KeyName(table));
        if key.Some? {
          state.SetEntry(v, table, key.value, value);
          after := v.(tables := UpsertInTable(v.tables, table, value));
        }
      case MetaMerge(patch) =>
        var merged := DeepMergeLoop(state.meta, patch);
        state.SetMeta(v, merged);
        after := v.(meta := merged);
      case _ => gap := true;
    }
  }

  /** The object that is frame `k` of the step at `at`. */
  ghost function FrameIn(state: StateObject, at: (nat, nat), k: nat): Option<FrameObject>
    reads *
  {
    if at.0 < |state.items.elems| && state.items.elems[at.0].TurnRef? then
      var steps := state.items.elems[at.0].turn.steps.elems;
      if at.1 < |steps| && k < |steps[at.1].frames.elems| then Some(steps[at.1].frames.elems[k]) else None
    else None
  }

  /** `frame` itself is the frame that an append to this step and this id would find. */
  ghost predicate Places(state: StateObject, v: State, turnId: string, stepId: string, frameId: string,
    frame: FrameObject)
    reads *
  {
    var at := FindStep(v.items, turnId, stepId);
    at.Some? &&
    var k := IndexOf(FrameIds(StepAt(v.items, at.value).frames), frameId);
    k.Some? && FrameIn(state, at.value, k.value) == Some(frame)
  }

  lemma UpsertedFrameIsFound(frames: seq<Frame>, frame: Frame)
    ensures var at := IndexOf(FrameIds(frames), frame.frameId);
      IndexOf(FrameIds(UpsertFrame(frames, frame)), frame.frameId) == if at.Some? then at else Some(|frames|)
  {
    var at := IndexOf(FrameIds(frames), frame.frameId);
    var put := UpsertFrame(frames, frame);
    if at.Some? {
      assert FrameIds(put) == FrameIds(frames);
    } else {
      var found := IndexOf(FrameIds(put), frame.frameId);
      assert FrameIds(put)[|frames|] == frame.frameId;
      assert FrameIds(put) == FrameIds(frames) + [frame.frameId];
      assert found.Some?;
    }
  }

  /** What a frame upsert computes where its step is found, and where the frame is found afterwards. */
  lemma FrameUpsertCases(order: ItemOrder, v: State, operation: Operation, at: (nat, nat))
    requires operation.FrameUpsert? && operation.frame.Some?
    requires FindStep(v.items, operation.turnId, operation.stepId) == Some(at)
    ensures var step := StepAt(v.items, at);
      var frames := UpsertFrame(step.frames, operation.frame.value);
      var next := v.(items := PutStep(v.items, at, step.(frames := frames)));
      && ApplyOperation(order, v, operation) == Done(next)
      && FindStep(next.items, operation.turnId, operation.stepId) == Some(at)
      && StepAt(next.items, at).frames == frames
  {
    var step := StepAt(v.items, at);
    PutStepKeepsPlaces(v.items, at, step.(frames := UpsertFrame(step.frames, operation.frame.value)),
      operation.turnId, operation.stepId);
  }

  lemma StepIsWritable(state: StateObject, operation: Operation, turn: TurnObject, v: Turn, j: nat)
    requires operation.FrameUpsert? && turn.Is(v) && j < |turn.steps.elems|
    requires turn.Repr() <= state.TurnReach(operation.turnId)
    ensures var step := turn.steps.elems[j];
      {state, turn, step, step.frames} <= Writable(state, operation)
  {
    var step := turn.steps.elems[j];
    assert step.Is(v.steps[j]);
    assert step.frames in step.repr && step.repr <= turn.below;
    assert step in turn.Repr() && step.frames in turn.Repr();
    ReachIsWritable(state, operation, {turn, step, step.frames});
  }

  method UpsertFrameObject(order: ItemOrder, state: StateObject, ghost v: State, operation: OperationObject,
    ghost operationV: Operation)
    returns (gap: bool, ghost after: State, ghost added: set<object>)
    requires state.Is(v) && operation.FrameOf? && operation.Is(operationV) && operation.frame !in state.Repr()
    modifies Writable(state, operationV)
    ensures added <= {operation.frame} && state.below == old(state.below) + added
    ensures unchanged(state`items, state`tasks, state`tables)
    ensures forall id :: state.TurnReach(id) <= old(state.TurnReach(id)) + Share(id, operation.turnId, added)
    ensures state.Is(after) && Outcome(after, gap) == ApplyOperation(order, v, operationV)
    ensures !gap ==> Places(state, after, operation.turnId, operation.stepId, operationV.frame.value.frameId,
      operation.frame)
  {
    var found := FindStepObject(state, v, operation.turnId, operation.stepId);
    if found.None? { return true, v, {}; }
    ghost var at, frameV := found.value, operationV.frame.value;
    ghost var stepV := StepAt(v.items, at);
    FrameUpsertCases(order, v, operationV, at);
    StepIsWritable(state, operationV, state.items.elems[at.0].turn, v.items[at.0].turn, at.1);
    after := ApplyOperation(order, v, operationV).state;
    var _ := PutFrameAt(state, v, found.value, operation.frame, frameV);
    return false, after, {operation.frame};
  }

  method PutFrameAt(state: StateObject, ghost v: State, at: (nat, nat), frame: FrameObject, ghost frameV: Frame)
    returns (ghost k: nat)
    requires state.Is(v) && frame !in state.Repr() && frame.Is(frameV)
    requires state.TurnAt(v, at.0) && at.1 < |state.items.elems[at.0].turn.steps.elems|
    modifies state`below, state.items.elems[at.0].turn
    modifies state.items.elems[at.0].turn.steps.elems[at.1], state.items.elems[at.0].turn.steps.elems[at.1].frames
    ensures state.below == old(state.below) + {frame} && unchanged(state`items, state`tasks, state`tables)
    ensures forall id :: state.TurnReach(id) <= old(state.TurnReach(id)) + Share(id, v.items[at.0].turn.turnId, {frame})
    ensures var step := StepAt(v.items, at);
      var after := v.(items := PutStep(v.items, at, step.(frames := UpsertFrame(step.frames, frameV))));
      state.Is(after)
    ensures FrameIn(state, at, k) == Some(frame)
    ensures var was := StepAt(v.items, at).frames;
      IndexOf(FrameIds(UpsertFrame(was, frameV)), frameV.frameId) == Some(k)
  {
    ghost var was := StepAt(v.items, at).frames;
    UpsertedFrameIsFound(was, frameV);
    k := if IndexOf(FrameIds(was), frameV.frameId).Some? then IndexOf(FrameIds(was), frameV.frameId).value else |was|;
    assert state.items.elems[at.0].turn.steps.elems[at.1].Is(StepAt(v.items, at));
    state.PutFrame(v, at.0, at.1, frame, frameV);
  }

  /** The state adopts the snapshot's array of items as it is. */
  method RestoreSnapshot(order: ItemOrder, state: StateObject, ghost v: State, operation: OperationObject,
    ghost operationV: Operation)
    returns (next: StateObject, ghost after: State)
    requires state.Is(v) && operation.SnapshotOf? && operation.Is(operationV)
    ensures fresh(next.Maps()) && next.items == operation.snapshot.items && next.below == operation.snapshot.below
    ensures next.Is(after) && Done(after) == ApplyOperation(order, v, operationV)
    ensures forall id :: next.TurnReach(id) <= next.below
  {
    var snapshot := operation.snapshot;
    ghost var snapshotV := operationV.snapshot.value;
    var current := State(state.agentId, [], state.tasks.entries, state.tables.View(), state.meta,
      state.pendingInteractions, state.hasMoreOlder, state.cursor);
    var fields := SnapshotState(current, operation.agentId, snapshot.rest);
    next := new StateObject(fields, snapshot.items, snapshotV.items, snapshot.below);
    after := fields.(items := snapshotV.items);
    forall id ensures next.TurnReach(id) <= next.below {}
  }

  // ---------- any operation ----------

  /** Operations that leave every array as it is. */
  predicate Stays(operation: Operation) {
    operation.AppendFrame? || operation.AppendTask? || operation.TaskUpsert? || operation.TableUpsert?
    || operation.MetaMerge? || operation.Unknown?
  }

  /** The objects on the way to the frames of a step. */
  ghost function Path(state: StateObject, at: (nat, nat)): set<object>
    reads *
  {
    if at.0 < |state.items.elems| && state.items.elems[at.0].TurnRef? then
      var turn := state.items.elems[at.0].turn;
      if at.1 < |turn.steps.elems|
      then {state.items, turn, turn.steps, turn.steps.elems[at.1], turn.steps.elems[at.1].frames}
      else {state.items, turn, turn.steps}
    else {state.items}
  }

  /** Such operations write frames, maps and the state itself, never an object on the way to a frame. */
  lemma PathIsNotWritable(state: StateObject, operation: Operation, at: (nat, nat))
    requires Stays(operation)
    ensures forall o: object :: o in Path(state, at) ==> o !in Writable(state, operation)
  {
  }

  /** No object on the way to a frame has changed. */
  twostate predicate PathsKept(state: StateObject)
    reads *
  {
    unchanged(state`items) && forall at: (nat, nat) :: Untouched(old(Path(state, (at.0, at.1))))
  }

  method ApplyToItems(order: ItemOrder, state: StateObject, ghost v: State, operation: Operation)
    returns (gap: bool, ghost after: State, ghost added: set<object>)
    requires state.Is(v) && (operation.TurnUpsert? || operation.StepUpsert? || operation.ItemsRemove?)
    modifies Writable(state, operation)
    ensures state.Is(after) && Outcome(after, gap) == ApplyOperation(order, v, operation)
    ensures fresh(added) && state.below <= old(state.below) + added
    ensures forall id :: state.TurnReach(id) <= old(state.TurnReach(id)) + Share(id, Home(operation), added)
    ensures unchanged(state`tasks, state`tables) && (state.items == old(state.items) || fresh(state.items))
  {
    if operation.TurnUpsert? {
      added := state.PutTurn(order, v, operation.head);
      gap, after := false, v.(items := UpsertTurn(order, v.items, operation.head));
    } else if operation.StepUpsert? {
      gap, after, added := UpsertStepObject(order, state, v, operation);
    } else {
      state.RemoveItems(v, operation.ids);
      gap, after, added := false, v.(items := WithoutIds(v.items, operation.ids)), {};
    }
  }

  method ApplyInPlace(order: ItemOrder, state: StateObject, ghost v: State, operation: Operation)
    returns (gap: bool, ghost after: State)
    requires state.Is(v) && TakesNothing(operation)
    requires !operation.TurnUpsert? && !operation.StepUpsert? && !operation.ItemsRemove?
    modifies Writable(state, operation)
    ensures state.Is(after) && Outcome(after, gap) == ApplyOperation(order, v, operation)
    ensures forall id :: state.TurnReach(id) <= old(state.TurnReach(id))
    ensures unchanged(state`tasks, state`tables, state`items, state`below)
  {
    if operation.AppendFrame? {
      gap, after := AppendToFrame(order, state, v, operation);
    } else {
      gap, after := ApplyToCollections(order, state, v, operation);
    }
  }

  method ApplyOffPath(order: ItemOrder, state: StateObject, ghost v: State, operation: Operation)
    returns (gap: bool, ghost after: State)
    requires state.Is(v) && TakesNothing(operation)
    requires !operation.TurnUpsert? && !operation.StepUpsert? && !operation.ItemsRemove?
    modifies Writable(state, operation)
    ensures state.Is(after) && Outcome(after, gap) == ApplyOperation(order, v, operation)
    ensures forall id :: state.TurnReach(id) <= old(state.TurnReach(id))
    ensures unchanged(state`tasks, state`tables, state`items, state`below)
    ensures Stays(operation) ==> PathsKept(state)
  {
    if Stays(operation) {
      forall at: (nat, nat) ensures forall o: object :: o in Path(state, at) ==> o !in Writable(state, operation) {
        PathIsNotWritable(state, operation, at);
      }
    }
    gap, after := ApplyInPlace(order, state, v, operation);
  }

  method ApplyScalar(order: ItemOrder, state: StateObject, ghost v: State, operation: Operation)
    returns (gap: bool, ghost after: State, ghost added: set<object>)
    requires state.Is(v) && TakesNothing(operation)
    modifies Writable(state, operation)
    ensures state.Is(after) && Outcome(after, gap) == ApplyOperation(order, v, operation)
    ensures fresh(added) && state.below <= old(state.below) + added
    ensures forall id :: state.TurnReach(id) <= old(state.TurnReach(id)) + Share(id, Home(operation), added)
    ensures unchanged(state`tasks, state`tables) && (state.items == old(state.items) || fresh(state.items))
    ensures Stays(operation) ==> PathsKept(state)
  {
    if operation.TurnUpsert? || operation.StepUpsert? || operation.ItemsRemove? {
      gap, after, added := ApplyToItems(order, state, v, operation);
    } else {
      gap, after := ApplyOffPath(order, state, v, operation);
      added := {};
    }
  }

  /** `added` is what the state takes in: objects of the payload. */
  method TakeIn(order: ItemOrder, state: StateObject, ghost v: State, operation: OperationObject,
    ghost operationV: Operation)
    returns (next: StateObject, gap: bool, ghost after: State, ghost added: set<object>)
    requires state.Is(v) && operation.Is(operationV) && operation.Repr() !! state.Repr() && !operation.Scalar?
    modifies Writable(state, operationV)
    ensures next.Is(after) && Outcome(after, gap) == ApplyOperation(order, v, operationV)
    ensures fresh(added - old(operation.Repr())) && next.below <= old(state.below) + added
    ensures forall id :: next.TurnReach(id) <= old(state.TurnReach(id)) + Gain(operationV, id, added)
    ensures (next == state && unchanged(state`tasks, state`tables)) || fresh(next.Maps())
    ensures next.items == old(state.items) || fresh(next.items)
      || (operationV.Reset? && next.items in old(operation.Repr()))
    ensures operation.FrameOf? && !gap ==>
      Places(next, after, operation.turnId, operation.stepId, operationV.frame.value.frameId, operation.frame)
  {
    next := state;
    if operation.FrameOf? {
      gap, after, added := UpsertFrameObject(order, state, v, operation, operationV);
    } else if operation.ItemOf? {
      added := operation.item.Repr();
      state.PutItem(v, operation.item, operationV.item);
      gap := false;
      after := v.(items := Put(v.items, IndexOf(ItemIds(v.items), ItemId(operationV.item)), operationV.item));
    } else {
      added := operation.snapshot.below;
      next, after := RestoreSnapshot(order, state, v, operation, operationV);
      gap := false;
    }
  }

  /** `added` is what the state takes in: new objects and objects of the payload. */
  method ApplyObject(order: ItemOrder, state: StateObject, ghost v: State, operation: OperationObject,
    ghost operationV: Operation)
    returns (next: StateObject, gap: bool, ghost after: State, ghost added: set<object>)
    requires state.Is(v) && operation.Is(operationV) && operation.Repr() !! state.Repr()
    modifies Writable(state, operationV)
    ensures next.Is(after) && Outcome(after, gap) == ApplyOperation(order, v, operationV)
    ensures fresh(added - old(operation.Repr())) && next.below <= old(state.below) + added
    ensures forall id :: next.TurnReach(id) <= old(state.TurnReach(id)) + Gain(operationV, id, added)
    ensures (next == state && unchanged(state`tasks, state`tables)) || fresh(next.Maps())
    ensures next.items == old(state.items) || fresh(next.items)
      || (operationV.Reset? && next.items in old(operation.Repr()))
    ensures Stays(operationV) ==> next == state && PathsKept(state)
    ensures operation.FrameOf? && !gap ==>
      Places(next, after, operation.turnId, operation.stepId, operationV.frame.value.frameId, operation.frame)
  {
    if operation.Scalar? {
      gap, after, added := ApplyScalar(order, state, v, operation.operation);
      return state, gap, after, added;
    }
    next, gap, after, added := TakeIn(order, state, v, operation, operationV);
  }
}
