/**
  Batches on objects: what the input state, the result and the payload have to do with each other
  once `applyTranscriptOps` has run, or given up halfway.
*/
module TranscriptBatches {
  import opened Wrappers
  import opened Json
  import opened Transcript
  import opened TranscriptObjects
  import opened TranscriptHeap

  // ---------- which payloads a batch spares ----------

  /** Whether `later` may edit what `earlier` brought. */
  predicate Touches(later: Operation, earlier: Operation) {
    match earlier
    case FrameUpsert(turnId, _, frame) =>
      later.AppendFrame? && later.turnId == turnId && frame.Some? && later.frameId == frame.value.frameId
    case ItemUpsert(item) =>
      && item.TurnItem?
      && (later.StepUpsert? || later.FrameUpsert? || later.AppendFrame?)
      && later.turnId == item.turn.turnId
    case Reset(_, _) =>
      later.TurnUpsert? || later.ItemUpsert? || later.StepUpsert? || later.FrameUpsert? || later.AppendFrame?
    case _ => false
  }

  /** None of the operations up to `d` touches what operation `i` brought. */
  predicate Spared(vs: seq<Operation>, i: nat, d: nat)
    requires i < |vs| && d <= |vs|
  {
    forall j :: i < j < d ==> !Touches(vs[j], vs[i])
  }

  /** Where objects brought by `brought` may be found in a state: under turns of its name, or anywhere after a reset. */
  ghost predicate Apart(state: StateObject, payload: set<object>, brought: Operation)
    reads *
  {
    && state.Maps() !! payload
    && (!brought.Reset? ==> state.items !in payload)
    && (!brought.Reset? ==> forall id :: id != Home(brought) ==> state.TurnReach(id) !! payload)
  }

  /** What kind of objects an operation brings. */
  ghost predicate Footprint(payload: set<object>, brought: Operation)
    reads *
  {
    && (brought.FrameUpsert? || brought.Reset? || (brought.ItemUpsert? && brought.item.TurnItem?) || payload == {})
    && (brought.FrameUpsert? ==>
          forall o: object :: o in payload ==>
            o is FrameObject && brought.frame.Some? && (o as FrameObject).frameId == brought.frame.value.frameId)
  }

  lemma PayloadFootprint(operation: OperationObject, v: Operation)
    requires operation.Is(v)
    ensures Footprint(operation.Repr(), v)
  {
  }

  lemma SparedIsNotWritable(state: StateObject, operation: Operation, payload: set<object>, brought: Operation)
    requires Apart(state, payload, brought) && Footprint(payload, brought) && !Touches(operation, brought)
    ensures forall o: object :: o in payload ==> o !in Writable(state, operation)
  {
  }

  // ---------- one operation of a batch ----------

  /** Operations on objects, the values they stand for and the objects each brought. */
  datatype Work = Work(operations: seq<OperationObject>, vs: seq<Operation>, payloads: seq<set<object>>)

  /** Payloads share nothing with each other. */
  predicate Separate(payloads: seq<set<object>>) {
    forall i, j :: 0 <= i < j < |payloads| ==> payloads[i] !! payloads[j]
  }

  ghost predicate Aligned(work: Work) {
    |work.operations| == |work.vs| == |work.payloads| && Separate(work.payloads)
  }

  /** Operation `i` is still a tree that stands for its value and shares nothing with the state. */
  ghost predicate Untaken(work: Work, state: StateObject, i: nat)
    requires Aligned(work) && i < |work.vs|
    reads *
  {
    && work.operations[i].Is(work.vs[i])
    && work.operations[i].Repr() == work.payloads[i]
    && work.payloads[i] !! state.Repr()
  }

  ghost predicate PendingFrom(work: Work, state: StateObject, d: nat)
    requires Aligned(work)
    reads *
  {
    forall i :: d <= i < |work.vs| ==> Untaken(work, state, i)
  }

  ghost predicate ApartUpTo(work: Work, state: StateObject, d: nat)
    requires Aligned(work) && d <= |work.vs|
    reads *
  {
    forall i :: 0 <= i < d && Spared(work.vs, i, d) ==>
      Apart(state, work.payloads[i], work.vs[i]) && Footprint(work.payloads[i], work.vs[i])
  }

  /** Everything brought by operations that none behind them, up to `d`, touches. */
  ghost function SparedObjects(work: Work, d: nat): set<object>
    requires Aligned(work) && d <= |work.vs|
  {
    set i, o: object | 0 <= i < |work.vs| && Spared(work.vs, i, d) && o in work.payloads[i] :: o
  }

  lemma SparedShrinks(work: Work, d: nat, e: nat)
    requires Aligned(work) && d <= e <= |work.vs|
    ensures SparedObjects(work, e) <= SparedObjects(work, d)
  {
    forall o: object | o in SparedObjects(work, e) ensures o in SparedObjects(work, d) {
      var i :| 0 <= i < |work.vs| && Spared(work.vs, i, e) && o in work.payloads[i];
      assert Spared(work.vs, i, d);
    }
  }

  /** Nothing an operation may write belongs to a payload it spares. */
  lemma SparedPayloads(state: StateObject, v: State, work: Work, d: nat)
    requires state.Is(v) && Aligned(work) && d < |work.vs| && PendingFrom(work, state, d) && ApartUpTo(work, state, d)
    ensures forall o: object :: o in SparedObjects(work, d + 1) ==> o !in Writable(state, work.vs[d])
  {
    forall o: object | o in SparedObjects(work, d + 1) ensures o !in Writable(state, work.vs[d]) {
      var i :| 0 <= i < |work.vs| && Spared(work.vs, i, d + 1) && o in work.payloads[i];
      if i < d {
        assert Spared(work.vs, i, d) && !Touches(work.vs[d], work.vs[i]);
        SparedIsNotWritable(state, work.vs[d], work.payloads[i], work.vs[i]);
      } else {
        assert Untaken(work, state, i);
        WritableIsOwn(state, v, work.vs[d]);
      }
    }
  }

  /** No payload but that of operation `d` has any of the objects. */
  ghost predicate Clear(work: Work, d: nat, objects: set<object>)
    requires Aligned(work)
  {
    forall i :: 0 <= i < |work.vs| && i != d ==> forall o: object :: o in work.payloads[i] ==> o !in objects
  }

  /** The state may take in `added` and new maps without meeting the other payloads. */
  twostate lemma OthersStayApart(scene: Scene, new next: StateObject, new d: nat, new added: set<object>)
    requires Aligned(scene.work) && d < |scene.work.vs| && old(ApartUpTo(scene.work, scene.state, d))
    requires forall i :: 0 <= i < d && Spared(scene.work.vs, i, d + 1) ==> Untouched(scene.work.payloads[i])
    requires Clear(scene.work, d, added) && Clear(scene.work, d, next.Maps() - old(scene.state.Maps()))
    requires next.items == old(scene.state.items) || Clear(scene.work, d, {next.items})
    requires forall id :: next.TurnReach(id) <= old(scene.state.TurnReach(id)) + added
    ensures forall i :: 0 <= i < d && Spared(scene.work.vs, i, d + 1) ==>
      Apart(next, scene.work.payloads[i], scene.work.vs[i]) && Footprint(scene.work.payloads[i], scene.work.vs[i])
  {
    forall i | 0 <= i < d && Spared(scene.work.vs, i, d + 1)
      ensures Apart(next, scene.work.payloads[i], scene.work.vs[i])
        && Footprint(scene.work.payloads[i], scene.work.vs[i])
    {
      assert Spared(scene.work.vs, i, d);
      assert old(Apart(scene.state, scene.work.payloads[i], scene.work.vs[i]));
      assert old(Footprint(scene.work.payloads[i], scene.work.vs[i]));
    }
  }

  /** The payload just applied is reached through turns of its own name only. */
  twostate lemma OwnStaysApart(scene: Scene, new next: StateObject, new d: nat, new added: set<object>)
    requires Aligned(scene.work) && d < |scene.work.vs| && old(Untaken(scene.work, scene.state, d))
    requires Untouched(scene.work.payloads[d])
    requires next.Maps() - old(scene.state.Maps()) !! scene.work.payloads[d]
    requires forall id :: old(scene.state.TurnReach(id)) <= old(scene.state.below)
    requires !scene.work.vs[d].Reset? ==>
      && (next.items == old(scene.state.items) || next.items !in scene.work.payloads[d])
      && forall id :: next.TurnReach(id) <= old(scene.state.TurnReach(id)) + Share(id, Home(scene.work.vs[d]), added)
    ensures Apart(next, scene.work.payloads[d], scene.work.vs[d])
  {
  }

  datatype Scene = Scene(state: StateObject, work: Work)

  /** The value lookups that tell where a frame is do not change either. */
  lemma StaysInPlace(order: ItemOrder, v: State, operation: Operation, turnId: string, stepId: string)
    requires Stays(operation)
    ensures var next := ApplyOperation(order, v, operation).state;
      var at := FindStep(v.items, turnId, stepId);
      && FindStep(next.items, turnId, stepId) == at
      && (at.Some? ==> FrameIds(StepAt(next.items, at.value).frames) == FrameIds(StepAt(v.items, at.value).frames))
  {
    if operation.AppendFrame? {
      AppendFrameCases(order, v, operation);
      var found := FindFrame(v.items, operation.turnId, operation.stepId, operation.frameId);
      if found.Some? && found.value.text.Some? {
        RewritingKeepsPlaces(v.items, operation.turnId, operation.stepId, operation.frameId,
          found.value.text.value + operation.text, turnId, stepId);
      }
    }
  }

  twostate lemma FrameInPlace(state: StateObject, new at: (nat, nat), new k: nat)
    requires unchanged(state`items) && Untouched(old(Path(state, (at.0, at.1))))
    ensures FrameIn(state, at, k) == old(FrameIn(state, (at.0, at.1), k))
  {
    assert state.items in old(Path(state, (at.0, at.1)));
  }

  /** The frame that operation `i` brought is the one its place shows. */
  ghost predicate Placed(work: Work, state: StateObject, v: State, i: nat)
    requires Aligned(work) && i < |work.vs|
    reads *
  {
    work.operations[i].FrameOf? && work.vs[i].FrameUpsert? && work.vs[i].frame.Some? ==>
      Places(state, v, work.vs[i].turnId, work.vs[i].stepId, work.vs[i].frame.value.frameId, work.operations[i].frame)
  }

  twostate lemma StaysPlaced(scene: Scene, new order: ItemOrder, new v: State, new operation: Operation, new i: nat)
    requires Aligned(scene.work) && i < |scene.work.vs| && Stays(operation)
    requires PathsKept(scene.state)
    requires old(Placed(scene.work, scene.state, v, i))
    ensures Placed(scene.work, scene.state, ApplyOperation(order, v, operation).state, i)
  {
    var brought := scene.work.vs[i];
    if scene.work.operations[i].FrameOf? && brought.FrameUpsert? && brought.frame.Some? {
      StaysInPlace(order, v, operation, brought.turnId, brought.stepId);
      var at := FindStep(v.items, brought.turnId, brought.stepId).value;
      var k := IndexOf(FrameIds(StepAt(v.items, at).frames), brought.frame.value.frameId).value;
      FrameInPlace(scene.state, at, k);
    }
  }

  method ApplyClear(order: ItemOrder, state: StateObject, ghost v: State, operation: OperationObject,
    ghost work: Work, ghost d: nat)
    returns (next: StateObject, gap: bool, ghost after: State, ghost added: set<object>)
    requires state.Is(v) && Aligned(work) && d < |work.vs| && operation == work.operations[d]
    requires PendingFrom(work, state, d) && ApartUpTo(work, state, d)
    modifies Writable(state, work.vs[d])
    ensures next.Is(after) && Outcome(after, gap) == ApplyOperation(order, v, work.vs[d])
    ensures unchanged(SparedObjects(work, d + 1))
    ensures forall o: object :: o in added && !fresh(o) ==> o in work.payloads[d]
    ensures next.below <= old(state.below) + added
    ensures (next == state && unchanged(state`tasks, state`tables)) || fresh(next.Maps())
    ensures next.items == old(state.items) || fresh(next.items) || (work.vs[d].Reset? && next.items in work.payloads[d])
    ensures forall id :: next.TurnReach(id) <= old(state.TurnReach(id)) + Gain(work.vs[d], id, added)
    ensures !gap ==> Placed(work, next, after, d)
    ensures Stays(work.vs[d]) ==> next == state && PathsKept(state)
  {
    assert Untaken(work, state, d);
    SparedPayloads(state, v, work, d);
    next, gap, after, added := ApplyObject(order, state, v, operation, work.vs[d]);
  }

  /** Objects that are new or come from the payload of operation `d` are in no other payload. */
  twostate lemma NewIsClear(scene: Scene, new d: nat, new objects: set<object>)
    requires Aligned(scene.work) && d < |scene.work.vs|
    requires forall o: object :: o in objects && !fresh(o) ==> o in scene.work.payloads[d]
    ensures Clear(scene.work, d, objects)
  {
    forall i | 0 <= i < |scene.work.vs| && i != d
      ensures forall o: object :: o in scene.work.payloads[i] ==> o !in objects
    {
      assert scene.work.payloads[i] !! scene.work.payloads[d];
    }
  }

  /**
    What a state reaches after an operation: what it reached before, and objects in no payload that is
    still to come.
  */
  twostate lemma OthersStayUntaken(scene: Scene, new next: StateObject, new d: nat, new added: set<object>)
    requires Aligned(scene.work) && d < |scene.work.vs| && old(PendingFrom(scene.work, scene.state, d))
    requires forall i :: d < i < |scene.work.vs| ==> Untouched(scene.work.payloads[i])
    requires Clear(scene.work, d, added) && Clear(scene.work, d, next.Maps() - old(scene.state.Maps()))
    requires next.items == old(scene.state.items) || Clear(scene.work, d, {next.items})
    requires next.below <= old(scene.state.below) + added
    ensures PendingFrom(scene.work, next, d + 1)
  {
    forall i | d < i < |scene.work.vs| ensures Untaken(scene.work, next, i) {
      assert old(Untaken(scene.work, scene.state, i));
      forall o: object | o in scene.work.payloads[i] ensures o !in next.Repr() {
        assert o !in old(scene.state.Repr()) && o !in added && o !in next.Maps() - old(scene.state.Maps());
        assert next.items == old(scene.state.items) || o !in {next.items};
      }
      UntakenAgain(scene.work, next, i);
    }
  }

  twostate lemma UntakenAgain(work: Work, new next: StateObject, new i: nat)
    requires Aligned(work) && i < |work.vs|
    requires old(work.operations[i].Is(work.vs[i]) && work.operations[i].Repr() == work.payloads[i])
    requires Untouched(work.payloads[i]) && forall o: object :: o in work.payloads[i] ==> o !in next.Repr()
    ensures Untaken(work, next, i)
  {
  }

  /** An operation that writes no spared payload and takes in only `added` keeps the batch in order. */
  twostate lemma BatchStaysInOrder(scene: Scene, new next: StateObject, new d: nat, new added: set<object>)
    requires Aligned(scene.work) && d < |scene.work.vs|
    requires old(PendingFrom(scene.work, scene.state, d) && ApartUpTo(scene.work, scene.state, d))
    requires old(Footprint(scene.work.payloads[d], scene.work.vs[d]))
    requires forall id :: old(scene.state.TurnReach(id)) <= old(scene.state.below)
    requires Untouched(SparedObjects(scene.work, d + 1))
    requires forall o: object :: o in added && !fresh(o) ==> o in scene.work.payloads[d]
    requires next.below <= old(scene.state.below) + added
    requires (next == scene.state && next.Maps() == old(scene.state.Maps())) || fresh(next.Maps())
    requires next.items == old(scene.state.items) || fresh(next.items) ||
      (scene.work.vs[d].Reset? && next.items in scene.work.payloads[d])
    requires forall id :: next.TurnReach(id) <= old(scene.state.TurnReach(id)) + Gain(scene.work.vs[d], id, added)
    ensures PendingFrom(scene.work, next, d + 1) && ApartUpTo(scene.work, next, d + 1)
  {
    forall i | 0 <= i < |scene.work.vs| && Spared(scene.work.vs, i, d + 1) ensures Untouched(scene.work.payloads[i]) {
      assert scene.work.payloads[i] <= SparedObjects(scene.work, d + 1);
    }
    NewIsClear(scene, d, added);
    NewIsClear(scene, d, next.Maps() - old(scene.state.Maps()));
    if next.items != old(scene.state.items) { NewIsClear(scene, d, {next.items}); }
    OthersStayUntaken(scene, next, d, added);
    OthersStayApart(scene, next, d, added);
    OwnStaysApart(scene, next, d, added);
  }

  /** Operation `d` of a batch: the rest of the batch can tell no difference. */
  method ApplyAt(order: ItemOrder, state: StateObject, ghost v: State, operation: OperationObject, ghost work: Work,
    ghost d: nat)
    returns (next: StateObject, gap: bool, ghost after: State)
    requires state.Is(v) && Aligned(work) && d < |work.vs| && operation == work.operations[d]
    requires PendingFrom(work, state, d) && ApartUpTo(work, state, d)
    modifies Writable(state, work.vs[d])
    ensures next.Is(after) && Outcome(after, gap) == ApplyOperation(order, v, work.vs[d])
    ensures unchanged(SparedObjects(work, d + 1))
    ensures PendingFrom(work, next, d + 1) && ApartUpTo(work, next, d + 1)
    ensures forall o: object :: o in next.Repr() ==> o in old(state.Repr()) || o in work.payloads[d] || fresh(o)
    ensures !gap ==> Placed(work, next, after, d)
    ensures Stays(work.vs[d]) ==> next == state && PathsKept(state)
  {
    forall id ensures state.TurnReach(id) <= state.below {}
    PayloadFootprint(operation, work.vs[d]) by { assert Untaken(work, state, d); }
    ghost var added;
    next, gap, after, added := ApplyClear(order, state, v, operation, work, d);
    BatchStaysInOrder(Scene(state, work), next, d, added);
  }

  ghost predicate PlacedUpTo(work: Work, state: StateObject, v: State, d: nat)
    requires Aligned(work) && d <= |work.vs|
    reads *
  {
    forall i :: 0 <= i < d && StillBehind(work.vs, i, d) ==> Placed(work, state, v, i)
  }

  /** No operation behind `i`, up to `d`, moves anything. */
  predicate StillBehind(vs: seq<Operation>, i: nat, d: nat)
    requires d <= |vs|
  {
    forall j :: i < j < d ==> Stays(vs[j])
  }

  twostate lemma AllStayPlaced(scene: Scene, new next: StateObject, new order: ItemOrder, new v: State, new d: nat)
    requires Aligned(scene.work) && d < |scene.work.vs|
    requires Stays(scene.work.vs[d]) ==> next == scene.state && PathsKept(scene.state)
    requires old(PlacedUpTo(scene.work, scene.state, v, d))
    ensures PlacedBefore(scene.work, next, ApplyOperation(order, v, scene.work.vs[d]).state, d)
  {
    var after := ApplyOperation(order, v, scene.work.vs[d]).state;
    forall i | 0 <= i < d && StillBehind(scene.work.vs, i, d + 1) ensures Placed(scene.work, next, after, i) {
      assert StillBehind(scene.work.vs, i, d) && Stays(scene.work.vs[d]);
      StaysPlaced(scene, order, v, scene.work.vs[d], i);
    }
  }

  /** The same once operation `d` has run, without the frame it brought itself. */
  ghost predicate PlacedBefore(work: Work, state: StateObject, v: State, d: nat)
    requires Aligned(work) && d < |work.vs|
    reads *
  {
    forall i :: 0 <= i < d && StillBehind(work.vs, i, d + 1) ==> Placed(work, state, v, i)
  }

  /** And every frame brought stays where it was put, until an operation that moves things. */
  method ApplyNext(order: ItemOrder, state: StateObject, ghost v: State, operation: OperationObject, ghost work: Work,
    ghost d: nat)
    returns (next: StateObject, gap: bool, ghost after: State)
    requires state.Is(v) && Aligned(work) && d < |work.vs| && operation == work.operations[d]
    requires PendingFrom(work, state, d) && ApartUpTo(work, state, d) && PlacedUpTo(work, state, v, d)
    modifies Writable(state, work.vs[d])
    ensures next.Is(after) && Outcome(after, gap) == ApplyOperation(order, v, work.vs[d])
    ensures unchanged(SparedObjects(work, d + 1))
    ensures PendingFrom(work, next, d + 1) && ApartUpTo(work, next, d + 1)
    ensures forall o: object :: o in next.Repr() ==> o in old(state.Repr()) || o in work.payloads[d] || fresh(o)
    ensures PlacedBefore(work, next, after, d) && (!gap ==> Placed(work, next, after, d))
  {
    next, gap, after := ApplyAt(order, state, v, operation, work, d);
    AllStayPlaced(Scene(state, work), next, order, v, d);
  }

  // ---------- batches ----------

  /** Frames brought by operations that went through, and not moved since, are where the run left them. */
  ghost predicate FramesAreShown(order: ItemOrder, v: State, work: Work, state: StateObject, after: State)
    requires Aligned(work)
    reads *
  {
    forall i :: 0 <= i < |work.vs| && StillBehind(work.vs, i, |work.vs|) && GoesThrough(order, v, work.vs, i) ==>
      Placed(work, state, after, i)
  }

  lemma ShownAtTheEnd(order: ItemOrder, v: State, work: Work, state: StateObject, after: State)
    requires Aligned(work) && PlacedUpTo(work, state, after, |work.vs|)
    ensures FramesAreShown(order, v, work, state, after)
  {
  }

  lemma ShownAtTheGap(order: ItemOrder, v: State, work: Work, d: nat, state: StateObject, after: State)
    requires Aligned(work) && d < |work.vs| && !GoesThrough(order, v, work.vs, d)
    requires PlacedBefore(work, state, after, d)
    ensures FramesAreShown(order, v, work, state, after)
    ensures RunOperations(order, v, work.vs) == RunOperations(order, v, work.vs[..d + 1])
  {
    forall i | 0 <= i < |work.vs| && StillBehind(work.vs, i, |work.vs|) && GoesThrough(order, v, work.vs, i)
      ensures Placed(work, state, after, i)
    {
      if d <= i { GapEndsRun(order, v, work.vs, d + 1, i + 1); }
      assert StillBehind(work.vs, i, d + 1);
    }
    GapEndsRun(order, v, work.vs, d + 1, |work.vs|);
    assert work.vs[..|work.vs|] == work.vs;
  }

  /** Where a run stands once operation `d` has run, and how it ends if that has a gap. */
  lemma RunGoesOn(order: ItemOrder, v: State, work: Work, d: nat, before: State, state: StateObject, after: State,
    gap: bool)
    requires Aligned(work) && d < |work.vs| && RunOperations(order, v, work.vs[..d]) == Done(before)
    requires Outcome(after, gap) == ApplyOperation(order, before, work.vs[d])
    requires PlacedBefore(work, state, after, d) && (!gap ==> Placed(work, state, after, d))
    ensures !gap ==> RunOperations(order, v, work.vs[..d + 1]) == Done(after) && PlacedUpTo(work, state, after, d + 1)
    ensures gap ==> RunOperations(order, v, work.vs) == Gap(after) && FramesAreShown(order, v, work, state, after)
  {
    RunOneMore(order, v, work.vs, d);
    if gap { ShownAtTheGap(order, v, work, d, state, after); }
  }

  /**
    The loop of `applyTranscriptOps` on a fresh copy. Everything it edits is new or comes from the
    payload of an operation already applied, and then only where an operation touches it.
  */
  method RunOnCopy(order: ItemOrder, copy: StateObject, ghost v: State, operations: seq<OperationObject>,
    ghost work: Work, ghost payload: set<object>) returns (state: StateObject, gap: bool, ghost after: State)
    requires copy.Is(v) && Aligned(work) && operations == work.operations && PendingFrom(work, copy, 0)
    requires forall i :: 0 <= i < |work.payloads| ==> work.payloads[i] <= payload
    modifies copy.Repr(), payload
    ensures state.Is(after) && Outcome(after, gap) == RunOperations(order, v, work.vs)
    ensures forall o: object :: o in state.Repr() ==> o in old(copy.Repr()) || o in payload || fresh(o)
    ensures !gap ==> ApartUpTo(work, state, |work.vs|)
    ensures unchanged(SparedObjects(work, |work.vs|))
    ensures FramesAreShown(order, v, work, state, after)
  {
    state, gap, after := copy, false, v;
    for d := 0 to |operations|
      invariant !gap && state.Is(after)
      invariant forall o: object :: o in state.Repr() ==> o in old(copy.Repr()) || o in payload || fresh(o)
      invariant RunOperations(order, v, work.vs[..d]) == Done(after)
      invariant PendingFrom(work, state, d) && ApartUpTo(work, state, d) && PlacedUpTo(work, state, after, d)
      invariant unchanged(SparedObjects(work, d))
    {
      WritableIsOwn(state, after, work.vs[d]);
      ghost var before := after;
      SparedShrinks(work, d, d + 1);
      state, gap, after := ApplyNext(order, state, after, operations[d], work, d);
      RunGoesOn(order, v, work, d, before, state, after, gap);
      if gap {
        SparedShrinks(work, d + 1, |work.vs|);
        return;
      }
    }
    assert work.vs[..|operations|] == work.vs;
    ShownAtTheEnd(order, v, work, state, after);
  }

  /** Payloads are trees that share nothing with each other; `payload` covers everything they reach. */
  ghost predicate OperationsAre(work: Work, payload: set<object>)
    reads *
  {
    Aligned(work) && forall i :: 0 <= i < |work.vs| ==>
      work.operations[i].Is(work.vs[i]) && work.operations[i].Repr() == work.payloads[i] && work.payloads[i] <= payload
  }

  /** The frame is the one found under its name in the state, text and all. */
  ghost predicate ShowsFrame(v: State, brought: Operation, frame: FrameObject)
    requires brought.FrameUpsert? && brought.frame.Some?
    reads frame
  {
    var found := FindFrame(v.items, brought.turnId, brought.stepId, brought.frame.value.frameId);
    found.Some? && frame.Is(found.value)
  }

  /** What the payload's frames stand for once the batch is over, gap or not. */
  ghost predicate FramesShow(order: ItemOrder, v: State, work: Work)
    requires Aligned(work)
    reads *
  {
    forall i :: 0 <= i < |work.vs| && StillBehind(work.vs, i, |work.vs|) && GoesThrough(order, v, work.vs, i) ==>
      (work.operations[i].FrameOf? && work.vs[i].FrameUpsert? && work.vs[i].frame.Some? ==>
        ShowsFrame(RunOperations(order, v, work.vs).state, work.vs[i], work.operations[i].frame))
  }

  lemma PlacedFrameIsShown(work: Work, state: StateObject, v: State, i: nat)
    requires Aligned(work) && i < |work.vs| && state.Is(v) && Placed(work, state, v, i)
    requires work.operations[i].FrameOf? && work.vs[i].FrameUpsert? && work.vs[i].frame.Some?
    ensures ShowsFrame(v, work.vs[i], work.operations[i].frame)
  {
    var at := FindStep(v.items, work.vs[i].turnId, work.vs[i].stepId).value;
    assert state.items.elems[at.0].Is(v.items[at.0]);
    assert state.items.elems[at.0].turn.steps.elems[at.1].Is(StepAt(v.items, at));
  }

  /** The copy is made and run on; nobody else's objects are reached by it. */
  method RunOnClone(order: ItemOrder, current: StateObject, ghost v: State, operations: seq<OperationObject>,
    ghost work: Work, ghost payload: set<object>) returns (state: StateObject, gap: bool, ghost after: State)
    requires current.Is(v) && operations == work.operations && OperationsAre(work, payload)
    modifies payload
    ensures state.Is(after) && Outcome(after, gap) == RunOperations(order, v, work.vs)
    ensures forall o: object :: o in state.Repr() ==> o in payload || fresh(o)
    ensures unchanged(SparedObjects(work, |work.vs|))
    ensures !gap ==> ApartUpTo(work, state, |work.vs|)
    ensures FramesAreShown(order, v, work, state, after)
  {
    assert forall i, o: object :: 0 <= i < |work.vs| && o in work.payloads[i] ==> allocated(o);
    var copy := CloneState(current, v);
    assert PendingFrom(work, copy, 0);
    state, gap, after := RunOnCopy(order, copy, v, operations, work, payload);
  }

  lemma FramesAreSeen(order: ItemOrder, v: State, work: Work, state: StateObject, after: State)
    requires Aligned(work) && state.Is(after) && FramesAreShown(order, v, work, state, after)
    requires after == RunOperations(order, v, work.vs).state
    ensures FramesShow(order, v, work)
  {
    forall i | 0 <= i < |work.vs| && StillBehind(work.vs, i, |work.vs|) && GoesThrough(order, v, work.vs, i)
      && work.operations[i].FrameOf? && work.vs[i].FrameUpsert? && work.vs[i].frame.Some?
      ensures ShowsFrame(after, work.vs[i], work.operations[i].frame)
    {
      PlacedFrameIsShown(work, state, after, i);
    }
  }

  /** Then the cursor is set in the copy. */
  method ApplyToCopy(order: ItemOrder, current: StateObject, ghost v: State, operations: seq<OperationObject>,
    ghost work: Work, ghost payload: set<object>, sequence: Option<int>)
    returns (state: StateObject, gap: bool, ghost after: State)
    requires current.Is(v) && operations == work.operations && OperationsAre(work, payload)
    modifies payload
    ensures forall o: object :: o in state.Repr() ==> o in payload || fresh(o)
    ensures gap == RunOperations(order, v, work.vs).gap && state.Is(after)
    ensures after == if gap || sequence.None? then RunOperations(order, v, work.vs).state
      else RunOperations(order, v, work.vs).state.(cursor := sequence.value)
    ensures unchanged(SparedObjects(work, |work.vs|))
    ensures FramesShow(order, v, work)
  {
    state, gap, after := RunOnClone(order, current, v, operations, work, payload);
    FramesAreSeen(order, v, work, state, after);
    if !gap && sequence.Some? {
      state.SetCursor(after, sequence.value);
      after := after.(cursor := sequence.value);
    }
  }

  /** The batch is neither stale nor ahead, so its operations are run. */
  predicate Runs(v: State, sequence: Option<int>) {
    sequence.Some? ==> v.cursor < sequence.value && (v.cursor > 0 ==> sequence.value <= v.cursor + 1)
  }

  /**
    `applyTranscriptOps`: the input state is returned itself for a stale batch or a gap, and nothing
    it reaches is ever written, since it is in no `modifies` clause: only payloads are, and of those
    only what a later operation of the batch touches.
  */
  method ApplyBatch(order: ItemOrder, current: StateObject, ghost v: State, operations: seq<OperationObject>,
    ghost work: Work, ghost payload: set<object>, sequence: Option<int>) returns (state: StateObject, gap: bool)
    requires current.Is(v) && operations == work.operations && OperationsAre(work, payload)
    requires forall o: object :: o in current.Repr() ==> o !in payload
    modifies payload
    ensures var result := ApplyTranscriptOps(order, v, work.vs, sequence);
      gap == result.gap && state.Is(result.state)
    ensures current.Is(v)
    ensures gap || (sequence.Some? && sequence.value <= v.cursor) ==> state == current
    ensures state == current || forall o: object :: o in state.Repr() ==> o !in current.Repr()
    ensures unchanged(SparedObjects(work, |work.vs|))
    ensures if Runs(v, sequence) then FramesShow(order, v, work) else unchanged(payload)
  {
    if sequence.Some? && sequence.value <= current.cursor {
      return current, false;
    }
    if sequence.Some? && current.cursor > 0 && sequence.value > current.cursor + 1 {
      return current, true;
    }
    assert forall o: object :: o in current.Repr() ==> allocated(o);
    ghost var after;
    state, gap, after := ApplyToCopy(order, current, v, operations, work, payload, sequence);
    if gap {
      return current, true;
    }
  }

  // ---------- a batch that is given up halfway ----------

  /** A transcript of one step with these frames. */
  function OneStep(frames: seq<Frame>): State {
    EmptyTranscript("main").(items := [TurnItem(Turn("t", 1, Null, [Step("s", 1, Null, frames)]))])
  }

  function F(text: Text): Frame {
    Frame("f", Some(text), Null)
  }

  const NewFrame: Operation := FrameUpsert("t", "s", Some(F([])))
  const FirstText: Operation := AppendFrame("t", "s", "f", Some(0), [97])
  const HalfABatch: seq<Operation> := [NewFrame, FirstText, Unknown]

  lemma OneStepIsFound(frames: seq<Frame>)
    ensures FindStep(OneStep(frames).items, "t", "s") == Some((0, 0))
  {
  }

  lemma PutOnlyStep(frames: seq<Frame>, put: seq<Frame>)
    ensures PutStep(OneStep(frames).items, (0, 0), Step("s", 1, Null, put)) == OneStep(put).items
  {
    var turn := OneStep(frames).items[0].turn;
    assert turn.steps[0 := Step("s", 1, Null, put)] == OneStep(put).items[0].turn.steps;
  }

  lemma FrameArrives(order: ItemOrder)
    ensures ApplyOperation(order, OneStep([]), NewFrame) == Done(OneStep([F([])]))
  {
    OneStepIsFound([]);
    FrameUpsertCases(order, OneStep([]), NewFrame, (0, 0));
    assert UpsertFrame([], F([])) == [F([])];
    PutOnlyStep([], [F([])]);
  }

  lemma TextArrives(order: ItemOrder)
    ensures ApplyOperation(order, OneStep([F([])]), FirstText) == Done(OneStep([F([97])]))
  {
    OneStepIsFound([F([])]);
    assert [] + [97] == [97 as CodeUnit];
    assert IndexOf(FrameIds([F([])]), "f") == Some(0);
    assert [F([])][0 := F([97])] == [F([97])];
    PutOnlyStep([F([])], [F([97])]);
  }

  lemma RunOfThree(order: ItemOrder, v: State, a: Operation, b: Operation, c: Operation, first: State, second: State)
    requires ApplyOperation(order, v, a) == Done(first) && ApplyOperation(order, first, b) == Done(second)
    requires ApplyOperation(order, second, c) == Gap(second)
    ensures GoesThrough(order, v, [a, b, c], 0)
    ensures RunOperations(order, v, [a, b, c]) == Gap(second)
  {
    assert [a, b, c][..1] == [a] && [a][1..] == [] && [a, b, c][1..] == [b, c] && [b, c][1..] == [c];
    assert RunOperations(order, second, [c]) == Gap(second);
    assert RunOperations(order, first, [b, c]) == Gap(second);
  }

  lemma UnknownIsGap(order: ItemOrder, v: State)
    ensures ApplyOperation(order, v, Unknown) == Gap(v)
  {
  }

  /** A frame comes, its first text comes, and an unknown operation makes it a gap. */
  lemma HalfABatchRuns(order: ItemOrder)
    ensures GoesThrough(order, OneStep([]), HalfABatch, 0)
    ensures RunOperations(order, OneStep([]), HalfABatch) == Gap(OneStep([F([97])]))
  {
    FrameArrives(order);
    TextArrives(order);
    UnknownIsGap(order, OneStep([F([97])]));
    RunOfThree(order, OneStep([]), NewFrame, FirstText, Unknown, OneStep([F([])]), OneStep([F([97])]));
  }

  function HalfABatchOf(frame: FrameObject): seq<OperationObject> {
    [FrameOf("t", "s", frame), Scalar(FirstText), Scalar(Unknown)]
  }

  lemma HalfABatchIs(frame: FrameObject)
    requires frame.Is(F([]))
    ensures OperationsAre(Work(HalfABatchOf(frame), HalfABatch, [{frame}, {}, {}]), {frame})
  {
  }

  /** The input state is returned, and yet the payload's frame has the text. */
  method GapExtendsPayload(order: ItemOrder, current: StateObject, frame: FrameObject) returns (gap: bool)
    requires current.Is(OneStep([])) && frame.Is(F([])) && frame !in current.Repr()
    modifies frame
    ensures gap && current.Is(OneStep([])) && frame.text == Some([97])
  {
    ghost var work := Work(HalfABatchOf(frame), HalfABatch, [{frame}, {}, {}]);
    HalfABatchRuns(order);
    HalfABatchIs(frame);
    var state;
    state, gap := ApplyBatch(order, current, OneStep([]), HalfABatchOf(frame), work, {frame}, None);
    assert StillBehind(HalfABatch, 0, 3);
    assert ShowsFrame(OneStep([F([97])]), NewFrame, frame);
    OneStepIsFound([F([97])]);
  }
}
