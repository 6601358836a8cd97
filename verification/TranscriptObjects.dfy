/**
  Transcripts as objects: arrays, maps, turns, steps and frames that are shared by reference and
  edited in place.

  `Is(v)` says that an object, with everything it reaches, is a tree that currently stands for the
  value `v`. Anything parsed from JSON or copied by `structuredClone` is such a tree. Tasks, keyed
  values, markers and metadata are never written after they are made and stay values.
*/
module TranscriptObjects {
  import opened Wrappers
  import opened Json
  import opened Ordering
  import opened Transcript

  /** A JavaScript array. */
  class ArrayObject<T> {
    var elems: seq<T>

    constructor (elems: seq<T>)
      ensures this.elems == elems
    {
      this.elems := elems;
    }
  }

  /** A JavaScript `Map` with string keys. */
  class MapObject<V> {
    var entries: map<string, V>

    constructor (entries: map<string, V>)
      ensures this.entries == entries
    {
      this.entries := entries;
    }

    method Set(key: string, value: V)
      modifies this
      ensures entries == old(entries)[key := value]
    {
      entries := entries[key := value];
    }
  }

  class FrameObject {
    var frameId: string
    var text: Option<Text>
    var body: Json

    ghost predicate Is(v: Frame)
      reads this
    {
      v == Frame(frameId, text, body)
    }

    constructor (frameId: string, text: Option<Text>, body: Json)
      ensures Is(Frame(frameId, text, body))
    {
      this.frameId, this.text, this.body := frameId, text, body;
    }
  }

  ghost predicate Distinct(frames: seq<FrameObject>) {
    forall k, k' :: 0 <= k < k' < |frames| ==> frames[k] != frames[k']
  }

  class StepObject {
    var stepId: string
    var ordinal: int
    var body: Json
    var frames: ArrayObject<FrameObject>
    /** What the step reaches, itself included. */
    ghost var repr: set<object>

    ghost predicate Is(v: Step)
      reads this, repr
    {
      && this in repr && frames in repr
      && (forall f :: f in frames.elems ==> f in repr)
      && Distinct(frames.elems)
      && v.stepId == stepId && v.ordinal == ordinal && v.body == body
      && |v.frames| == |frames.elems|
      && (forall k :: 0 <= k < |frames.elems| ==> frames.elems[k].Is(v.frames[k]))
    }

    constructor (stepId: string, ordinal: int, body: Json, frames: ArrayObject<FrameObject>)
      ensures this.stepId == stepId && this.ordinal == ordinal && this.body == body && this.frames == frames
      ensures repr == {this, frames} + set f: FrameObject | f in frames.elems :: f as object
    {
      this.stepId, this.ordinal, this.body, this.frames := stepId, ordinal, body, frames;
      repr := {this, frames} + set f: FrameObject | f in frames.elems :: f as object;
    }

    /** `frame` itself becomes part of the step. */
    method PutFrame(ghost v: Step, frame: FrameObject, ghost frameV: Frame)
      requires Is(v) && frame !in repr && frame.Is(frameV)
      modifies this, frames
      ensures repr == old(repr) + {frame} && frames == old(frames) && stepId == old(stepId)
      ensures frames.elems == Put(old(frames.elems), IndexOf(FrameIds(v.frames), frameV.frameId), frame)
      ensures Is(v.(frames := UpsertFrame(v.frames, frameV)))
    {
      var ids := FrameObjectIds(frames.elems);
      assert ids == FrameIds(v.frames);
      frames.elems := Put(frames.elems, IndexOf(ids, frame.frameId), frame);
      repr := repr + {frame};
    }

    /** The text of frame `k` is overwritten in the frame itself. */
    method PutText(ghost v: Step, k: nat, text: Text)
      requires Is(v) && k < |frames.elems|
      modifies frames.elems[k]
      ensures frames == old(frames) && frames.elems == old(frames.elems) && repr == old(repr)
      ensures Is(v.(frames := v.frames[k := v.frames[k].(text := Some(text))]))
    {
      frames.elems[k].text := Some(text);
    }
  }

  function FrameObjectIds(frames: seq<FrameObject>): (ids: seq<string>)
    reads frames
    ensures |ids| == |frames| && forall k :: 0 <= k < |frames| ==> ids[k] == frames[k].frameId
  {
    seq(|frames|, k requires 0 <= k < |frames| reads frames => frames[k].frameId)
  }

  // ---------- turns ----------

  /** Steps that are trees and share nothing; `below` covers everything they reach. */
  ghost predicate StepsAre(steps: seq<StepObject>, below: set<object>, vs: seq<Step>)
    reads below
  {
    && (forall j :: 0 <= j < |steps| ==> steps[j] in below && steps[j].repr <= below)
    && (forall j, j' :: 0 <= j < j' < |steps| ==> steps[j].repr !! steps[j'].repr)
    && |vs| == |steps|
    && (forall j :: 0 <= j < |steps| ==> steps[j].Is(vs[j]))
  }

  twostate predicate Untouched(os: set<object>)
    reads os
  {
    unchanged(os)
  }

  class TurnObject {
    var turnId: string
    var ordinal: int
    var body: Json
    var steps: ArrayObject<StepObject>
    /** What the steps reach; the turn and its array are not among it. */
    ghost var below: set<object>

    ghost function Repr(): set<object>
      reads this
    {
      {this, steps} + below
    }

    ghost predicate Is(v: Turn)
      reads this, steps, below
    {
      && this !in below && steps !in below
      && StepsAre(steps.elems, below, v.steps)
      && v == Turn(turnId, ordinal, body, v.steps)
    }

    constructor (turnId: string, ordinal: int, body: Json, steps: ArrayObject<StepObject>, ghost below: set<object>)
      ensures this.turnId == turnId && this.ordinal == ordinal && this.body == body && this.steps == steps
      ensures this.below == below
    {
      this.turnId, this.ordinal, this.body, this.steps := turnId, ordinal, body, steps;
      this.below := below;
    }

    /** Only step `j` changed, taking in nothing but new objects: no other step can tell. */
    twostate lemma OneStepChanged(new v: Turn, new j: nat, new step: Step)
      requires old(Is(v)) && steps == old(steps) && steps.elems == old(steps.elems) && j < |steps.elems|
      requires turnId == v.turnId && ordinal == v.ordinal && body == v.body
      requires old(below) <= below && this !in below && steps !in below
      requires Untouched(old(below) - old(steps.elems[j].repr))
      requires steps.elems[j].Is(step)
      requires old(steps.elems[j].repr) <= steps.elems[j].repr <= old(steps.elems[j].repr) + (below - old(below))
      ensures Is(v.(steps := v.steps[j := step]))
    {
      forall j' | 0 <= j' < |steps.elems| && j' != j
        ensures steps.elems[j'].repr == old(steps.elems[j'].repr) && steps.elems[j'].Is(v.steps[j'])
      {
        assert old(steps.elems[j'].repr) !! old(steps.elems[j].repr);
        assert old(steps.elems[j'].Is(v.steps[j']));
      }
    }

    method PutFrame(ghost v: Turn, j: nat, frame: FrameObject, ghost frameV: Frame)
      requires Is(v) && j < |steps.elems| && frame !in below && frame.Is(frameV)
      modifies this, steps.elems[j], steps.elems[j].frames
      ensures turnId == old(turnId) && steps == old(steps) && steps.elems == old(steps.elems)
      ensures below == old(below) + {frame} && steps.elems[j].frames == old(steps.elems[j].frames)
      ensures steps.elems[j].frames.elems ==
        Put(old(steps.elems[j].frames.elems), IndexOf(FrameIds(v.steps[j].frames), frameV.frameId), frame)
      ensures Is(v.(steps := v.steps[j := v.steps[j].(frames := UpsertFrame(v.steps[j].frames, frameV))]))
    {
      steps.elems[j].PutFrame(v.steps[j], frame, frameV);
      below := below + {frame};
      OneStepChanged(v, j, v.steps[j].(frames := UpsertFrame(v.steps[j].frames, frameV)));
    }

    method PutText(ghost v: Turn, j: nat, k: nat, text: Text)
      requires Is(v) && j < |steps.elems| && k < |steps.elems[j].frames.elems|
      modifies steps.elems[j].frames.elems[k]
      ensures turnId == old(turnId) && steps == old(steps) && steps.elems == old(steps.elems) && below == old(below)
      ensures k < |v.steps[j].frames| &&
        Is(v.(steps := v.steps[j :=
          v.steps[j].(frames := v.steps[j].frames[k := v.steps[j].frames[k].(text := Some(text))])]))
    {
      assert steps.elems[j].Is(v.steps[j]);
      steps.elems[j].PutText(v.steps[j], k, text);
      OneStepChanged(v, j, v.steps[j].(frames := v.steps[j].frames[k := v.steps[j].frames[k].(text := Some(text))]));
    }

    /** A new step object takes over the array of frames of the one it replaces. */
    method ReplaceStep(ghost v: Turn, head: StepHead) returns (put: seq<StepObject>, ghost added: set<object>)
      requires Is(v)
      ensures fresh(added)
      ensures StepsAre(put, below + added, ReplacedStep(v.steps, head))
    {
      var ids := StepObjectIds(steps.elems);
      assert ids == StepIds(v.steps);
      var at := IndexOf(ids, head.stepId);
      var frames: ArrayObject<FrameObject>;
      added := {};
      if at.Some? {
        assert steps.elems[at.value].Is(v.steps[at.value]);
        frames := steps.elems[at.value].frames;
      } else {
        frames := new ArrayObject([]);
        added := {frames};
      }
      var next := new StepObject(head.stepId, head.ordinal, head.body, frames);
      added := added + {next};
      ghost var nextV := Step(head.stepId, head.ordinal, head.body, if at.Some? then v.steps[at.value].frames else []);
      assert next.Is(nextV);
      OneStepReplaced(steps.elems, below, v.steps, at, next, nextV, added);
      put := Put(steps.elems, at, next);
    }

    method PutStep(ghost v: Turn, head: StepHead) returns (ghost added: set<object>)
      requires Is(v)
      modifies this, steps
      ensures turnId == old(turnId) && steps == old(steps)
      ensures below == old(below) + added && fresh(added)
      ensures Is(v.(steps := UpsertStep(v.steps, head)))
    {
      var put;
      put, added := ReplaceStep(v, head);
      ghost var putV := ReplacedStep(v.steps, head);
      var p := StableOrder(StepObjectOrdinals(put));
      OrdinalsAgree(put, below + added, putV);
      ArrangeSteps(put, below + added, putV, p);
      TakeSteps(v, Arrange(put, p), Arrange(putV, p), added);
    }

    method TakeSteps(ghost v: Turn, elems: seq<StepObject>, ghost vs: seq<Step>, ghost added: set<object>)
      requires Is(v) && StepsAre(elems, below + added, vs) && this !in added && steps !in added
      modifies this, steps
      ensures turnId == old(turnId) && steps == old(steps) && below == old(below) + added
      ensures Is(v.(steps := vs))
    {
      assert forall j :: 0 <= j < |elems| ==> this !in elems[j].repr && steps !in elems[j].repr;
      steps.elems := elems;
      below := below + added;
      assert forall j :: 0 <= j < |elems| ==> elems[j].Is(vs[j]);
    }
  }

  ghost function ReplacedStep(steps: seq<Step>, head: StepHead): seq<Step> {
    var at := IndexOf(StepIds(steps), head.stepId);
    Put(steps, at, Step(head.stepId, head.ordinal, head.body, if at.Some? then steps[at.value].frames else []))
  }

  /** A step of `added` objects and those of the step it replaces fits where that step was. */
  lemma OneStepReplaced(steps: seq<StepObject>, below: set<object>, vs: seq<Step>, at: Option<nat>,
    next: StepObject, v: Step, added: set<object>)
    requires StepsAre(steps, below, vs) && next.Is(v) && next in added && added !! below
    requires at.Some? ==> at.value < |steps| && next.repr <= added + steps[at.value].repr
    requires at.None? ==> next.repr <= added
    ensures StepsAre(Put(steps, at, next), below + added, Put(vs, at, v))
  {
  }

  lemma ArrangeSteps(steps: seq<StepObject>, below: set<object>, vs: seq<Step>, p: seq<nat>)
    requires StepsAre(steps, below, vs)
    ensures StepsAre(Arrange(steps, p), below, Arrange(vs, p))
  {
    var q := Choice(p, |steps|);
    var r := Arrange(steps, p);
    forall j, j' | 0 <= j < j' < |r| ensures r[j].repr !! r[j'].repr {
      assert q[j] != q[j'];
    }
  }

  function StepObjectIds(steps: seq<StepObject>): (ids: seq<string>)
    reads steps
    ensures |ids| == |steps| && forall j :: 0 <= j < |steps| ==> ids[j] == steps[j].stepId
  {
    seq(|steps|, j requires 0 <= j < |steps| reads steps => steps[j].stepId)
  }

  function StepObjectOrdinals(steps: seq<StepObject>): (keys: seq<int>)
    reads steps
    ensures |keys| == |steps| && forall j :: 0 <= j < |steps| ==> keys[j] == steps[j].ordinal
  {
    seq(|steps|, j requires 0 <= j < |steps| reads steps => steps[j].ordinal)
  }

  lemma OrdinalsAgree(steps: seq<StepObject>, below: set<object>, vs: seq<Step>)
    requires StepsAre(steps, below, vs)
    ensures StepObjectOrdinals(steps) == StepOrdinals(vs)
  {
    forall j | 0 <= j < |steps| ensures steps[j].ordinal == vs[j].ordinal { assert steps[j].Is(vs[j]); }
  }

  // ---------- items ----------

  datatype ItemObject = TurnRef(turn: TurnObject) | Plain(item: Item) {
    function Objects(): set<object> {
      if TurnRef? then {turn} else {}
    }

    ghost function Repr(): set<object>
      reads Objects()
    {
      if TurnRef? then turn.Repr() else {}
    }

    ghost predicate Is(v: Item)
      reads Objects(), Repr()
    {
      match this
      case TurnRef(t) => v.TurnItem? && t.Is(v.turn)
      case Plain(item) => v == item && !v.TurnItem?
    }
  }

  /** Items whose turns are trees that share nothing; `below` covers everything they reach. */
  ghost predicate ItemsAre(items: seq<ItemObject>, below: set<object>, vs: seq<Item>)
    reads below
  {
    && (forall i :: 0 <= i < |items| ==> items[i].Objects() <= below && items[i].Repr() <= below)
    && (forall i, i' :: 0 <= i < i' < |items| ==> items[i].Repr() !! items[i'].Repr())
    && |vs| == |items|
    && (forall i :: 0 <= i < |items| ==> items[i].Is(vs[i]))
  }

  ghost function AllTurns(items: seq<ItemObject>): (turns: set<object>)
    ensures forall i :: 0 <= i < |items| ==> items[i].Objects() <= turns
  {
    set i, t | 0 <= i < |items| && t in items[i].Objects() :: t
  }

  function ObjectId(item: ItemObject): string
    reads item.Objects()
  {
    match item
    case TurnRef(t) => "turn:" + t.turnId
    case Plain(plain) => ItemId(plain)
  }

  function ObjectIds(items: seq<ItemObject>): (ids: seq<string>)
    reads AllTurns(items)
    ensures |ids| == |items| && forall i :: 0 <= i < |items| ==> ids[i] == ObjectId(items[i])
  {
    seq(|items|, i requires 0 <= i < |items| reads AllTurns(items) => ObjectId(items[i]))
  }

  function ObjectSortKey(item: ItemObject): SortKey
    reads item.Objects()
  {
    match item
    case TurnRef(t) => TurnKey(t.ordinal)
    case Plain(_) => OtherKey
  }

  function ObjectSortKeys(items: seq<ItemObject>): (keys: seq<SortKey>)
    reads AllTurns(items)
    ensures |keys| == |items| && forall i :: 0 <= i < |items| ==> keys[i] == ObjectSortKey(items[i])
  {
    seq(|items|, i requires 0 <= i < |items| reads AllTurns(items) => ObjectSortKey(items[i]))
  }

  lemma IdsAgree(items: seq<ItemObject>, below: set<object>, vs: seq<Item>)
    requires ItemsAre(items, below, vs)
    ensures ObjectIds(items) == ItemIds(vs)
  {
    forall i | 0 <= i < |items| ensures ObjectId(items[i]) == ItemId(vs[i]) {
      assert items[i].Is(vs[i]);
    }
  }

  lemma SortKeysAgree(items: seq<ItemObject>, below: set<object>, vs: seq<Item>)
    requires ItemsAre(items, below, vs)
    ensures ObjectSortKeys(items) == SortKeys(vs)
  {
    forall i | 0 <= i < |items| ensures ObjectSortKey(items[i]) == SortKeys(vs)[i] {
      assert items[i].Is(vs[i]);
    }
  }

  ghost function ReplacedTurn(items: seq<Item>, head: TurnHead): seq<Item> {
    var at := FindTurn(items, head.turnId);
    Put(items, at, TurnItem(Turn(head.turnId, head.ordinal, head.body,
      if at.Some? then items[at.value].turn.steps else [])))
  }

  /** An item made of `extra` objects and, at most, those of the item it replaces fits in its place. */
  lemma OneItemReplaced(items: seq<ItemObject>, below: set<object>, vs: seq<Item>, at: Option<nat>,
    next: ItemObject, v: Item, extra: set<object>)
    requires ItemsAre(items, below, vs) && next.Is(v) && extra !! below
    requires next.Objects() <= extra
    requires at.Some? ==> at.value < |items| && next.Repr() <= extra + items[at.value].Repr()
    requires at.None? ==> next.Repr() <= extra
    ensures ItemsAre(Put(items, at, next), below + extra, Put(vs, at, v))
  {
  }

  lemma ArrangeItems(items: seq<ItemObject>, below: set<object>, vs: seq<Item>, p: seq<nat>)
    requires ItemsAre(items, below, vs)
    ensures ItemsAre(Arrange(items, p), below, Arrange(vs, p))
  {
    var q := Choice(p, |items|);
    var r := Arrange(items, p);
    forall i, i' | 0 <= i < i' < |r| ensures r[i].Repr() !! r[i'].Repr() {
      assert q[i] != q[i'];
    }
  }

  /** The items that are not listed, themselves. */
  method Remaining(items: seq<ItemObject>, ghost below: set<object>, ghost vs: seq<Item>, ids: set<string>)
    returns (kept: seq<ItemObject>)
    requires ItemsAre(items, below, vs)
    ensures ItemsAre(kept, below, WithoutIds(vs, ids)) && AreAmong(kept, items)
  {
    kept := [];
    for i := 0 to |items|
      invariant ItemsAre(kept, below, WithoutIds(vs[..i], ids)) && AreAmong(kept, items[..i])
    {
      WithoutIdsStep(vs, i, ids);
      AmongOneMore(kept, items, i);
      assert ObjectId(items[i]) == ItemId(vs[i]) by { assert items[i].Is(vs[i]); }
      if ObjectId(items[i]) !in ids {
        OneItemKept(items, below, vs, kept, WithoutIds(vs[..i], ids), i);
        kept := kept + [items[i]];
      }
    }
    assert vs[..|items|] == vs && items[..|items|] == items;
  }

  predicate AreAmong(some: seq<ItemObject>, items: seq<ItemObject>) {
    forall m :: 0 <= m < |some| ==> some[m] in items
  }

  lemma AmongOneMore(some: seq<ItemObject>, items: seq<ItemObject>, i: nat)
    requires i < |items| && AreAmong(some, items[..i])
    ensures AreAmong(some, items[..i + 1]) && AreAmong(some + [items[i]], items[..i + 1])
  {
    assert items[..i + 1] == items[..i] + [items[i]];
  }

  lemma OneItemKept(items: seq<ItemObject>, below: set<object>, vs: seq<Item>, kept: seq<ItemObject>,
    keptV: seq<Item>, i: nat)
    requires ItemsAre(items, below, vs) && i < |items| && ItemsAre(kept, below, keptV) && AreAmong(kept, items[..i])
    ensures ItemsAre(kept + [items[i]], below, keptV + [vs[i]])
  {
    OthersAreApart(items, below, vs, kept, i);
    OneItemAdded(kept, below, keptV, items[i], vs[i]);
  }

  lemma OthersAreApart(items: seq<ItemObject>, below: set<object>, vs: seq<Item>, kept: seq<ItemObject>, i: nat)
    requires ItemsAre(items, below, vs) && i < |items| && AreAmong(kept, items[..i])
    ensures forall m :: 0 <= m < |kept| ==> kept[m].Repr() !! items[i].Repr()
  {
    forall m | 0 <= m < |kept| ensures kept[m].Repr() !! items[i].Repr() {
      var k :| 0 <= k < i && items[k] == kept[m];
    }
  }

  lemma {:induction false} WithoutIdsStep(vs: seq<Item>, i: nat, ids: set<string>)
    requires i < |vs|
    ensures WithoutIds(vs[..i + 1], ids) ==
      WithoutIds(vs[..i], ids) + if ItemId(vs[i]) in ids then [] else [vs[i]]
  {
    assert vs[..i + 1][..i] == vs[..i] && vs[..i + 1][i] == vs[i];
  }

  lemma OneItemAdded(items: seq<ItemObject>, below: set<object>, vs: seq<Item>, item: ItemObject, v: Item)
    requires ItemsAre(items, below, vs) && item.Objects() <= below && item.Repr() <= below && item.Is(v)
    requires forall i :: 0 <= i < |items| ==> items[i].Repr() !! item.Repr()
    ensures ItemsAre(items + [item], below, vs + [v])
  {
  }

  // ---------- the state ----------

  /** The four keyed collections. */
  datatype TableObjects = TableObjects(
    interactions: MapObject<Json>,
    attachments: MapObject<Json>,
    todos: MapObject<Json>,
    prompts: MapObject<Json>)
  {
    function Objects(): set<object> {
      {interactions, attachments, todos, prompts}
    }

    ghost predicate Separate() {
      && interactions != attachments && interactions != todos && interactions != prompts
      && attachments != todos && attachments != prompts && todos != prompts
    }

    function Of(table: Table): MapObject<Json> {
      match table
      case Interactions => interactions
      case Attachments => attachments
      case Todos => todos
      case Prompts => prompts
    }

    function View(): Tables
      reads Objects()
    {
      Tables(interactions.entries, attachments.entries, todos.entries, prompts.entries)
    }
  }

  method CopyTables(v: Tables) returns (tables: TableObjects)
    ensures fresh(tables.Objects()) && tables.Separate() && tables.View() == v
  {
    var interactions := new MapObject(v.interactions);
    var attachments := new MapObject(v.attachments);
    var todos := new MapObject(v.todos);
    var prompts := new MapObject(v.prompts);
    tables := TableObjects(interactions, attachments, todos, prompts);
  }

  /** The name of the turn, if the item is one. */
  function ItemName(item: Item): string {
    if item.TurnItem? then item.turn.turnId else ""
  }

  /** What a change that takes in `added` under turns called `name` brings to those called `id`. */
  ghost function Share(id: string, name: string, added: set<object>): set<object> {
    if id == name then added else {}
  }

  class StateObject {
    var agentId: string
    var items: ArrayObject<ItemObject>
    var tasks: MapObject<Task>
    var tables: TableObjects
    var meta: JsonObject
    var pendingInteractions: set<string>
    var hasMoreOlder: bool
    var cursor: int
    /** What the items reach; the state's own objects are not among it. */
    ghost var below: set<object>

    /** The maps and the state object itself. */
    ghost function Maps(): set<object>
      reads this
    {
      {this, tasks} + tables.Objects()
    }

    ghost function Own(): set<object>
      reads this
    {
      Maps() + {items}
    }

    ghost function Repr(): set<object>
      reads this
    {
      Own() + below
    }

    ghost function Fields(vs: seq<Item>): State
      reads this, tasks, tables.Objects()
    {
      State(agentId, vs, tasks.entries, tables.View(), meta, pendingInteractions, hasMoreOlder, cursor)
    }

    ghost predicate Is(v: State)
      reads this, Own(), below
    {
      && Own() !! below && items !in Maps()
      && tables.Separate() && tasks !in tables.Objects() && this !in tables.Objects()
      && ItemsAre(items.elems, below, v.items)
      && v == Fields(v.items)
    }

    /** `v` gives every field but the items; the maps are made anew. */
    constructor (v: State, items: ArrayObject<ItemObject>, ghost vs: seq<Item>, ghost below: set<object>)
      requires items !in below && ItemsAre(items.elems, below, vs)
      ensures Is(v.(items := vs)) && this.items == items && this.below == below
      ensures fresh(Maps())
    {
      agentId, this.items, meta := v.agentId, items, v.meta;
      tasks := new MapObject(v.tasks);
      var copies := CopyTables(v.tables);
      tables := copies;
      pendingInteractions, hasMoreOlder, cursor := v.pendingInteractions, v.hasMoreOlder, v.cursor;
      this.below := below;
    }

    /** Everything reached through turns called `turnId`. */
    ghost function TurnReach(turnId: string): set<object>
      reads this, items, AllTurns(items.elems)
    {
      set i, o | 0 <= i < |items.elems| && items.elems[i].TurnRef? && items.elems[i].turn.turnId == turnId
        && o in items.elems[i].turn.Repr() :: o
    }

    /** Item `i`, known to be a turn, with what makes it one. */
    ghost predicate TurnAt(v: State, i: nat)
      requires Is(v)
      reads this, Own(), below
    {
      && i < |items.elems|
      && v.items[i].TurnItem? && items.elems[i].TurnRef? && items.elems[i].turn.Is(v.items[i].turn)
    }

    lemma ItemAt(v: State, i: nat)
      requires Is(v) && i < |v.items| && v.items[i].TurnItem?
      ensures TurnAt(v, i)
    {
      assert items.elems[i].Is(v.items[i]);
    }

    /** Only the turn at `i` changed, taking in nothing but `added`: no other item can tell. */
    twostate lemma OneTurnChanged(new v: State, new i: nat, new turn: Turn, new added: set<object>)
      requires old(Is(v) && TurnAt(v, i)) && unchanged(this) && unchanged(items)
      requires forall o :: o in added ==> o !in Repr()
      requires Untouched(old(below) - old(items.elems[i].Repr()))
      requires items.elems[i].turn.Is(turn) && turn.turnId == v.items[i].turn.turnId
      requires items.elems[i].turn.Repr() == old(items.elems[i].turn.Repr()) + added
      ensures ItemsAre(items.elems, below + added, v.items[i := TurnItem(turn)])
      ensures forall id :: TurnReach(id) <= old(TurnReach(id)) + Share(id, turn.turnId, added)
    {
      forall i' | 0 <= i' < |items.elems| && i' != i
        ensures items.elems[i'].Repr() == old(items.elems[i'].Repr()) && items.elems[i'].Is(v.items[i'])
        ensures items.elems[i'].TurnRef? ==> items.elems[i'].turn.turnId == old(items.elems[i'].turn.turnId)
      {
        assert old(items.elems[i'].Repr()) !! old(items.elems[i].Repr());
        assert old(items.elems[i'].Is(v.items[i']));
      }
    }

    method PutText(ghost v: State, i: nat, j: nat, k: nat, text: Text)
      requires Is(v) && TurnAt(v, i) && j < |items.elems[i].turn.steps.elems| && j < |v.items[i].turn.steps|
      requires k < |items.elems[i].turn.steps.elems[j].frames.elems| && k < |v.items[i].turn.steps[j].frames|
      modifies items.elems[i].turn.steps.elems[j].frames.elems[k]
      ensures unchanged(this)
      ensures forall id :: TurnReach(id) <= old(TurnReach(id))
      ensures var step := v.items[i].turn.steps[j];
        Is(v.(items := Transcript.PutStep(v.items, (i, j),
          step.(frames := step.frames[k := step.frames[k].(text := Some(text))]))))
    {
      assert items.elems[i].turn.steps.elems[j].Is(v.items[i].turn.steps[j]);
      ghost var turnV, step := v.items[i].turn, v.items[i].turn.steps[j];
      items.elems[i].turn.PutText(turnV, j, k, text);
      OneTurnChanged(v, i, turnV.(steps :=
        turnV.steps[j := step.(frames := step.frames[k := step.frames[k].(text := Some(text))])]), {});
    }

    method ChangeFrames(ghost v: State, i: nat, j: nat, frame: FrameObject, ghost frameV: Frame)
      requires Is(v) && TurnAt(v, i) && j < |items.elems[i].turn.steps.elems| && j < |v.items[i].turn.steps|
      requires frame !in Repr() && frame.Is(frameV)
      modifies items.elems[i].turn
      modifies items.elems[i].turn.steps.elems[j], items.elems[i].turn.steps.elems[j].frames
      ensures unchanged(this) && unchanged(items)
      ensures forall id :: TurnReach(id) <= old(TurnReach(id)) + Share(id, v.items[i].turn.turnId, {frame})
      ensures var step := v.items[i].turn.steps[j];
        ItemsAre(items.elems, below + {frame},
          Transcript.PutStep(v.items, (i, j), step.(frames := UpsertFrame(step.frames, frameV))))
      ensures items.elems[i].turn.steps == old(items.elems[i].turn.steps) && unchanged(old(items.elems[i].turn.steps))
      ensures items.elems[i].turn.steps.elems[j].frames.elems ==
        Put(old(items.elems[i].turn.steps.elems[j].frames.elems),
          IndexOf(FrameIds(v.items[i].turn.steps[j].frames), frameV.frameId), frame)
    {
      ghost var turnV, step := v.items[i].turn, v.items[i].turn.steps[j];
      var turn := items.elems[i].turn;
      assert turn.Repr() <= below && turn.Repr() == items.elems[i].Repr();
      turn.PutFrame(turnV, j, frame, frameV);
      OneTurnChanged(v, i, turnV.(steps := turnV.steps[j := step.(frames := UpsertFrame(step.frames, frameV))]),
        {frame});
    }

    method ChangeSteps(ghost v: State, i: nat, head: StepHead) returns (ghost added: set<object>)
      requires Is(v) && TurnAt(v, i)
      modifies items.elems[i].turn, items.elems[i].turn.steps
      ensures unchanged(this) && unchanged(items) && fresh(added) && added !! Repr()
      ensures forall id :: TurnReach(id) <= old(TurnReach(id)) + Share(id, v.items[i].turn.turnId, added)
      ensures var turn := v.items[i].turn;
        ItemsAre(items.elems, below + added, v.items[i := TurnItem(turn.(steps := UpsertStep(turn.steps, head)))])
    {
      ghost var turnV := v.items[i].turn;
      var turn := items.elems[i].turn;
      assert turn.Repr() <= below && turn.Repr() == items.elems[i].Repr();
      ghost var was := Repr();
      assert forall o :: o in was ==> allocated(o);
      added := turn.PutStep(turnV, head);
      assert added !! was;
      OneTurnChanged(v, i, turnV.(steps := UpsertStep(turnV.steps, head)), added);
    }

    method PutFrame(ghost v: State, i: nat, j: nat, frame: FrameObject, ghost frameV: Frame)
      requires Is(v) && TurnAt(v, i) && j < |items.elems[i].turn.steps.elems| && j < |v.items[i].turn.steps|
      requires frame !in Repr() && frame.Is(frameV)
      modifies this`below, items.elems[i].turn
      modifies items.elems[i].turn.steps.elems[j], items.elems[i].turn.steps.elems[j].frames
      ensures below == old(below) + {frame} && unchanged(this`items, this`tasks, this`tables) && unchanged(items)
      ensures forall id :: TurnReach(id) <= old(TurnReach(id)) + Share(id, v.items[i].turn.turnId, {frame})
      ensures var step := v.items[i].turn.steps[j];
        Is(v.(items := Transcript.PutStep(v.items, (i, j), step.(frames := UpsertFrame(step.frames, frameV)))))
      ensures items.elems[i].turn.steps == old(items.elems[i].turn.steps) && unchanged(old(items.elems[i].turn.steps))
      ensures items.elems[i].turn.steps.elems[j].frames.elems ==
        Put(old(items.elems[i].turn.steps.elems[j].frames.elems),
          IndexOf(FrameIds(v.items[i].turn.steps[j].frames), frameV.frameId), frame)
    {
      ChangeFrames(v, i, j, frame, frameV);
      below := below + {frame};
    }

    method PutStep(ghost v: State, i: nat, head: StepHead) returns (ghost added: set<object>)
      requires Is(v) && TurnAt(v, i)
      modifies this`below, items.elems[i].turn, items.elems[i].turn.steps
      ensures below == old(below) + added && fresh(added) && unchanged(this`items, this`tasks, this`tables)
        && unchanged(items)
      ensures forall id :: TurnReach(id) <= old(TurnReach(id)) + Share(id, v.items[i].turn.turnId, added)
      ensures var turn := v.items[i].turn;
        Is(v.(items := v.items[i := TurnItem(turn.(steps := UpsertStep(turn.steps, head)))]))
    {
      added := ChangeSteps(v, i, head);
      below := below + added;
    }

    twostate lemma SameTurns()
      requires items == old(items) && unchanged(items) && Untouched(old(AllTurns(items.elems)))
      ensures forall id :: TurnReach(id) == old(TurnReach(id))
    {
      forall i | 0 <= i < |items.elems| && items.elems[i].TurnRef?
        ensures items.elems[i].turn.turnId == old(items.elems[i].turn.turnId)
        ensures items.elems[i].turn.Repr() == old(items.elems[i].turn.Repr())
      {
        assert items.elems[i].turn in items.elems[i].Objects();
      }
      forall id, o ensures o in TurnReach(id) <==> o in old(TurnReach(id)) {
        if o in TurnReach(id) {
          var i :| 0 <= i < |items.elems| && items.elems[i].TurnRef? && items.elems[i].turn.turnId == id
            && o in items.elems[i].turn.Repr();
          assert o in old(items.elems[i].turn.Repr());
        }
      }
    }

    method SetCursor(ghost v: State, sequence: int)
      requires Is(v)
      modifies this`cursor
      ensures Repr() == old(Repr()) && Is(v.(cursor := sequence))
    {
      cursor := sequence;
    }

    method SetTask(ghost v: State, key: string, task: Task)
      requires Is(v)
      modifies tasks
      ensures unchanged(this) && unchanged(items)
      ensures forall id :: TurnReach(id) == old(TurnReach(id))
      ensures Is(v.(tasks := v.tasks[key := task]))
    {
      assert AllTurns(items.elems) <= below;
      tasks.Set(key, task);
    }

    method SetEntry(ghost v: State, table: Table, key: string, value: Json)
      requires Is(v) && KeyOf(value, KeyName(table)) == Some(key)
      modifies tables.Of(table)
      ensures unchanged(this) && unchanged(items)
      ensures forall id :: TurnReach(id) == old(TurnReach(id))
      ensures Is(v.(tables := UpsertInTable(v.tables, table, value)))
    {
      assert AllTurns(items.elems) <= below;
      assert tables.Of(table) in tables.Objects();
      tables.Of(table).Set(key, value);
    }

    method SetMeta(ghost v: State, merged: JsonObject)
      requires Is(v)
      modifies this`meta
      ensures unchanged(items)
      ensures forall id :: TurnReach(id) == old(TurnReach(id))
      ensures Is(v.(meta := merged))
    {
      assert AllTurns(items.elems) <= below;
      meta := merged;
      SameTurns();
    }

    /** A new turn object takes over the array of steps of the one it replaces, and the items are sorted. */
    method PutTurn(order: ItemOrder, ghost v: State, head: TurnHead) returns (ghost added: set<object>)
      requires Is(v)
      modifies this`below, items
      ensures below == old(below) + added && fresh(added)
      ensures forall id :: TurnReach(id) <= old(TurnReach(id)) + Share(id, head.turnId, added)
      ensures Is(v.(items := UpsertTurn(order, v.items, head)))
    {
      var put;
      put, added := ReplaceTurn(v, head);
      ghost var putV := ReplacedTurn(v.items, head);
      var p := order(ObjectSortKeys(put));
      SortKeysAgree(put, below + added, putV);
      ArrangeItems(put, below + added, putV, p);
      TakeItems(v, Arrange(put, p), Arrange(putV, p), head.turnId, added);
    }

    /** Every turn among `elems` has only what turns of its name had before and, if called `name`, `added`. */
    ghost predicate Known(elems: seq<ItemObject>, name: string, added: set<object>)
      reads this, items, AllTurns(items.elems), AllTurns(elems)
    {
      forall i :: 0 <= i < |elems| && elems[i].TurnRef? ==>
        elems[i].turn.Repr() <= TurnReach(elems[i].turn.turnId) + Share(elems[i].turn.turnId, name, added)
    }

    method TakeItems(ghost v: State, elems: seq<ItemObject>, ghost vs: seq<Item>, ghost name: string,
      ghost added: set<object>)
      requires Is(v) && ItemsAre(elems, below + added, vs) && Own() !! added && Known(elems, name, added)
      modifies this`below, items
      ensures below == old(below) + added
      ensures forall id :: TurnReach(id) <= old(TurnReach(id)) + Share(id, name, added)
      ensures Is(v.(items := vs))
    {
      items.elems := elems;
      below := below + added;
    }

    method ReplaceTurn(ghost v: State, head: TurnHead) returns (put: seq<ItemObject>, ghost added: set<object>)
      requires Is(v)
      ensures fresh(added) && ItemsAre(put, below + added, ReplacedTurn(v.items, head))
        && Known(put, head.turnId, added)
      ensures Own() !! added
    {
      var at := IndexOf(ObjectIds(items.elems), "turn:" + head.turnId);
      IdsAgree(items.elems, below, v.items);
      FindTurnIsIndexOf(v.items, head.turnId);
      var next;
      next, added := NewTurn(v, at, head);
      ghost var nextV := Turn(head.turnId, head.ordinal, head.body,
        if at.Some? then v.items[at.value].turn.steps else []);
      OneItemReplaced(items.elems, below, v.items, at, TurnRef(next), TurnItem(nextV), added);
      PuttingIsKnown(v, at, TurnRef(next), head.turnId, added);
      put := Put(items.elems, at, TurnRef(next));
    }

    method NewTurn(ghost v: State, at: Option<nat>, head: TurnHead) returns (next: TurnObject, ghost added: set<object>)
      requires Is(v)
      requires at.Some? ==>
        at.value < |v.items| && v.items[at.value].TurnItem? && v.items[at.value].turn.turnId == head.turnId
      ensures fresh(added) && added !! Repr() && {next} <= added && next.turnId == head.turnId
      ensures next.Is(Turn(head.turnId, head.ordinal, head.body, if at.Some? then v.items[at.value].turn.steps else []))
      ensures at.Some? ==> at.value < |items.elems| && next.Repr() <= added + items.elems[at.value].Repr()
      ensures at.None? ==> next.Repr() <= added
      ensures next.Repr() <= TurnReach(head.turnId) + added
    {
      ghost var was := Repr();
      assert forall o :: o in was ==> allocated(o);
      if at.Some? {
        ItemAt(v, at.value);
        var turn := items.elems[at.value].turn;
        next := new TurnObject(head.turnId, head.ordinal, head.body, turn.steps, turn.below);
        added := {next};
        assert turn.Repr() <= TurnReach(turn.turnId);
      } else {
        var steps := new ArrayObject([]);
        next := new TurnObject(head.turnId, head.ordinal, head.body, steps, {});
        added := {next, steps};
      }
      assert added !! was;
    }

    lemma OwnTurnsAreKnown(v: State)
      requires Is(v)
      ensures Known(items.elems, "", {})
    {
      forall i | 0 <= i < |items.elems| && items.elems[i].TurnRef?
        ensures items.elems[i].turn.Repr() <= TurnReach(items.elems[i].turn.turnId)
      {
        var turn := items.elems[i].turn;
        forall o | o in turn.Repr() ensures o in TurnReach(turn.turnId) {}
      }
    }

    lemma PuttingIsKnown(v: State, at: Option<nat>, item: ItemObject, name: string, added: set<object>)
      requires Is(v) && (at.Some? ==> at.value < |items.elems|)
      requires item.TurnRef? ==> item.turn.Repr() <= TurnReach(item.turn.turnId) + Share(item.turn.turnId, name, added)
      ensures Known(Put(items.elems, at, item), name, added)
    {
      OwnTurnsAreKnown(v);
    }

    /** `item` itself, with its turn if it has one, becomes part of the state. */
    method PutItem(ghost v: State, item: ItemObject, ghost itemV: Item)
      requires Is(v) && item.Is(itemV) && item.Objects() <= item.Repr() && item.Repr() !! Repr()
      modifies this`below, items
      ensures below == old(below) + item.Repr()
      ensures forall id :: TurnReach(id) <= old(TurnReach(id)) + Share(id, ItemName(itemV), item.Repr())
      ensures Is(v.(items := Put(v.items, IndexOf(ItemIds(v.items), ItemId(itemV)), itemV)))
    {
      assert ObjectId(item) == ItemId(itemV);
      var at := IndexOf(ObjectIds(items.elems), ObjectId(item));
      IdsAgree(items.elems, below, v.items);
      OneItemReplaced(items.elems, below, v.items, at, item, itemV, item.Repr());
      PuttingIsKnown(v, at, item, ItemName(itemV), item.Repr());
      TakeItems(v, Put(items.elems, at, item), Put(v.items, at, itemV), ItemName(itemV), item.Repr());
    }

    lemma RemainingAreKnown(v: State, kept: seq<ItemObject>)
      requires Is(v) && AreAmong(kept, items.elems)
      ensures Known(kept, "", {})
    {
      forall m | 0 <= m < |kept| && kept[m].TurnRef? ensures kept[m].turn.Repr() <= TurnReach(kept[m].turn.turnId) {
        var i :| 0 <= i < |items.elems| && items.elems[i] == kept[m];
      }
    }

    method RemainingItems(ghost v: State, ids: set<string>) returns (list: ArrayObject<ItemObject>)
      requires Is(v)
      ensures fresh(list) && list !in Repr() && Known(list.elems, "", {})
      ensures ItemsAre(list.elems, below, WithoutIds(v.items, ids))
    {
      var kept := Remaining(items.elems, below, v.items, ids);
      RemainingAreKnown(v, kept);
      ghost var was := Repr();
      assert forall o :: o in was ==> allocated(o);
      list := new ArrayObject(kept);
      assert list !in was;
    }

    /** The items that stay move to a new array. */
    method RemoveItems(ghost v: State, ids: set<string>)
      requires Is(v)
      modifies this`items
      ensures fresh(items)
      ensures forall id :: TurnReach(id) <= old(TurnReach(id))
      ensures Is(v.(items := WithoutIds(v.items, ids)))
    {
      var list := RemainingItems(v, ids);
      items := list;
    }
  }

  // ---------- structuredClone ----------

  method CopyStep(s: StepObject, ghost v: Step) returns (c: StepObject)
    requires s.Is(v)
    ensures c.Is(v) && fresh(c.repr)
  {
    var frames: seq<FrameObject> := [];
    for k := 0 to |s.frames.elems|
      invariant |frames| == k && Distinct(frames)
      invariant forall m :: 0 <= m < k ==> fresh(frames[m]) && frames[m].Is(v.frames[m])
    {
      var f := s.frames.elems[k];
      var copy := new FrameObject(f.frameId, f.text, f.body);
      frames := frames + [copy];
    }
    var list := new ArrayObject(frames);
    c := new StepObject(s.stepId, s.ordinal, s.body, list);
  }

  method CopySteps(steps: seq<StepObject>, ghost below: set<object>, ghost vs: seq<Step>)
    returns (copy: seq<StepObject>, ghost under: set<object>)
    requires StepsAre(steps, below, vs)
    ensures StepsAre(copy, under, vs) && fresh(under)
  {
    copy, under := [], {};
    for j := 0 to |steps|
      invariant |copy| == j && StepsAre(copy, under, vs[..j]) && fresh(under)
    {
      var c := CopyStep(steps[j], vs[j]);
      assert vs[..j + 1] == Put(vs[..j], None, vs[j]);
      OneStepReplaced(copy, under, vs[..j], None, c, vs[j], c.repr);
      copy, under := copy + [c], under + c.repr;
    }
    assert vs[..|steps|] == vs;
  }

  method CopyItem(item: ItemObject, ghost v: Item) returns (c: ItemObject)
    requires item.Is(v)
    ensures c.Is(v) && fresh(c.Repr()) && c.Objects() <= c.Repr()
  {
    match item
    case Plain(_) => c := item;
    case TurnRef(t) =>
      var steps, below := CopySteps(t.steps.elems, t.below, v.turn.steps);
      var list := new ArrayObject(steps);
      var turn := new TurnObject(t.turnId, t.ordinal, t.body, list, below);
      c := TurnRef(turn);
  }

  method CopyItems(items: seq<ItemObject>, ghost below: set<object>, ghost vs: seq<Item>)
    returns (copy: seq<ItemObject>, ghost under: set<object>)
    requires ItemsAre(items, below, vs)
    ensures ItemsAre(copy, under, vs) && fresh(under)
  {
    copy, under := [], {};
    for i := 0 to |items|
      invariant |copy| == i && ItemsAre(copy, under, vs[..i]) && fresh(under)
    {
      var c := CopyItem(items[i], vs[i]);
      assert vs[..i + 1] == Put(vs[..i], None, vs[i]);
      OneItemReplaced(copy, under, vs[..i], None, c, vs[i], c.Repr());
      copy, under := copy + [c], under + c.Repr();
    }
    assert vs[..|items|] == vs;
  }

  method CopyArray(items: ArrayObject<ItemObject>, ghost below: set<object>, ghost vs: seq<Item>)
    returns (copy: ArrayObject<ItemObject>, ghost under: set<object>)
    requires ItemsAre(items.elems, below, vs)
    ensures fresh(copy) && fresh(under) && copy !in under && ItemsAre(copy.elems, under, vs)
  {
    var elems;
    elems, under := CopyItems(items.elems, below, vs);
    ghost var was := under;
    assert forall o: object :: o in was ==> allocated(o);
    copy := new ArrayObject(elems);
    assert copy !in was;
  }

  method CloneState(state: StateObject, ghost v: State) returns (c: StateObject)
    requires state.Is(v)
    ensures c.Is(v) && fresh(c.Repr())
  {
    var items, below := CopyArray(state.items, state.below, v.items);
    c := new StateObject(State(state.agentId, [], state.tasks.entries, state.tables.View(), state.meta,
      state.pendingInteractions, state.hasMoreOlder, state.cursor), items, v.items, below);
  }
}
