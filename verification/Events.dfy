/** Cursor and subscription bookkeeping of the agent's event bridge (`crates/agent/src/events.rs`). */
module Events {
  import opened Wrappers

  datatype Cursor = Cursor(sequence: Option<nat>, epoch: Option<string>, transcript: Option<nat>)

  const Unset := Cursor(None, None, None)

  /** `merge_cursor`. */
  function Merge(existing: Cursor, incoming: Cursor): Cursor {
    var epochChanged := existing.epoch.Some? && incoming.epoch.Some? && existing.epoch != incoming.epoch;
    var position :=
      if epochChanged || (existing.sequence.None? && incoming.sequence.Some?) then
        existing.(
          sequence := incoming.sequence,
          epoch := if incoming.epoch.Some? then incoming.epoch else existing.epoch)
      else if incoming.sequence.Some? then
        existing.(
          sequence := if incoming.sequence.value > existing.sequence.value then incoming.sequence
            else existing.sequence,
          epoch := if existing.epoch.None? then incoming.epoch else existing.epoch)
      else if existing.epoch.None? then existing.(epoch := incoming.epoch)
      else existing;
    if incoming.transcript.Some? && (existing.transcript.None? || incoming.transcript.value > existing.transcript.value)
    then position.(transcript := incoming.transcript) else position
  }

  // ---------- the order cursors are merged in ----------

  /** Neither names an epoch the other contradicts. */
  predicate Compatible(a: Cursor, b: Cursor) {
    a.epoch.None? || b.epoch.None? || a.epoch == b.epoch
  }

  predicate AtMost(a: Option<nat>, b: Option<nat>) {
    a.None? || (b.Some? && a.value <= b.value)
  }

  predicate Below(a: Cursor, b: Cursor) {
    AtMost(a.sequence, b.sequence) && AtMost(a.transcript, b.transcript) && (a.epoch.None? || a.epoch == b.epoch)
  }

  /** Cursors commute exactly when their epochs are compatible. */
  lemma MergeCommutesWithinAnEpoch(a: Cursor, b: Cursor)
    ensures Merge(a, b) == Merge(b, a) <==> Compatible(a, b)
  {
  }

  /** Within one epoch merging is the least upper bound. */
  lemma MergeIsLeastUpperBound(a: Cursor, b: Cursor)
    requires Compatible(a, b)
    ensures Below(a, Merge(a, b)) && Below(b, Merge(a, b))
    ensures forall c :: Below(a, c) && Below(b, c) ==> Below(Merge(a, b), c)
  {
  }

  function MergeAll(start: Cursor, cursors: seq<Cursor>): Cursor {
    if cursors == [] then start
    else Merge(MergeAll(start, cursors[..|cursors| - 1]), cursors[|cursors| - 1])
  }

  predicate OneEpoch(epoch: string, start: Cursor, cursors: seq<Cursor>) {
    Compatible(start, Cursor(None, Some(epoch), None)) &&
    forall i :: 0 <= i < |cursors| ==> Compatible(cursors[i], Cursor(None, Some(epoch), None))
  }

  lemma {:induction false} MergeAllIsLeastUpperBound(epoch: string, start: Cursor, cursors: seq<Cursor>)
    requires OneEpoch(epoch, start, cursors)
    ensures var m := MergeAll(start, cursors);
      && Compatible(m, Cursor(None, Some(epoch), None))
      && Below(start, m)
      && (forall i :: 0 <= i < |cursors| ==> Below(cursors[i], m))
      && (forall c :: Below(start, c) && (forall i :: 0 <= i < |cursors| ==> Below(cursors[i], c)) ==> Below(m, c))
    decreases |cursors|
  {
    if cursors != [] {
      var n := |cursors| - 1;
      MergeAllIsLeastUpperBound(epoch, start, cursors[..n]);
      MergeIsLeastUpperBound(MergeAll(start, cursors[..n]), cursors[n]);
      forall c | Below(start, c) && (forall i :: 0 <= i < |cursors| ==> Below(cursors[i], c))
        ensures Below(MergeAll(start, cursors), c)
      {
        assert Below(cursors[n], c);
        assert forall i :: 0 <= i < n ==> cursors[..n][i] == cursors[i];
      }
    }
  }

  /** Within one epoch neither order nor repetition of what is merged matters. */
  lemma OrderAndRepetitionDoNotMatter(epoch: string, start: Cursor, some: seq<Cursor>, others: seq<Cursor>)
    requires OneEpoch(epoch, start, some) && OneEpoch(epoch, start, others)
    requires forall c :: c in some <==> c in others
    ensures MergeAll(start, some) == MergeAll(start, others)
  {
    MergeAllIsLeastUpperBound(epoch, start, some);
    MergeAllIsLeastUpperBound(epoch, start, others);
    assert forall i :: 0 <= i < |some| ==> some[i] in others;
    assert forall i :: 0 <= i < |others| ==> others[i] in some;
    assert Below(MergeAll(start, some), MergeAll(start, others));
    assert Below(MergeAll(start, others), MergeAll(start, some));
  }

  /** Even across epochs the transcript position never goes back and is the largest one merged. */
  lemma {:induction false} TranscriptNeverGoesBack(start: Cursor, cursors: seq<Cursor>)
    ensures var m := MergeAll(start, cursors).transcript;
      && AtMost(start.transcript, m)
      && (forall i :: 0 <= i < |cursors| ==> AtMost(cursors[i].transcript, m))
      && (m == start.transcript || exists i :: 0 <= i < |cursors| && m == cursors[i].transcript)
    decreases |cursors|
  {
    if cursors != [] {
      var n := |cursors| - 1;
      TranscriptNeverGoesBack(start, cursors[..n]);
      var before := MergeAll(start, cursors[..n]).transcript;
      if before != start.transcript {
        var i :| 0 <= i < n && before == cursors[..n][i].transcript;
        assert before == cursors[i].transcript;
      }
    }
  }

  // ---------- across epochs ----------

  /** The last epoch that `start` or one of the cursors names. */
  function NamedEpoch(start: Cursor, cursors: seq<Cursor>): Option<string> {
    if cursors == [] then start.epoch
    else
      var last := cursors[|cursors| - 1];
      if last.epoch.Some? then last.epoch else NamedEpoch(start, cursors[..|cursors| - 1])
  }

  /** Cursor `i` names another epoch than the last one named before it. */
  predicate ChangesEpoch(start: Cursor, cursors: seq<Cursor>, i: nat)
    requires i < |cursors|
  {
    var before := NamedEpoch(start, cursors[..i]);
    before.Some? && cursors[i].epoch.Some? && before != cursors[i].epoch
  }

  /** The sequence positions given since the epoch last changed, that of the cursor that changed it included. */
  function SinceChange(start: Cursor, cursors: seq<Cursor>): (positions: seq<Option<nat>>)
    ensures positions != []
  {
    if cursors == [] then [start.sequence]
    else
      var n := |cursors| - 1;
      if ChangesEpoch(start, cursors, n) then [cursors[n].sequence]
      else SinceChange(start, cursors[..n]) + [cursors[n].sequence]
  }

  lemma MergeOneMore(start: Cursor, cursors: seq<Cursor>)
    requires cursors != []
    requires var before := MergeAll(start, cursors[..|cursors| - 1]);
      && before.epoch == NamedEpoch(start, cursors[..|cursors| - 1])
      && IsLargest(before.sequence, SinceChange(start, cursors[..|cursors| - 1]))
    ensures MergeAll(start, cursors).epoch == NamedEpoch(start, cursors)
    ensures IsLargest(MergeAll(start, cursors).sequence, SinceChange(start, cursors))
  {
    var n := |cursors| - 1;
    var before, after := MergeAll(start, cursors[..n]), MergeAll(start, cursors);
    var positions := SinceChange(start, cursors[..n]);
    if !ChangesEpoch(start, cursors, n) {
      assert SinceChange(start, cursors) == positions + [cursors[n].sequence];
      if after.sequence == before.sequence {
        assert before.sequence in positions;
      } else {
        assert (positions + [cursors[n].sequence])[|positions|] == after.sequence;
      }
    }
  }

  predicate IsLargest(position: Option<nat>, positions: seq<Option<nat>>) {
    position in positions && forall p :: p in positions ==> AtMost(p, position)
  }

  /**
    Over any cursors the epoch is the last one named, and the sequence is the largest given since it
    changed: the cursor that changes it replaces the sequence, by a lower one or none if need be.
  */
  lemma {:induction false} SequenceStartsAnewWithTheEpoch(start: Cursor, cursors: seq<Cursor>)
    ensures MergeAll(start, cursors).epoch == NamedEpoch(start, cursors)
    ensures IsLargest(MergeAll(start, cursors).sequence, SinceChange(start, cursors))
    decreases |cursors|
  {
    if cursors != [] {
      SequenceStartsAnewWithTheEpoch(start, cursors[..|cursors| - 1]);
      MergeOneMore(start, cursors);
    }
  }

  /** It starts anew even from a higher position: the bridge does not stay in a dead epoch. */
  lemma LowerPositionOfANewEpoch()
    ensures MergeAll(Cursor(Some(9), Some("a"), None), [Cursor(Some(2), Some("b"), None)]) ==
      Cursor(Some(2), Some("b"), None)
  {
    assert [Cursor(Some(2), Some("b"), None)][..0] == [];
  }

  // ---------- commands ----------

  datatype Command =
    | Subscribe(channelId: string, sessionId: string, cursor: Option<Cursor>)
    | Unsubscribe(channelId: string)

  class Bridge {
    var subscriptions: map<string, set<string>>
    var cursors: map<string, Cursor>

    constructor ()
      ensures subscriptions == map[] && cursors == map[]
    {
      subscriptions, cursors := map[], map[];
    }

    /** Merging into the entry of a session, which starts out unset. */
    method MergeCursor(sessionId: string, incoming: Cursor)
      modifies this`cursors
      ensures cursors == old(cursors)[sessionId := Merge(Entry(old(cursors), sessionId), incoming)]
    {
      var existing := Entry(cursors, sessionId);
      var epochChanged := existing.epoch.Some? && incoming.epoch.Some? && existing.epoch != incoming.epoch;
      if epochChanged || (existing.sequence.None? && incoming.sequence.Some?) {
        existing := existing.(sequence := incoming.sequence);
        if incoming.epoch.Some? { existing := existing.(epoch := incoming.epoch); }
      } else if incoming.sequence.Some? {
        if incoming.sequence.value > existing.sequence.value { existing := existing.(sequence := incoming.sequence); }
        if existing.epoch.None? { existing := existing.(epoch := incoming.epoch); }
      } else if existing.epoch.None? && incoming.epoch.Some? {
        existing := existing.(epoch := incoming.epoch);
      }
      if incoming.transcript.Some?
        && (existing.transcript.None? || incoming.transcript.value > existing.transcript.value) {
        existing := existing.(transcript := incoming.transcript);
      }
      cursors := cursors[sessionId := existing];
    }

    method ApplyCommand(command: Command)
      modifies this
      ensures subscriptions == AfterCommand(old(subscriptions), command)
      ensures cursors == CursorsAfter(old(cursors), command)
    {
      match command {
        case Subscribe(channelId, sessionId, cursor) =>
          if cursor.Some? { MergeCursor(sessionId, cursor.value); }
          var channels := if sessionId in subscriptions then subscriptions[sessionId] else {};
          subscriptions := subscriptions[sessionId := channels + {channelId}];
        case Unsubscribe(channelId) =>
          var left: map<string, set<string>> := map[];
          var sessions := subscriptions.Keys;
          while sessions != {}
            invariant sessions <= subscriptions.Keys && subscriptions == old(subscriptions) && cursors == old(cursors)
            invariant left == map id |
              id in subscriptions && id !in sessions && subscriptions[id] != {channelId} && subscriptions[id] != {}
              :: subscriptions[id] - {channelId}
            decreases sessions
          {
            var id :| id in sessions;
            var channels := subscriptions[id] - {channelId};
            if channels != {} { left := left[id := channels]; }
            sessions := sessions - {id};
          }
          subscriptions := left;
      }
    }
  }

  function Entry(cursors: map<string, Cursor>, sessionId: string): Cursor {
    if sessionId in cursors then cursors[sessionId] else Unset
  }

  function CursorsAfter(cursors: map<string, Cursor>, command: Command): map<string, Cursor> {
    if command.Subscribe? && command.cursor.Some?
    then cursors[command.sessionId := Merge(Entry(cursors, command.sessionId), command.cursor.value)] else cursors
  }

  /** The cursors after a run of commands, and those the commands brought for one session. */
  function CursorsAfterAll(commands: seq<Command>): map<string, Cursor> {
    if commands == [] then map[]
    else CursorsAfter(CursorsAfterAll(commands[..|commands| - 1]), commands[|commands| - 1])
  }

  predicate Brings(command: Command, sessionId: string) {
    command.Subscribe? && command.sessionId == sessionId && command.cursor.Some?
  }

  function Brought(commands: seq<Command>, sessionId: string): (cursors: seq<Cursor>)
    ensures forall c :: c in cursors <==>
      exists i :: 0 <= i < |commands| && Brings(commands[i], sessionId) && commands[i].cursor.value == c
  {
    if commands == [] then []
    else
      var n := |commands| - 1;
      var before := Brought(commands[..n], sessionId);
      assert forall i :: 0 <= i < n ==> commands[..n][i] == commands[i];
      if Brings(commands[n], sessionId) then before + [commands[n].cursor.value] else before
  }

  lemma {:induction false} CursorIsMerge(commands: seq<Command>, sessionId: string)
    ensures Entry(CursorsAfterAll(commands), sessionId) == MergeAll(Unset, Brought(commands, sessionId))
    decreases |commands|
  {
    if commands != [] {
      CursorIsMerge(commands[..|commands| - 1], sessionId);
    }
  }

  /** The same for the cursor of a session, over all that commands brought for it. */
  lemma SessionFollowsItsEpoch(commands: seq<Command>, sessionId: string)
    ensures var cursor, brought := Entry(CursorsAfterAll(commands), sessionId), Brought(commands, sessionId);
      && cursor.epoch == NamedEpoch(Unset, brought)
      && IsLargest(cursor.sequence, SinceChange(Unset, brought))
      && (forall i :: 0 <= i < |brought| ==> AtMost(brought[i].transcript, cursor.transcript))
      && (cursor.transcript.None? || exists i :: 0 <= i < |brought| && cursor.transcript == brought[i].transcript)
  {
    CursorIsMerge(commands, sessionId);
    SequenceStartsAnewWithTheEpoch(Unset, Brought(commands, sessionId));
    TranscriptNeverGoesBack(Unset, Brought(commands, sessionId));
  }

  /**
    While the commands name one epoch for a session, its cursor is the least one above all they
    brought for it; commands for other sessions do not matter.
  */
  lemma CursorIsLeastAboveAllBrought(epoch: string, commands: seq<Command>, sessionId: string)
    requires forall i :: 0 <= i < |commands| && Brings(commands[i], sessionId) ==>
      Compatible(commands[i].cursor.value, Cursor(None, Some(epoch), None))
    ensures var cursor := Entry(CursorsAfterAll(commands), sessionId);
      && (forall i :: 0 <= i < |commands| && Brings(commands[i], sessionId) ==> Below(commands[i].cursor.value, cursor))
      && (forall c ::
            (forall i :: 0 <= i < |commands| && Brings(commands[i], sessionId) ==>
              Below(commands[i].cursor.value, c)) ==>
            Below(cursor, c))
  {
    var brought := Brought(commands, sessionId);
    CursorIsMerge(commands, sessionId);
    assert forall i :: 0 <= i < |brought| ==> brought[i] in brought;
    MergeAllIsLeastUpperBound(epoch, Unset, brought);
    forall i | 0 <= i < |commands| && Brings(commands[i], sessionId)
      ensures Below(commands[i].cursor.value, MergeAll(Unset, brought))
    {
      assert commands[i].cursor.value in brought;
    }
    forall c | forall i :: 0 <= i < |commands| && Brings(commands[i], sessionId) ==> Below(commands[i].cursor.value, c)
      ensures Below(MergeAll(Unset, brought), c)
    {
      assert forall i :: 0 <= i < |brought| ==> Below(brought[i], c);
    }
  }

  function AfterCommand(subscriptions: map<string, set<string>>, command: Command): map<string, set<string>> {
    match command
    case Subscribe(channelId, sessionId, _) =>
      var channels := if sessionId in subscriptions then subscriptions[sessionId] else {};
      subscriptions[sessionId := channels + {channelId}]
    case Unsubscribe(channelId) =>
      map id | id in subscriptions && subscriptions[id] != {channelId} && subscriptions[id] != {}
        :: subscriptions[id] - {channelId}
  }

  function AfterCommands(commands: seq<Command>): map<string, set<string>> {
    if commands == [] then map[]
    else AfterCommand(AfterCommands(commands[..|commands| - 1]), commands[|commands| - 1])
  }

  predicate Subscribed(subscriptions: map<string, set<string>>, sessionId: string, channelId: string) {
    sessionId in subscriptions && channelId in subscriptions[sessionId]
  }

  /** Command `i` subscribes the pair and the channel is not unsubscribed afterwards. */
  predicate LastingAt(commands: seq<Command>, sessionId: string, channelId: string, i: nat) {
    && i < |commands|
    && commands[i].Subscribe? && commands[i].channelId == channelId && commands[i].sessionId == sessionId
    && forall j :: i < j < |commands| ==> commands[j] != Unsubscribe(channelId)
  }

  /**
    A pair is subscribed exactly when it asked after its channel last left, and no session is kept
    without a channel.
  */
  lemma {:induction false} SubscribedMeansAskedSince(commands: seq<Command>, sessionId: string, channelId: string)
    ensures Subscribed(AfterCommands(commands), sessionId, channelId) <==>
      exists i: nat :: LastingAt(commands, sessionId, channelId, i)
    ensures sessionId in AfterCommands(commands) ==> AfterCommands(commands)[sessionId] != {}
    decreases |commands|
  {
    if commands != [] {
      var n := |commands| - 1;
      var front, last := commands[..n], commands[n];
      SubscribedMeansAskedSince(front, sessionId, channelId);
      if Subscribed(AfterCommands(commands), sessionId, channelId) {
        if last.Subscribe? && last.channelId == channelId && last.sessionId == sessionId {
          assert LastingAt(commands, sessionId, channelId, n);
        } else {
          var i: nat :| LastingAt(front, sessionId, channelId, i);
          assert LastingAt(commands, sessionId, channelId, i);
        }
      }
      if i: nat :| LastingAt(commands, sessionId, channelId, i) {
        assert commands[n] != Unsubscribe(channelId);
        if i < n { assert LastingAt(front, sessionId, channelId, i); }
      }
    }
  }
}
