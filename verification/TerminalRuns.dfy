/**
  Terminals of one agent (`crates/agent/src/terminal.rs`, Unix sessions) on values: what each request
  to open, attach, detach, resume, close and reap does to the table, and what every run keeps.
  Processes are left out; instants are seconds of a clock that does not run backwards, and resume
  tokens are compared directly in place of their hashes.
*/
module TerminalRuns {
  import opened Wrappers
  import opened Scrollback

  const IDLE_LIMIT := 15 * 60
  const LIFETIME_LIMIT := 60 * 60
  const DETACHED_LIMIT := 2 * 60

  datatype Session = Session(
    id: string,
    channelId: Option<string>,
    resumeToken: string,
    detachedAt: Option<int>,
    scrollback: seq<Byte>,
    elevated: bool,
    openedAt: int,
    lastActivity: int)

  type Table = map<string, Session>

  datatype Request =
    | Open(channelId: string, columns: Option<nat>, rows: Option<nat>, elevated: bool,
        terminalId: string, token: string, spawned: bool)
    | Resume(channelId: string, terminalId: string, token: string)
    | Touch(channelId: string)
    | Close(channelId: string)
    | Disconnect(channelId: string)
    | DisconnectAll
    | Output(terminalId: string, text: seq<Scalar>)
    | Finish(terminalId: string)
    | Reap

  datatype Event = At(time: int, request: Request)

  predicate Expired(session: Session, now: int) {
    if session.elevated then now - session.lastActivity >= IDLE_LIMIT || now - session.openedAt >= LIFETIME_LIMIT
    else session.detachedAt.Some? && now - session.detachedAt.value >= DETACHED_LIMIT
  }

  predicate Owns(session: Session, channelId: string) {
    session.channelId == Some(channelId)
  }

  predicate Taken(sessions: Table, channelId: string) {
    exists id :: id in sessions && Owns(sessions[id], channelId)
  }

  /** `dimension`: missing values have a default, the rest must be supported. */
  predicate DimensionOk(value: Option<nat>) {
    value.Some? ==> 2 <= value.value <= 500
  }

  predicate Resumable(session: Session, token: string) {
    !session.elevated && session.resumeToken == token && session.channelId.None?
  }

  predicate OwnedBy(session: Session, channels: set<string>) {
    session.channelId.Some? && session.channelId.value in channels
  }

  function Channels(sessions: Table): set<string> {
    set id | id in sessions && sessions[id].channelId.Some? :: sessions[id].channelId.value
  }

  /** The table once `channels` have gone: elevated terminals die with theirs, others are detached. */
  function WithoutChannels(sessions: Table, channels: set<string>, now: int): Table {
    map id | id in sessions && !(OwnedBy(sessions[id], channels) && sessions[id].elevated) ::
      if OwnedBy(sessions[id], channels) then sessions[id].(channelId := None, detachedAt := Some(now))
        else sessions[id]
  }

  /** The table after a request; refused requests leave it alone. */
  function After(sessions: Table, event: Event): Table {
    var now := event.time;
    match event.request
    case Open(channelId, columns, rows, elevated, id, token, spawned) =>
      if !Taken(sessions, channelId) && DimensionOk(columns) && DimensionOk(rows) && spawned
      then sessions[id := Session(id, Some(channelId), token, None, [], elevated, now, now)]
      else sessions
    case Resume(channelId, id, token) =>
      if !Taken(sessions, channelId) && id in sessions && Resumable(sessions[id], token)
      then sessions[id := sessions[id].(channelId := Some(channelId), detachedAt := None, lastActivity := now)]
      else sessions
    case Touch(channelId) =>
      map id | id in sessions ::
        if Owns(sessions[id], channelId) then sessions[id].(lastActivity := now) else sessions[id]
    case Close(channelId) => map id | id in sessions && !Owns(sessions[id], channelId) :: sessions[id]
    case Disconnect(channelId) => WithoutChannels(sessions, {channelId}, now)
    case DisconnectAll => WithoutChannels(sessions, Channels(sessions), now)
    case Output(id, text) =>
      if id in sessions
      then sessions[id := sessions[id].(scrollback := Trim(sessions[id].scrollback + EncodeAll(text)))]
      else sessions
    case Finish(id) => sessions - {id}
    case Reap => map id | id in sessions && !Expired(sessions[id], now) :: sessions[id]
  }

  function Run(history: seq<Event>): Table {
    if history == [] then map[] else After(Run(history[..|history| - 1]), history[|history| - 1])
  }

  /** The clock does not run backwards and terminal ids, which are random UUIDs, are new. */
  predicate Legal(history: seq<Event>, start: int) {
    && (forall i :: 0 <= i < |history| ==> start <= history[i].time)
    && (forall i, j :: 0 <= i < j < |history| ==> history[i].time <= history[j].time)
    && (forall i, j :: 0 <= i < j < |history| && history[i].request.Open? && history[j].request.Open? ==>
          history[i].request.terminalId != history[j].request.terminalId)
  }

  // ---------- what a history says of a terminal ----------

  datatype Opening = Opening(time: int, channelId: string, token: string, elevated: bool)

  predicate Opens(event: Event, id: string) {
    event.request.Open? && event.request.terminalId == id
  }

  /** The request that opened the terminal. */
  function OpeningOf(history: seq<Event>, id: string): Option<Opening> {
    if history == [] then None
    else
      var last := history[|history| - 1];
      if Opens(last, id) then
        Some(Opening(last.time, last.request.channelId, last.request.token, last.request.elevated))
      else OpeningOf(history[..|history| - 1], id)
  }

  function PrintedAfter(printed: seq<Scalar>, event: Event, id: string): seq<Scalar> {
    if Opens(event, id) then []
    else if event.request.Output? && event.request.terminalId == id then printed + event.request.text
    else printed
  }

  /** Everything the terminal printed. */
  function Printed(history: seq<Event>, id: string): seq<Scalar> {
    if history == [] then []
    else PrintedAfter(Printed(history[..|history| - 1], id), history[|history| - 1], id)
  }

  /** When the table was last reaped, or else created. */
  function LastReap(history: seq<Event>, start: int): int {
    if history == [] then start
    else if history[|history| - 1].request.Reap? then history[|history| - 1].time
    else LastReap(history[..|history| - 1], start)
  }

  predicate SessionOk(session: Session, id: string, opening: Opening, printed: seq<Scalar>, lastReap: int) {
    && session.id == id
    && (session.detachedAt.Some? <==> session.channelId.None?)
    && session.scrollback == EncodeAll(Tail(printed))
    && !Expired(session, lastReap)
    && session.openedAt == opening.time
    && session.elevated == opening.elevated
    && session.resumeToken == opening.token
    && (session.elevated ==> Owns(session, opening.channelId))
  }

  /** No channel owns two terminals. */
  predicate OnePerChannel(sessions: Table) {
    forall a, b :: a in sessions && b in sessions && a != b && sessions[a].channelId.Some? ==>
      sessions[a].channelId != sessions[b].channelId
  }

  predicate TableOk(sessions: Table, history: seq<Event>, start: int) {
    && OnePerChannel(sessions)
    && forall id :: id in sessions ==>
      && OpeningOf(history, id).Some?
      && SessionOk(sessions[id], id, OpeningOf(history, id).value, Printed(history, id), LastReap(history, start))
  }

  lemma {:induction false} Prefix(history: seq<Event>, start: int)
    requires Legal(history, start) && history != []
    ensures Legal(history[..|history| - 1], start)
    ensures LastReap(history[..|history| - 1], start) <= history[|history| - 1].time
  {
    var front := history[..|history| - 1];
    assert forall i :: 0 <= i < |front| ==> front[i] == history[i];
    if front != [] {
      Prefix(front, start);
      assert front[|front| - 1].time <= history[|history| - 1].time;
    }
  }

  lemma {:induction false} OpenedAt(history: seq<Event>, id: string) returns (k: nat)
    requires OpeningOf(history, id).Some?
    ensures k < |history| && Opens(history[k], id)
  {
    if Opens(history[|history| - 1], id) {
      k := |history| - 1;
    } else {
      k := OpenedAt(history[..|history| - 1], id);
    }
  }

  lemma NotReopened(history: seq<Event>, start: int, id: string)
    requires Legal(history, start) && history != [] && OpeningOf(history[..|history| - 1], id).Some?
    ensures !Opens(history[|history| - 1], id)
  {
    var k := OpenedAt(history[..|history| - 1], id);
    assert history[..|history| - 1][k] == history[k];
  }

  lemma SessionKept(sessions: Table, event: Event, id: string, opening: Opening, printed: seq<Scalar>, lastReap: int)
    requires id in sessions && SessionOk(sessions[id], id, opening, printed, lastReap)
    requires lastReap <= event.time && !Opens(event, id) && id in After(sessions, event)
    ensures SessionOk(After(sessions, event)[id], id, opening, PrintedAfter(printed, event, id),
      if event.request.Reap? then event.time else lastReap)
  {
    if event.request.Output? && event.request.terminalId == id {
      AppendKeepsTail(printed, event.request.text);
    }
  }

  lemma OnePerChannelKept(sessions: Table, event: Event)
    requires OnePerChannel(sessions)
    ensures OnePerChannel(After(sessions, event))
  {
  }

  /** What every run keeps. */
  lemma {:induction false} RunKeepsTable(history: seq<Event>, start: int)
    requires Legal(history, start)
    ensures TableOk(Run(history), history, start)
    decreases |history|
  {
    if history != [] {
      var n := |history| - 1;
      var front, last := history[..n], history[n];
      Prefix(history, start);
      RunKeepsTable(front, start);
      OnePerChannelKept(Run(front), last);
      forall id | id in Run(history)
        ensures OpeningOf(history, id).Some?
        ensures SessionOk(Run(history)[id], id, OpeningOf(history, id).value, Printed(history, id),
          LastReap(history, start))
      {
        StepKeepsSession(history, start, id);
      }
    }
  }

  lemma StepKeepsSession(history: seq<Event>, start: int, id: string)
    requires Legal(history, start) && history != [] && id in Run(history)
    requires var front := history[..|history| - 1]; TableOk(Run(front), front, start)
    ensures OpeningOf(history, id).Some?
    ensures SessionOk(Run(history)[id], id, OpeningOf(history, id).value, Printed(history, id),
      LastReap(history, start))
  {
    var n := |history| - 1;
    var front, last := history[..n], history[n];
    Prefix(history, start);
    if id in Run(front) {
      NotReopened(history, start, id);
      SessionKept(Run(front), last, id, OpeningOf(front, id).value, Printed(front, id), LastReap(front, start));
    }
  }

  // ---------- one request, one terminal ----------

  /** The request is about the terminal: by its id, by the channel it is on, or by its age. */
  predicate Concerns(sessions: Table, event: Event, id: string) {
    match event.request
    case Open(_, _, _, _, terminalId, _, _) => terminalId == id
    case Resume(_, terminalId, _) => terminalId == id
    case Touch(channelId) => id in sessions && Owns(sessions[id], channelId)
    case Close(channelId) => id in sessions && Owns(sessions[id], channelId)
    case Disconnect(channelId) => id in sessions && Owns(sessions[id], channelId)
    case DisconnectAll => id in sessions && sessions[id].channelId.Some?
    case Output(terminalId, _) => terminalId == id
    case Finish(terminalId) => terminalId == id
    case Reap => id in sessions && Expired(sessions[id], event.time)
  }

  /** Other terminals cannot tell that there was a request. */
  lemma OthersAreUntouched(sessions: Table, event: Event, id: string)
    requires !Concerns(sessions, event, id)
    ensures id in After(sessions, event) <==> id in sessions
    ensures id in sessions ==> After(sessions, event)[id] == sessions[id]
  {
  }

  /** What becomes of a terminal that is there. */
  lemma ConcernedTerminal(sessions: Table, event: Event, id: string)
    requires id in sessions && Concerns(sessions, event, id)
    ensures var after, session := After(sessions, event), sessions[id];
      match event.request
      case Touch(_) => id in after && after[id] == session.(lastActivity := event.time)
      case Output(_, text) =>
        id in after && after[id] == session.(scrollback := Trim(session.scrollback + EncodeAll(text)))
      case Close(_) => id !in after
      case Finish(_) => id !in after
      case Reap => id !in after
      case Disconnect(_) => LeftAlone(session, event.time, after, id)
      case DisconnectAll => LeftAlone(session, event.time, after, id)
      case _ => true
  {
  }

  /** Without its channel an elevated terminal is gone and an ordinary one detached. */
  predicate LeftAlone(session: Session, time: int, after: Table, id: string) {
    if session.elevated then id !in after
    else id in after && after[id] == session.(channelId := None, detachedAt := Some(time))
  }

  /**
    A terminal opens on its channel, with an empty scrollback, if the channel is free, the size is
    right and the shell starts.
  */
  lemma OpeningOne(sessions: Table, event: Event)
    requires event.request.Open?
    ensures var Open(channelId, columns, rows, elevated, id, token, spawned) := event.request;
      var after := After(sessions, event);
      if spawned && (forall other :: other in sessions ==> !Owns(sessions[other], channelId))
        && (columns.Some? ==> 2 <= columns.value <= 500) && (rows.Some? ==> 2 <= rows.value <= 500)
      then
        && id in after && Owns(after[id], channelId) && after[id].id == id && after[id].resumeToken == token
        && after[id].detachedAt.None? && after[id].scrollback == [] && after[id].elevated == elevated
        && after[id].openedAt == after[id].lastActivity == event.time
      else after == sessions
  {
  }

  // ---------- channels going away ----------

  lemma NobodyDisconnected(sessions: Table, channelId: string, now: int)
    requires !Taken(sessions, channelId)
    ensures WithoutChannels(sessions, {channelId}, now) == sessions
  {
    assert forall id :: id in sessions ==> !Owns(sessions[id], channelId);
  }

  lemma OneDisconnected(sessions: Table, id: string, channelId: string, now: int)
    requires OnePerChannel(sessions) && id in sessions && Owns(sessions[id], channelId)
    ensures WithoutChannels(sessions, {channelId}, now) ==
      if sessions[id].elevated then sessions - {id}
      else sessions[id := sessions[id].(channelId := None, detachedAt := Some(now))]
  {
    assert forall other :: other in sessions && other != id ==> !OwnedBy(sessions[other], {channelId});
  }

  lemma NoChannelsGone(sessions: Table, now: int)
    ensures WithoutChannels(sessions, {}, now) == sessions
  {
  }

  /** Channels may go one by one. */
  lemma OneMoreChannel(sessions: Table, channels: set<string>, channelId: string, now: int)
    ensures WithoutChannels(WithoutChannels(sessions, channels, now), {channelId}, now)
      == WithoutChannels(sessions, channels + {channelId}, now)
  {
  }

  /** After all channels are disconnected nothing is attached, and exactly the ordinary terminals are left. */
  lemma NoElevatedTerminalSurvives(history: seq<Event>, now: int, start: int)
    requires Legal(history + [At(now, DisconnectAll)], start)
    ensures var left := Run(history + [At(now, DisconnectAll)]);
      && (forall id :: id in left <==>
            id in Run(history) && OpeningOf(history, id).Some? && !OpeningOf(history, id).value.elevated)
      && (forall id :: id in left ==> left[id].channelId.None?)
      && (forall id :: id in left ==>
            left[id].detachedAt ==
              (if Run(history)[id].channelId.None? then Run(history)[id].detachedAt else Some(now)))
  {
    var longer := history + [At(now, DisconnectAll)];
    Prefix(longer, start);
    assert longer[..|history|] == history;
    RunKeepsTable(history, start);
  }

  // ---------- lifetimes ----------

  /** Reaps are at most `gap` apart: whenever something happens, the last one is no further back. */
  predicate ReapsInTime(history: seq<Event>, start: int, gap: nat) {
    forall k :: 0 <= k < |history| ==> history[k].time <= LastReap(history[..k], start) + gap
  }

  /**
    Whenever something happens, no elevated terminal has been open or idle, and no ordinary one
    detached, for longer than its limit and `gap`.
  */
  lemma NothingOutlivesItsLimit(history: seq<Event>, start: int, gap: nat, k: nat, id: string)
    requires Legal(history, start) && ReapsInTime(history, start, gap)
    requires k < |history| && id in Run(history[..k])
    ensures OpeningOf(history[..k], id).Some?
    ensures var session, opening, now := Run(history[..k])[id], OpeningOf(history[..k], id).value, history[k].time;
      if opening.elevated
      then now - opening.time < LIFETIME_LIMIT + gap && now - session.lastActivity < IDLE_LIMIT + gap
      else session.detachedAt.Some? ==> now - session.detachedAt.value < DETACHED_LIMIT + gap
  {
    var front := history[..k];
    assert forall i :: 0 <= i < k ==> front[i] == history[i];
    RunKeepsTable(front, start);
  }

  /** When the channel was last active on its terminal. */
  function LastActive(events: seq<Event>, channelId: string, openedAt: int): int {
    if events == [] then openedAt
    else
      var last := events[|events| - 1];
      if last.request == Touch(channelId) then last.time
      else LastActive(events[..|events| - 1], channelId, openedAt)
  }

  /** The channel or the process goes, or a reap finds the terminal idle for 15 minutes or open for 60. */
  predicate EndsElevated(event: Event, id: string, channelId: string, openedAt: int, lastActive: int) {
    match event.request
    case Finish(terminalId) => terminalId == id
    case Close(closing) => closing == channelId
    case Disconnect(gone) => gone == channelId
    case DisconnectAll => true
    case Reap => event.time - openedAt >= 60 * 60 || event.time - lastActive >= 15 * 60
    case _ => false
  }

  predicate EndedElevated(events: seq<Event>, id: string, channelId: string, openedAt: int) {
    exists i :: 0 <= i < |events| &&
      EndsElevated(events[i], id, channelId, openedAt, LastActive(events[..i], channelId, openedAt))
  }

  lemma ElevatedStep(sessions: Table, event: Event, id: string, channelId: string)
    requires id in sessions && sessions[id].elevated && Owns(sessions[id], channelId) && !Opens(event, id)
    ensures var session := sessions[id];
      id in After(sessions, event) <==> !EndsElevated(event, id, channelId, session.openedAt, session.lastActivity)
    ensures id in After(sessions, event) ==>
      After(sessions, event)[id] == sessions[id].(
        scrollback := After(sessions, event)[id].scrollback,
        lastActivity := if event.request == Touch(channelId) then event.time else sessions[id].lastActivity)
  {
  }

  lemma EndedOneMore(events: seq<Event>, id: string, channelId: string, openedAt: int)
    requires events != []
    ensures var n := |events| - 1;
      EndedElevated(events, id, channelId, openedAt) <==>
        EndedElevated(events[..n], id, channelId, openedAt)
        || EndsElevated(events[n], id, channelId, openedAt, LastActive(events[..n], channelId, openedAt))
  {
    var n := |events| - 1;
    forall i | 0 <= i < n ensures events[..n][..i] == events[..i] && events[..n][i] == events[i] {}
  }

  /** What has become of a terminal that was `session` before the events. */
  predicate Fate(session: Session, events: seq<Event>, id: string, sessions: Table)
    requires session.channelId.Some?
  {
    var channelId, openedAt := session.channelId.value, session.openedAt;
    && (id in sessions <==> !EndedElevated(events, id, channelId, openedAt))
    && (id in sessions ==>
          sessions[id] == session.(
            scrollback := sessions[id].scrollback,
            lastActivity := LastActive(events, channelId, openedAt)))
  }

  lemma FateOneMore(session: Session, events: seq<Event>, id: string, before: Table)
    requires session.elevated && session.channelId.Some?
    requires events != [] && Fate(session, events[..|events| - 1], id, before)
    requires !Opens(events[|events| - 1], id)
    ensures Fate(session, events, id, After(before, events[|events| - 1]))
  {
    EndedOneMore(events, id, session.channelId.value, session.openedAt);
    if id in before {
      ElevatedStep(before, events[|events| - 1], id, session.channelId.value);
    } else {
      StaysGone(before, events[|events| - 1], id);
    }
  }

  lemma {:induction false} StaysOpened(history: seq<Event>, events: seq<Event>, id: string)
    requires OpeningOf(history, id).Some?
    ensures OpeningOf(history + events, id).Some?
    decreases |events|
  {
    if events == [] {
      assert history + events == history;
    } else {
      var n := |events| - 1;
      assert (history + events)[..|history| + n] == history + events[..n];
      StaysOpened(history, events[..n], id);
    }
  }

  /** Whatever has been opened is not opened again. */
  lemma NeverReopened(history: seq<Event>, events: seq<Event>, id: string, start: int, k: nat)
    requires Legal(history + events, start) && OpeningOf(history, id).Some? && k < |events|
    ensures !Opens(events[k], id)
  {
    var i := OpenedAt(history, id);
    assert (history + events)[i] == history[i] && (history + events)[|history| + k] == events[k];
  }

  lemma RunOneMore(history: seq<Event>, events: seq<Event>)
    requires events != []
    ensures var n := |events| - 1;
      Run(history + events) == After(Run(history + events[..n]), events[n])
  {
    var n := |events| - 1;
    var all := history + events;
    var front, last := all[..|all| - 1], all[|all| - 1];
    assert front == history + events[..n];
    assert last == events[n];
    calc {
      Run(all);
      After(Run(front), last);
      After(Run(history + events[..n]), events[n]);
    }
  }

  lemma {:induction false} FateAfterAll(history: seq<Event>, events: seq<Event>, id: string)
    requires id in Run(history) && Run(history)[id].elevated && Run(history)[id].channelId.Some?
    requires Run(history)[id].lastActivity == Run(history)[id].openedAt
    requires forall k :: 0 <= k < |events| ==> !Opens(events[k], id)
    ensures Fate(Run(history)[id], events, id, Run(history + events))
    decreases |events|
  {
    var session := Run(history)[id];
    if events == [] {
      assert history + events == history;
    } else {
      var front, last := events[..|events| - 1], events[|events| - 1];
      FateAfterAll(history, front, id);
      var before := Run(history + front);
      FateOneMore(session, events, id, before);
      assert Fate(session, events, id, After(before, last));
      RunOneMore(history, events);
    }
  }

  /** An elevated terminal is there exactly until one of these happens; activity puts the idle limit off. */
  lemma ElevatedTerminalLives(history: seq<Event>, events: seq<Event>, id: string, start: int)
    requires Legal(history + events, start) && OpeningOf(history, id).Some?
    requires id in Run(history) && Run(history)[id].elevated && Run(history)[id].channelId.Some?
    requires Run(history)[id].lastActivity == Run(history)[id].openedAt
    ensures OpeningOf(history + events, id).Some?
    ensures Fate(Run(history)[id], events, id, Run(history + events))
  {
    StaysOpened(history, events, id);
    forall k | 0 <= k < |events| ensures !Opens(events[k], id) {
      NeverReopened(history, events, id, start, k);
    }
    FateAfterAll(history, events, id);
  }

  // ---------- coming back ----------

  /** Nobody presents the terminal's token. */
  predicate NotResumed(events: seq<Event>, id: string, token: string) {
    forall i :: 0 <= i < |events| && events[i].request.Resume? ==>
      events[i].request.terminalId != id || events[i].request.token != token
  }

  /** Its process exits, or a reap finds it detached for too long. */
  predicate Ends(event: Event, id: string, detachedAt: int) {
    event.request == Finish(id) || (event.request.Reap? && event.time - detachedAt >= 2 * 60)
  }

  predicate Ended(events: seq<Event>, id: string, detachedAt: int) {
    exists i :: 0 <= i < |events| && Ends(events[i], id, detachedAt)
  }

  predicate Waits(session: Session) {
    !session.elevated && session.detachedAt.Some? && session.channelId.None?
  }

  lemma WaitingStep(sessions: Table, event: Event, id: string)
    requires id in sessions && Waits(sessions[id])
    requires !Opens(event, id) && NotResumed([event], id, sessions[id].resumeToken)
    ensures id in After(sessions, event) <==> !Ends(event, id, sessions[id].detachedAt.value)
    ensures id in After(sessions, event) ==>
      After(sessions, event)[id] == sessions[id].(scrollback := After(sessions, event)[id].scrollback)
  {
    assert [event][0] == event;
  }

  lemma {:induction false} DetachedTerminalWaits(history: seq<Event>, events: seq<Event>, id: string, start: int)
    requires Legal(history + events, start) && id in Run(history) && Waits(Run(history)[id])
    requires NotResumed(events, id, Run(history)[id].resumeToken) && OpeningOf(history, id).Some?
    ensures OpeningOf(history + events, id).Some?
    ensures id in Run(history + events) <==> !Ended(events, id, Run(history)[id].detachedAt.value)
    ensures id in Run(history + events) ==>
      Run(history + events)[id] == Run(history)[id].(scrollback := Run(history + events)[id].scrollback)
    decreases |events|
  {
    var session := Run(history)[id];
    if events == [] {
      assert history + events == history;
    } else {
      var n := |events| - 1;
      var front, last := events[..n], events[n];
      var all := history + events;
      assert all[..|all| - 1] == history + front && all[|all| - 1] == last && events == front + [last];
      Prefix(all, start);
      DetachedTerminalWaits(history, front, id, start);
      NotReopened(all, start, id);
      if id in Run(history + front) {
        WaitingStep(Run(history + front), last, id);
        assert Ended(events, id, session.detachedAt.value) ==> Ends(last, id, session.detachedAt.value);
      } else {
        StaysGone(Run(history + front), last, id);
        EndedEarlier(front, last, id, session.detachedAt.value);
      }
    }
  }

  lemma StaysGone(sessions: Table, event: Event, id: string)
    requires id !in sessions && !Opens(event, id)
    ensures id !in After(sessions, event)
  {
  }

  lemma EndedEarlier(front: seq<Event>, last: Event, id: string, detachedAt: int)
    requires Ended(front, id, detachedAt)
    ensures Ended(front + [last], id, detachedAt)
  {
    var i :| 0 <= i < |front| && Ends(front[i], id, detachedAt);
    assert (front + [last])[i] == front[i];
  }

  /** One disconnection and one resume, seen from the terminal. */
  lemma DisconnectingOne(sessions: Table, time: int, channelId: string, id: string)
    requires id in sessions && Owns(sessions[id], channelId) && !sessions[id].elevated
    ensures var after := After(sessions, At(time, Disconnect(channelId)));
      id in after && after[id] == sessions[id].(channelId := None, detachedAt := Some(time))
  {
  }

  lemma ResumingOne(sessions: Table, again: Event, id: string)
    requires again.request.Resume? && again.request.terminalId == id && !Taken(sessions, again.request.channelId)
    requires id in sessions ==> Resumable(sessions[id], again.request.token)
    ensures var back := After(sessions, again);
      if id in sessions
      then id in back && back[id] == sessions[id].(
        channelId := Some(again.request.channelId), detachedAt := None, lastActivity := again.time)
      else back == sessions
  {
  }

  /**
    The channel of an ordinary terminal goes, at `time`. Whatever happens then, as long as nobody
    presents its token, a later resume on a free channel finds the terminal if and only if it has not
    ended; it is attached again, and the scrollback handed over is the longest suffix of all it printed.
  */
  lemma ReconnectRestoresTheTerminal(history: seq<Event>, time: int, channelId: string, events: seq<Event>,
    again: Event, id: string, start: int)
    requires id in Run(history) && Owns(Run(history)[id], channelId) && !Run(history)[id].elevated
    requires NotResumed(events, id, Run(history)[id].resumeToken)
    requires again.request.Resume? && again.request.terminalId == id
    requires again.request.token == Run(history)[id].resumeToken
    requires var gone := history + [At(time, Disconnect(channelId))] + events;
      Legal(gone + [again], start) && !Taken(Run(gone), again.request.channelId)
    ensures var gone := history + [At(time, Disconnect(channelId))] + events;
      var back := Run(gone + [again]);
      if Ended(events, id, time) then id !in back && back == Run(gone)
      else
        && id in back
        && Owns(back[id], again.request.channelId)
        && back[id].detachedAt.None?
        && back[id].scrollback == EncodeAll(Tail(Printed(gone, id)))
  {
    var detached := history + [At(time, Disconnect(channelId))];
    var gone := detached + events;
    var back := gone + [again];
    assert back[..|gone|] == gone && detached[..|history|] == history;
    Prefix(back, start);
    assert forall i :: 0 <= i < |detached| ==> detached[i] == gone[i];
    DisconnectingOne(Run(history), time, channelId, id);
    RunKeepsTable(detached, start);
    RunKeepsTable(gone, start);
    DetachedTerminalWaits(detached, events, id, start);
    ResumingOne(Run(gone), again, id);
  }
}
