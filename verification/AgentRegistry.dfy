/**
  Which agent connection serves a host (`replaceAgent`, the agent close handler, heartbeats and
  `revokeHost` in `apps/control-plane/src/relay.ts`).
*/
module AgentRegistry {
  import opened Wrappers

  datatype LoginState = Authenticated | Unauthenticated | Unknown
  datatype HostState = Online | Degraded | Offline | Unsupported

  /** A connection that has authenticated; it keeps the login state it last reported. */
  datatype Connection = Connection(hostId: string, loginState: LoginState)

  /** `stored` and `revoked` are in the database; revocation is for good. */
  datatype Registry = Registry(
    connections: map<nat, Connection>,
    agents: map<string, nat>,
    loginStates: map<string, LoginState>,
    stored: map<string, HostState>,
    revoked: set<string>)

  /** Database updates of a host's state skip revoked hosts. */
  function Store(r: Registry, hostId: string, state: HostState): map<string, HostState> {
    if hostId in r.revoked then r.stored else r.stored[hostId := state]
  }

  datatype Event =
    | Hello(socket: nat, hostId: string, loginState: LoginState, compatible: bool)
    | Heartbeat(socket: nat, state: HostState, loginState: LoginState)
    | Closed(socket: nat)
    | Revoked(hostId: string)

  /** A socket authenticates at most once, for a host that is not revoked, and reports only afterwards. */
  function After(r: Registry, event: Event): Registry {
    match event
    case Hello(socket, hostId, loginState, compatible) =>
      if socket in r.connections || hostId in r.revoked then r
      else r.(
        connections := r.connections[socket := Connection(hostId, loginState)],
        agents := r.agents[hostId := socket],
        loginStates := r.loginStates[hostId := loginState],
        stored := Store(r, hostId, if compatible then Online else Unsupported))
    case Heartbeat(socket, state, loginState) =>
      if socket !in r.connections then r
      else
        var hostId := r.connections[socket].hostId;
        r.(
          connections := r.connections[socket := r.connections[socket].(loginState := loginState)],
          loginStates := r.loginStates[hostId := loginState],
          stored := Store(r, hostId,
            if hostId in r.stored && r.stored[hostId] == Unsupported then Unsupported else state))
    case Closed(socket) =>
      if !Serving(r, socket) then r
      else
        var hostId := r.connections[socket].hostId;
        r.(agents := r.agents - {hostId}, loginStates := r.loginStates - {hostId}, stored := Store(r, hostId, Offline))
    case Revoked(hostId) =>
      r.(
        agents := r.agents - {hostId},
        loginStates := r.loginStates - {hostId},
        stored := Store(r, hostId, Offline),
        revoked := r.revoked + {hostId})
  }

  /** The socket is the one registered for its host. */
  predicate Serving(r: Registry, socket: nat) {
    && socket in r.connections
    && r.connections[socket].hostId in r.agents
    && r.agents[r.connections[socket].hostId] == socket
  }

  const Nobody := Registry(map[], map[], map[], map[], {})

  function Run(events: seq<Event>): Registry {
    if events == [] then Nobody else After(Run(events[..|events| - 1]), events[|events| - 1])
  }

  class RelayService {
    var connections: map<nat, Connection>
    var agents: map<string, nat>
    var loginStates: map<string, LoginState>
    var stored: map<string, HostState>
    var revoked: set<string>

    function View(): Registry
      reads this
    {
      Registry(connections, agents, loginStates, stored, revoked)
    }

    constructor ()
      ensures View() == Nobody
    {
      connections, agents, loginStates, stored, revoked := map[], map[], map[], map[], {};
    }

    method UpdateHostStatus(hostId: string, state: HostState)
      modifies this`stored
      ensures stored == Store(old(View()), hostId, state)
    {
      if hostId !in revoked { stored := stored[hostId := state]; }
    }

    /** The hello of a socket that has no connection yet; a previous connection is only asked to close. */
    method OnHello(socket: nat, hostId: string, loginState: LoginState, compatible: bool) returns (toClose: Option<nat>)
      requires socket !in connections
      modifies this
      ensures View() == After(old(View()), Hello(socket, hostId, loginState, compatible))
      ensures toClose == if hostId in old(agents) && hostId !in revoked then Some(old(agents)[hostId]) else None
    {
      if hostId in revoked { return None; }
      toClose := if hostId in agents then Some(agents[hostId]) else None;
      connections := connections[socket := Connection(hostId, loginState)];
      agents := agents[hostId := socket];
      loginStates := loginStates[hostId := loginState];
      UpdateHostStatus(hostId, if compatible then Online else Unsupported);
    }

    method OnHeartbeat(socket: nat, state: HostState, loginState: LoginState)
      requires socket in connections
      modifies this
      ensures View() == After(old(View()), Heartbeat(socket, state, loginState))
    {
      var hostId := connections[socket].hostId;
      connections := connections[socket := connections[socket].(loginState := loginState)];
      loginStates := loginStates[hostId := loginState];
      UpdateHostStatus(hostId, if hostId in stored && stored[hostId] == Unsupported then Unsupported else state);
    }

    method OnClose(socket: nat)
      modifies this
      ensures View() == After(old(View()), Closed(socket))
    {
      if socket !in connections { return; }
      var hostId := connections[socket].hostId;
      if hostId !in agents || agents[hostId] != socket { return; }
      agents := agents - {hostId};
      loginStates := loginStates - {hostId};
      UpdateHostStatus(hostId, Offline);
    }

    method RevokeHost(hostId: string)
      modifies this
      ensures View() == After(old(View()), Revoked(hostId))
    {
      UpdateHostStatus(hostId, Offline);
      revoked := revoked + {hostId};
      agents := agents - {hostId};
      loginStates := loginStates - {hostId};
    }
  }

  // ---------- who serves a host ----------

  /** Sockets authenticate once. */
  predicate HelloOnce(events: seq<Event>) {
    forall i, j :: 0 <= i < j < |events| && events[i].Hello? && events[j].Hello? ==>
      events[i].socket != events[j].socket
  }

  /** Event `i` authenticated the socket for a host never revoked, and it has neither closed nor been replaced since. */
  predicate LatestAt(events: seq<Event>, hostId: string, socket: nat, i: nat) {
    && i < |events| && events[i].Hello? && events[i].hostId == hostId && events[i].socket == socket
    && Revoked(hostId) !in events
    && forall j :: i < j < |events| ==> !(events[j].Hello? && events[j].hostId == hostId) && events[j] != Closed(socket)
  }

  lemma {:induction false} ConnectionsAreHellos(events: seq<Event>, socket: nat)
    requires HelloOnce(events)
    ensures socket in Run(events).connections ==>
      exists i :: 0 <= i < |events| && events[i].Hello? && events[i].socket == socket
    ensures forall i :: 0 <= i < |events| && events[i].Hello? && events[i].socket == socket ==>
      && (socket in Run(events).connections ==> Run(events).connections[socket].hostId == events[i].hostId)
      && (Revoked(events[i].hostId) !in events ==> socket in Run(events).connections)
    ensures forall hostId :: hostId in Run(events).revoked <==> Revoked(hostId) in events
    decreases |events|
  {
    if events != [] {
      var n := |events| - 1;
      ConnectionsAreHellos(events[..n], socket);
      assert events == events[..n] + [events[n]];
      assert forall i :: 0 <= i < n ==> events[..n][i] == events[i];
    }
  }

  /** In every run the registered agent is the latest to authenticate, if it has not closed or been revoked. */
  lemma {:induction false} RegisteredIsLatest(events: seq<Event>, hostId: string, socket: nat)
    requires HelloOnce(events)
    ensures hostId in Run(events).agents && Run(events).agents[hostId] == socket
      <==> exists i: nat :: LatestAt(events, hostId, socket, i)
    decreases |events|
  {
    if events != [] {
      var n := |events| - 1;
      var front, last := events[..n], events[n];
      assert events == front + [last];
      RegisteredIsLatest(front, hostId, socket);
      ConnectionsAreHellos(front, socket);
      if last.Hello? { NewSocket(events); }
      if hostId in Run(events).agents && Run(events).agents[hostId] == socket {
        StaysLatest(events, hostId, socket);
      }
      if i: nat :| LatestAt(events, hostId, socket, i) {
        if i < n { assert LatestAt(front, hostId, socket, i); }
      }
    }
  }

  lemma StaysLatest(events: seq<Event>, hostId: string, socket: nat)
    requires HelloOnce(events) && events != []
    requires hostId in Run(events).agents && Run(events).agents[hostId] == socket
    requires var front := events[..|events| - 1];
      hostId in Run(front).agents && Run(front).agents[hostId] == socket ==>
        exists i: nat :: LatestAt(front, hostId, socket, i)
    ensures exists i: nat :: LatestAt(events, hostId, socket, i)
  {
    var n := |events| - 1;
    var front, last := events[..n], events[n];
    assert events == front + [last];
    ConnectionsAreHellos(front, socket);
    if last.Hello? && last.hostId == hostId {
      NewSocket(events);
      assert hostId !in Run(front).revoked ==> last.socket == socket;
      if last.socket == socket && Revoked(hostId) !in events { assert LatestAt(events, hostId, socket, n); }
    }
    if hostId in Run(front).agents && Run(front).agents[hostId] == socket {
      var i: nat :| LatestAt(front, hostId, socket, i);
      if !(last.Hello? && last.hostId == hostId) { assert LatestAt(events, hostId, socket, i); }
    }
  }

  lemma NewSocket(events: seq<Event>)
    requires HelloOnce(events) && events != [] && events[|events| - 1].Hello?
    ensures events[|events| - 1].socket !in Run(events[..|events| - 1]).connections
  {
    var n := |events| - 1;
    assert HelloOnce(events[..n]);
    ConnectionsAreHellos(events[..n], events[n].socket);
    assert forall i :: 0 <= i < n ==> events[..n][i] == events[i];
  }

  /** Closing a connection that a later one replaced changes nothing. */
  lemma ReplacedCloseChangesNothing(events: seq<Event>, hostId: string, socket: nat, i: nat, j: nat)
    requires HelloOnce(events) && i < j < |events| && events[i].Hello? && events[j].Hello?
    requires events[i].socket == socket && events[i].hostId == events[j].hostId == hostId
    ensures After(Run(events), Closed(socket)) == Run(events)
  {
    RegisteredIsLatest(events, hostId, socket);
    ConnectionsAreHellos(events, socket);
  }

  // ---------- the stored host state ----------

  /** What an event stores for a host; None if it stores nothing. Nothing is stored for a revoked host. */
  function Stores(r: Registry, event: Event, hostId: string): Option<HostState> {
    if hostId in r.revoked then None
    else match event
      case Hello(socket, host, _, compatible) =>
        if socket in r.connections || host != hostId then None
        else if compatible then Some(Online)
        else Some(Unsupported)
      case Heartbeat(socket, state, _) =>
        if socket !in r.connections || r.connections[socket].hostId != hostId then None
        else if hostId in r.stored && r.stored[hostId] == Unsupported then Some(Unsupported)
        else Some(state)
      case Closed(socket) => if hostId in r.agents && r.agents[hostId] == socket then Some(Offline) else None
      case Revoked(host) => if host == hostId then Some(Offline) else None
  }

  lemma EventStores(r: Registry, event: Event, hostId: string)
    requires AgentsAreConnected(r)
    ensures var after, stored := After(r, event).stored, Stores(r, event, hostId);
      && (stored.Some? ==> hostId in after && after[hostId] == stored.value)
      && (stored.None? ==> (hostId in after <==> hostId in r.stored))
      && (stored.None? && hostId in r.stored ==> after[hostId] == r.stored[hostId])
  {
  }

  /** Whoever serves a host has a connection for it. */
  predicate AgentsAreConnected(r: Registry) {
    forall host :: host in r.agents ==>
      r.agents[host] in r.connections && r.connections[r.agents[host]].hostId == host
  }

  lemma EventKeepsAgentsConnected(r: Registry, event: Event)
    requires AgentsAreConnected(r)
    ensures AgentsAreConnected(After(r, event))
  {
  }

  lemma {:induction false} AgentsStayConnected(events: seq<Event>)
    ensures AgentsAreConnected(Run(events))
    decreases |events|
  {
    if events != [] {
      AgentsStayConnected(events[..|events| - 1]);
      EventKeepsAgentsConnected(Run(events[..|events| - 1]), events[|events| - 1]);
    }
  }

  /** The latest state that the events stored for a host. */
  function LastStored(events: seq<Event>, hostId: string): Option<HostState> {
    if events == [] then None
    else
      var n := |events| - 1;
      var stored := Stores(Run(events[..n]), events[n], hostId);
      if stored.Some? then stored else LastStored(events[..n], hostId)
  }

  lemma {:induction false} StoredIsLast(events: seq<Event>, hostId: string)
    ensures var stored := Run(events).stored;
      LastStored(events, hostId) == if hostId in stored then Some(stored[hostId]) else None
    decreases |events|
  {
    if events != [] {
      var n := |events| - 1;
      StoredIsLast(events[..n], hostId);
      AgentsStayConnected(events[..n]);
      EventStores(Run(events[..n]), events[n], hostId);
    }
  }

  /** Once revoked a host is stored as offline for good. */
  lemma {:induction false} RevokedStaysOffline(events: seq<Event>, hostId: string)
    ensures hostId in Run(events).revoked <==> Revoked(hostId) in events
    ensures Revoked(hostId) in events ==> hostId in Run(events).stored && Run(events).stored[hostId] == Offline
    ensures Revoked(hostId) in events ==> hostId !in Run(events).agents
    decreases |events|
  {
    if events != [] {
      var n := |events| - 1;
      RevokedStaysOffline(events[..n], hostId);
      AgentsStayConnected(events[..n]);
      EventStores(Run(events[..n]), events[n], hostId);
      assert events == events[..n] + [events[n]];
    }
  }

  /** An agent of the wrong version stays unsupported whatever it reports, until it leaves or another one comes. */
  lemma HeartbeatsDoNotSupport(r: Registry, event: Event, hostId: string)
    requires hostId in r.stored && r.stored[hostId] == Unsupported && event.Heartbeat?
    ensures hostId in After(r, event).stored && After(r, event).stored[hostId] == Unsupported
  {
  }

  // ---------- whose login state is shown ----------

  /** The login state shown for a host is the one its registered connection last reported. */
  predicate ShowsServing(r: Registry) {
    && r.loginStates.Keys == r.agents.Keys
    && forall hostId :: hostId in r.agents ==>
      r.agents[hostId] in r.connections
      && r.connections[r.agents[hostId]] == Connection(hostId, r.loginStates[hostId])
  }

  /**
    Every event keeps this but one: a heartbeat of a connection that no longer serves its host breaks
    it, unless it happens to report what the serving connection reported.
  */
  lemma OnlyStaleHeartbeatsLeak(r: Registry, event: Event)
    requires ShowsServing(r)
    ensures ShowsServing(After(r, event)) <==>
      (event.Heartbeat? && event.socket in r.connections && !Serving(r, event.socket) ==>
        var hostId := r.connections[event.socket].hostId;
        hostId in r.loginStates && r.loginStates[hostId] == event.loginState)
  {
  }

  /** It happens: a replaced connection that has not finished closing overwrites its successor's state. */
  lemma StaleHeartbeatExample()
    ensures var r := Run([
        Hello(1, "host", Authenticated, true),
        Hello(2, "host", Authenticated, true),
        Heartbeat(1, Degraded, Unknown)]);
      r.agents == map["host" := 2] && r.loginStates == map["host" := Unknown]
  {
    var events := [
      Hello(1, "host", Authenticated, true),
      Hello(2, "host", Authenticated, true),
      Heartbeat(1, Degraded, Unknown)];
    assert events[..2][..1] == events[..1] && events[..1][..0] == [];
    assert Run(events[..1]) == After(Nobody, events[0]);
    assert Run(events[..2]) == After(Run(events[..1]), events[1]);
  }
}
