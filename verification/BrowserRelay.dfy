/**
  The browser's end of its encrypted channels (`apps/web/src/relay.ts`): sequence counters, the
  table of open channels, and the requests waiting for a reply.
*/
module BrowserRelay {
  import opened Wrappers
  import opened Json
  import opened SecureChannel

  datatype Reason = TimedOut | Discarded | Disconnected | IntegrityError | AgentError(body: Json)
  datatype Outcome = Resolved(body: Json) | Rejected(reason: Reason)

  /** One promise of an RPC being settled. */
  datatype Settlement = Settlement(requestId: string, outcome: Outcome)

  /** A `ChannelState`; `pending` is in insertion order and `settled` records what happened to requests. */
  datatype View = View(
    hostId: string,
    channelId: string,
    channel: string,
    key: Option<Key>,
    closed: bool,
    outbound: nat,
    expectedInbound: nat,
    pending: seq<string>,
    settled: seq<Settlement>)

  datatype RpcError = ChannelGone | NoKey

  // ---------- one channel ----------

  /** `rpc` once the channel is ready: take a number, register the request, seal it. */
  function Rpc(view: View, requestId: string, operation: string, body: Json, nonce: Nonce):
    (View, Result<Frame, RpcError>)
  {
    if view.closed then (view, Err(ChannelGone))
    else if view.key.None? then (view, Err(NoKey))
    else (
      view.(outbound := view.outbound + 1, pending := view.pending + [requestId]),
      Ok(Seal(view.key.value, nonce, view.channelId, view.channel, view.outbound, Request(requestId, operation, body))))
  }

  /** The position of `requestId` among the pending requests. */
  function Find(pending: seq<string>, requestId: string): (at: Option<nat>)
    ensures at.Some? ==> at.value < |pending| && pending[at.value] == requestId
    ensures at.None? ==> requestId !in pending
  {
    if pending == [] then None
    else if pending[0] == requestId then Some(0)
    else
      var at := Find(pending[1..], requestId);
      if at.None? then None else Some(at.value + 1)
  }

  /** Settle one request if it is still pending. */
  function Settle(view: View, requestId: string, outcome: Outcome): View {
    var at := Find(view.pending, requestId);
    if at.None? then view
    else view.(
      pending := view.pending[..at.value] + view.pending[at.value + 1..],
      settled := view.settled + [Settlement(requestId, outcome)])
  }

  function AllRejected(pending: seq<string>, reason: Reason): (all: seq<Settlement>)
    ensures |all| == |pending|
    ensures forall i :: 0 <= i < |pending| ==> all[i] == Settlement(pending[i], Rejected(reason))
  {
    seq(|pending|, i requires 0 <= i < |pending| => Settlement(pending[i], Rejected(reason)))
  }

  /** `discardChannel`: only the first call does anything. */
  function Discard(view: View, reason: Reason): View {
    if view.closed then view
    else view.(closed := true, pending := [], settled := view.settled + AllRejected(view.pending, reason))
  }

  /** What an `agent.frame` does to its channel, and the event it delivers, if any. */
  function ReceiveFrame(view: View, hostId: string, frame: Frame): (View, Option<Json>) {
    if view.closed then (view, None)
    else if view.key.None? || view.hostId != hostId || frame.channel != view.channel then
      (Discard(view, IntegrityError), None)
    else if frame.sequence != view.expectedInbound then (Discard(view, IntegrityError), None)
    else
      var plain := Open(view.key.value, Aad(frame.channelId, frame.channel, frame.sequence), frame);
      if plain.None? || plain.value.Unreadable? then (Discard(view, IntegrityError), None)
      else
        var next := view.(expectedInbound := view.expectedInbound + 1);
        match plain.value
        case Reply(requestId, ok, body) =>
          (Settle(next, requestId, if ok then Resolved(body) else Rejected(AgentError(body))), None)
        case Request(requestId, _, body) => (Settle(next, requestId, Rejected(AgentError(body))), None)
        case Event(body) => (next, Some(body))
  }

  /**
    The first discard closes the channel and rejects everything pending for its reason, in order;
    others do nothing.
  */
  lemma DiscardRejectsEverything(view: View, reason: Reason)
    ensures view.closed ==> Discard(view, reason) == view
    ensures !view.closed ==>
      var after := Discard(view, reason);
      && after.closed && after.pending == []
      && view.settled <= after.settled && |after.settled| == |view.settled| + |view.pending|
      && (forall i :: 0 <= i < |view.pending| ==>
            after.settled[|view.settled| + i] == Settlement(view.pending[i], Rejected(reason)))
      && after.(closed := false, pending := view.pending, settled := view.settled) == view
  {
  }

  /** Settling takes one pending request with the id and leaves the others in order. */
  lemma SettleTakesOne(view: View, requestId: string, outcome: Outcome)
    ensures requestId !in view.pending ==> Settle(view, requestId, outcome) == view
    ensures requestId in view.pending ==>
      var after := Settle(view, requestId, outcome);
      && after.settled == view.settled + [Settlement(requestId, outcome)]
      && |after.pending| == |view.pending| - 1
      && (exists k :: 0 <= k < |view.pending| && view.pending[k] == requestId
            && after.pending == view.pending[..k] + view.pending[k + 1..])
      && after.(pending := view.pending, settled := view.settled) == view
  {
    var at := Find(view.pending, requestId);
    assert at.Some? <==> requestId in view.pending;
  }

  /** The frame is for this channel and host, is the next one, opens under the key and can be read. */
  predicate Acceptable(view: View, hostId: string, frame: Frame) {
    && view.key.Some? && view.hostId == hostId && view.channel == frame.channel
    && frame.sequence == view.expectedInbound
    && frame.ciphertext.Sealed?
    && frame.ciphertext.key == view.key.value
    && frame.ciphertext.nonce == frame.nonce
    && frame.ciphertext.aad == Aad(frame.channelId, frame.channel, frame.sequence)
    && !frame.ciphertext.plain.Unreadable?
  }

  /** An open channel takes exactly the acceptable frames; any other ends it. An event is handed on, once. */
  lemma FramesAreTakenOrFatal(view: View, hostId: string, frame: Frame)
    requires !view.closed
    ensures var (after, event) := ReceiveFrame(view, hostId, frame);
      && (!after.closed <==> Acceptable(view, hostId, frame))
      && after.expectedInbound == view.expectedInbound + (if after.closed then 0 else 1)
      && (after.closed ==> after == Discard(view, IntegrityError))
      && event == if !after.closed && frame.ciphertext.plain.Event? then Some(frame.ciphertext.plain.body) else None
  {
  }

  /** An event leaves the requests alone; a reply settles its request as the agent said, if it is still waiting. */
  lemma RepliesSettleTheirRequest(view: View, hostId: string, frame: Frame)
    requires !view.closed && Acceptable(view, hostId, frame)
    ensures var after, plain := ReceiveFrame(view, hostId, frame).0, frame.ciphertext.plain;
      var counted := view.(expectedInbound := view.expectedInbound + 1);
      && (plain.Event? || plain.requestId !in view.pending ==> after == counted)
      && (!plain.Event? && plain.requestId in view.pending ==>
            && after.settled == view.settled + [Settlement(plain.requestId,
                 if plain.Reply? && plain.ok then Resolved(plain.body) else Rejected(AgentError(plain.body)))]
            && |after.pending| == |view.pending| - 1
            && after.(pending := view.pending, settled := view.settled) == counted)
  {
    var plain := frame.ciphertext.plain;
    var counted := view.(expectedInbound := view.expectedInbound + 1);
    match plain
    case Reply(requestId, ok, body) =>
      SettleTakesOne(counted, requestId, if ok then Resolved(body) else Rejected(AgentError(body)));
    case Request(requestId, _, body) => SettleTakesOne(counted, requestId, Rejected(AgentError(body)));
    case Event(_) =>
  }

  // ---------- the table of channels ----------

  class BrowserChannel {
    const hostId: string
    const channelId: string
    const channel: string
    var key: Option<Key>
    var closed: bool
    var outbound: nat
    var expectedInbound: nat
    var pending: seq<string>
    ghost var settled: seq<Settlement>

    ghost function State(): View
      reads this
    {
      View(hostId, channelId, channel, key, closed, outbound, expectedInbound, pending, settled)
    }

    constructor (hostId: string, channelId: string, channel: string)
      ensures State() == View(hostId, channelId, channel, None, false, 0, 0, [], [])
    {
      this.hostId, this.channelId, this.channel := hostId, channelId, channel;
      key, closed, outbound, expectedInbound, pending, settled := None, false, 0, 0, [], [];
    }

    method SettleOne(requestId: string, outcome: Outcome)
      modifies this`pending, this`settled
      ensures State() == Settle(old(State()), requestId, outcome)
    {
      var at := Find(pending, requestId);
      if at.Some? {
        pending := pending[..at.value] + pending[at.value + 1..];
        settled := settled + [Settlement(requestId, outcome)];
      }
    }

    /** Everything waiting is rejected, in order. */
    method RejectAll(reason: Reason)
      modifies this`pending, this`settled
      ensures pending == [] && settled == old(settled) + AllRejected(old(pending), reason)
    {
      var i := 0;
      while i < |pending|
        invariant 0 <= i <= |pending| && pending == old(pending)
        invariant settled == old(settled) + AllRejected(pending, reason)[..i]
      {
        settled := settled + [Settlement(pending[i], Rejected(reason))];
        i := i + 1;
      }
      assert AllRejected(pending, reason)[..i] == AllRejected(pending, reason);
      pending := [];
    }
  }

  class BrowserRelay {
    /** The socket in use; a retry replaces one that may not have finished closing. */
    var socket: Option<nat>
    var channels: map<string, BrowserChannel>
    /** Every channel ever opened here. */
    ghost var known: set<BrowserChannel>

    /** A channel is in the table exactly while it is not closed, and a closed one waits for nothing. */
    ghost predicate Valid()
      reads this, known
    {
      && (forall id :: id in channels ==> channels[id] in known && channels[id].channelId == id && !channels[id].closed)
      && (forall c :: c in known ==>
        if c.closed then c.pending == []
        else c.channelId in channels && channels[c.channelId] == c)
      && (forall c, c' :: c in known && c' in known && c.channelId == c'.channelId ==> c == c')
    }

    constructor ()
      ensures Valid() && socket == None && channels == map[] && known == {}
    {
      socket, channels, known := None, map[], {};
    }

    /** `connect` made a new socket. */
    method UseSocket(connected: nat)
      requires Valid()
      modifies this`socket
      ensures Valid() && socket == Some(connected)
    {
      socket := Some(connected);
    }

    /** `openAttempt` up to the open message; a channel id is a fresh random UUID. */
    method OpenChannel(hostId: string, channelId: string, channel: string) returns (c: BrowserChannel)
      requires Valid() && forall c :: c in known ==> c.channelId != channelId
      modifies this`channels, this`known
      ensures Valid() && fresh(c) && known == old(known) + {c}
      ensures channels == old(channels)[channelId := c]
      ensures c.State() == View(hostId, channelId, channel, None, false, 0, 0, [], [])
    {
      c := new BrowserChannel(hostId, channelId, channel);
      channels := channels[channelId := c];
      known := known + {c};
    }

    /** An accepted handshake yields the key of a channel that is still open. */
    method AcceptHandshake(channelId: string, key: Key)
      requires Valid()
      modifies known
      ensures Valid()
      ensures forall c :: c in known ==>
        c.State() ==
          if channelId in channels && c == channels[channelId] then old(c.State()).(key := Some(key))
          else old(c.State())
    {
      if channelId in channels {
        var c := channels[channelId];
        c.key := Some(key);
      }
    }

    method Request(c: BrowserChannel, requestId: string, operation: string, body: Json, nonce: Nonce)
      returns (result: Result<Frame, RpcError>)
      requires Valid() && c in known
      modifies c
      ensures Valid()
      ensures (c.State(), result) == Rpc(old(c.State()), requestId, operation, body, nonce)
      ensures result.Ok? <==> !old(c.closed) && c.key.Some?
      ensures result.Err? ==> c.State() == old(c.State()) && result.error == if c.closed then ChannelGone else NoKey
      ensures result.Ok? ==>
        && c.pending == old(c.pending) + [requestId] && c.outbound == old(c.outbound) + 1
        && result.value == Seal(c.key.value, nonce, c.channelId, c.channel, old(c.outbound),
          SecureChannel.Request(requestId, operation, body))
    {
      if c.closed || c.channelId !in channels || channels[c.channelId] != c {
        return Err(ChannelGone);
      }
      if c.key.None? {
        return Err(NoKey);
      }
      var sequence := c.outbound;
      c.outbound := c.outbound + 1;
      c.pending := c.pending + [requestId];
      return Ok(Seal(c.key.value, nonce, c.channelId, c.channel, sequence,
        SecureChannel.Request(requestId, operation, body)));
    }

    /** The thirty-second timer of one request. */
    method Timeout(c: BrowserChannel, requestId: string)
      requires Valid() && c in known
      modifies c
      ensures Valid() && c.State() == Settle(old(c.State()), requestId, Rejected(TimedOut))
      ensures c.settled == old(c.settled) +
        if requestId in old(c.pending) then [Settlement(requestId, Rejected(TimedOut))] else []
    {
      c.SettleOne(requestId, Rejected(TimedOut));
    }

    method DiscardChannel(c: BrowserChannel, reason: Reason)
      requires Valid() && c in known
      modifies this`channels, c
      ensures Valid() && c.State() == Discard(old(c.State()), reason)
      ensures channels == old(channels) - {c.channelId}
    {
      if c.channelId !in channels {
        return;
      }
      channels := channels - {c.channelId};
      c.closed := true;
      c.RejectAll(reason);
    }

    /** `agent.frame`: find the channel by the frame's own id, check, open, count, deliver. */
    method OnAgentFrame(hostId: string, frame: Frame) returns (event: Option<Json>)
      requires Valid()
      modifies this`channels, known
      ensures Valid() && channels.Keys <= old(channels.Keys)
      ensures forall c :: c in known && !(frame.channelId in old(channels) && c == old(channels)[frame.channelId]) ==>
        c.State() == old(c.State())
      ensures frame.channelId !in old(channels) ==> event.None?
      ensures frame.channelId in old(channels) ==>
        var c := old(channels)[frame.channelId];
        && (c.State(), event) == ReceiveFrame(old(c.State()), hostId, frame)
        && (c.closed <==> !old(Acceptable(c.State(), hostId, frame)))
        && event == (if !c.closed && frame.ciphertext.plain.Event? then Some(frame.ciphertext.plain.body) else None)
    {
      event := None;
      if frame.channelId !in channels {
        return;
      }
      var c := channels[frame.channelId];
      if c.key.None? || c.hostId != hostId || frame.channel != c.channel || frame.sequence != c.expectedInbound {
        DiscardChannel(c, IntegrityError);
        return;
      }
      var plain := Open(c.key.value, Aad(frame.channelId, frame.channel, frame.sequence), frame);
      if plain.None? || plain.value.Unreadable? {
        DiscardChannel(c, IntegrityError);
        return;
      }
      c.expectedInbound := c.expectedInbound + 1;
      match plain.value {
        case Reply(requestId, ok, body) =>
          c.SettleOne(requestId, if ok then Resolved(body) else Rejected(AgentError(body)));
        case Request(requestId, _, body) => c.SettleOne(requestId, Rejected(AgentError(body)));
        case Event(body) => event := Some(body);
      }
    }

    /** A socket closed: if it is the one in use every channel goes, otherwise nothing happens. */
    method OnSocketClose(closing: nat)
      requires Valid()
      modifies this, known
      ensures Valid() && known == old(known)
      ensures old(socket) != Some(closing) ==>
        socket == old(socket) && channels == old(channels) && forall c :: c in known ==> c.State() == old(c.State())
      ensures old(socket) == Some(closing) ==>
        socket == None && channels == map[] && forall c :: c in known ==>
          c.State() == Discard(old(c.State()), Disconnected)
    {
      if socket != Some(closing) {
        return;
      }
      socket := None;
      var ids := channels.Keys;
      while ids != {}
        invariant socket == None && channels == old(channels) && known == old(known) && ids <= channels.Keys
        invariant forall c :: c in known ==>
          c.State() == if c.channelId in ids then old(c.State()) else Discard(old(c.State()), Disconnected)
        decreases ids
      {
        var id :| id in ids;
        var c := channels[id];
        c.closed := true;
        c.RejectAll(Disconnected);
        ids := ids - {id};
      }
      channels := map[];
    }
  }
}
