/**
  The control plane's record of one browser's channels (`apps/control-plane/src/relay.ts`): it
  cannot open frames and filters them by binding and strictly increasing sequence number.
*/
module RelayTable {
  import opened Wrappers
  import opened SecureChannel
  import opened Nonces

  datatype Entry = Entry(hostId: string, grant: string, channel: string, lastSequence: int)

  /** A `browser.frame` envelope. */
  datatype Envelope = Envelope(hostId: string, grant: string, frame: Frame)

  predicate Passes(entry: Entry, envelope: Envelope) {
    && entry.hostId == envelope.hostId
    && entry.grant == envelope.grant
    && entry.channel == envelope.frame.channel
    && envelope.frame.sequence > entry.lastSequence
  }

  function Record(entry: Entry, envelope: Envelope): Entry {
    if Passes(entry, envelope) then entry.(lastSequence := envelope.frame.sequence) else entry
  }

  const MAX_CHANNELS_PER_BROWSER := 8

  /** What a capability grant says beside its nonce and times. */
  datatype Capability = Capability(grant: Grant, subject: string, hostId: string, scopes: seq<string>)

  predicate Permits(scopes: seq<string>, channel: string) {
    || (channel == "kimi" && exists scope :: scope in scopes && !("terminal." <= scope))
    || (channel == "terminal" &&
        exists scope :: scope in scopes && "terminal." <= scope && !("terminal.elevate." <= scope))
    || (channel == "elevated-terminal" && exists scope :: scope in scopes && "terminal.elevate." <= scope)
  }

  // ---------- what a grant permits ----------

  /** The one kind of channel a scope is for. */
  function KindOf(scope: string): (kind: string)
    ensures kind == "elevated-terminal" <==> "terminal.elevate." <= scope
    ensures kind == "terminal" <==> "terminal." <= scope && !("terminal.elevate." <= scope)
    ensures kind == "kimi" <==> !("terminal." <= scope)
  {
    assert "terminal.elevate." <= scope ==> scope[..9] == "terminal.";
    if "terminal.elevate." <= scope then "elevated-terminal" else if "terminal." <= scope then "terminal" else "kimi"
  }

  predicate Covers(scopes: seq<string>, channel: string) {
    exists i :: 0 <= i < |scopes| && KindOf(scopes[i]) == channel
  }

  lemma PermitsByKind(scopes: seq<string>, channel: string)
    ensures Permits(scopes, channel) <==> Covers(scopes, channel)
  {
    if Permits(scopes, channel) {
      var scope :| scope in scopes && KindOf(scope) == channel;
      var i :| 0 <= i < |scopes| && scopes[i] == scope;
      assert KindOf(scopes[i]) == channel;
    }
    if Covers(scopes, channel) {
      var i :| 0 <= i < |scopes| && KindOf(scopes[i]) == channel;
      assert scopes[i] in scopes;
    }
  }

  /** A scope alone admits one kind of channel and no other. */
  lemma OneScopeOneKind(scope: string, channel: string)
    ensures Permits([scope], channel) <==> channel == KindOf(scope)
  {
    PermitsByKind([scope], channel);
    assert [scope][0] == scope;
  }

  /** Several admit what one of them admits. */
  lemma ScopesAddUp(scopes: seq<string>, channel: string)
    ensures Permits(scopes, channel) <==> exists i :: 0 <= i < |scopes| && Permits([scopes[i]], channel)
  {
    PermitsByKind(scopes, channel);
    forall i | 0 <= i < |scopes| ensures Permits([scopes[i]], channel) <==> KindOf(scopes[i]) == channel {
      OneScopeOneKind(scopes[i], channel);
    }
  }

  /** Nothing but an elevation scope elevates, and there are no other kinds. */
  lemma OnlyElevationElevates(scopes: seq<string>, channel: string)
    ensures (forall i :: 0 <= i < |scopes| ==> !("terminal.elevate." <= scopes[i])) ==>
      !Permits(scopes, "elevated-terminal")
    ensures channel !in {"kimi", "terminal", "elevated-terminal"} ==> !Permits(scopes, channel)
  {
    PermitsByKind(scopes, "elevated-terminal");
  }

  lemma ScopeExamples()
    ensures Permits(["terminal.open"], "terminal") && !Permits(["terminal.open"], "elevated-terminal")
    ensures Permits(["terminal.elevate.open"], "elevated-terminal") && !Permits(["terminal.elevate.open"], "terminal")
    ensures Permits(["sessions.list"], "kimi") && !Permits(["sessions.list"], "terminal")
  {
    OneScopeOneKind("terminal.open", "terminal");
    OneScopeOneKind("terminal.open", "elevated-terminal");
    OneScopeOneKind("terminal.elevate.open", "elevated-terminal");
    OneScopeOneKind("terminal.elevate.open", "terminal");
    OneScopeOneKind("sessions.list", "kimi");
    OneScopeOneKind("sessions.list", "terminal");
    assert "terminal.open"[9] == 'o' && "terminal.elevate."[9] == 'e' && "sessions.list"[0] == 's';
  }

  // ---------- one browser's channels ----------

  datatype OpenReply = Opened | ChannelLimit | InvalidGrant | BindingMismatch | GrantRejected | HostOffline
  datatype FrameReply = Forwarded | Invalid | NoAgent

  class BrowserConnection {
    const subject: string
    var channels: map<string, Entry>

    constructor (subject: string)
      ensures this.subject == subject && channels == map[]
    {
      this.subject, channels := subject, map[];
    }

    /**
      `signed` is what the token says, if its signature is good. A grant that gets as far as the nonce
      table is used up, even if the agent then turns out to be offline.
    */
    method OpenChannel(nonces: NonceTable, channelId: string, hostId: string, token: string, channel: string,
      signed: Option<Capability>, verifiedAt: nat, consumedAt: nat, agentOnline: bool) returns (reply: OpenReply)
      modifies this`channels, nonces
      ensures reply ==
        if channelId in old(channels) || |old(channels)| >= MAX_CHANNELS_PER_BROWSER then ChannelLimit
        else if signed.None? || !Verifies(signed.value.grant, verifiedAt) then InvalidGrant
        else if signed.value.subject != subject || signed.value.hostId != hostId then BindingMismatch
        else if !Covers(signed.value.scopes, channel) then GrantRejected
        else if signed.value.grant.nonce in Purge(old(nonces.rows), consumedAt) then GrantRejected
        else if !agentOnline then HostOffline
        else Opened
      ensures channels ==
        if reply.Opened? then old(channels)[channelId := Entry(hostId, token, channel, -1)] else old(channels)
      ensures reply.Opened? ==> channel in {"kimi", "terminal", "elevated-terminal"}
      ensures reply.Opened? && channel == "elevated-terminal" ==>
        exists i :: 0 <= i < |signed.value.scopes| && "terminal.elevate." <= signed.value.scopes[i]
      ensures reply.Opened? && channel == "terminal" ==>
        exists i :: 0 <= i < |signed.value.scopes| &&
          "terminal." <= signed.value.scopes[i] && !("terminal.elevate." <= signed.value.scopes[i])
      ensures reply.Opened? && channel == "kimi" ==>
        exists i :: 0 <= i < |signed.value.scopes| && !("terminal." <= signed.value.scopes[i])
      ensures !reply.Opened? && !reply.HostOffline? && !reply.GrantRejected? ==> nonces.rows == old(nonces.rows)
      ensures reply.Opened? || reply.HostOffline? ==>
        nonces.rows ==
          Purge(old(nonces.rows), consumedAt)[signed.value.grant.nonce := signed.value.grant.expiresAt * 1000]
    {
      if channelId in channels || |channels| >= MAX_CHANNELS_PER_BROWSER {
        return ChannelLimit;
      }
      if signed.None? || !Verifies(signed.value.grant, verifiedAt) {
        return InvalidGrant;
      }
      var capability := signed.value;
      if capability.subject != subject || capability.hostId != hostId {
        return BindingMismatch;
      }
      PermitsByKind(capability.scopes, channel);
      if !Permits(capability.scopes, channel) {
        return GrantRejected;
      }
      var consumed := nonces.ConsumeNonce(capability.grant.nonce, capability.grant.expiresAt * 1000, consumedAt);
      if !consumed {
        return GrantRejected;
      }
      channels := channels[channelId := Entry(hostId, token, channel, -1)];
      if !agentOnline {
        channels := channels - {channelId};
        return HostOffline;
      }
      return Opened;
    }

    /** The number is recorded even if no agent is there to forward the frame to. */
    method OnFrame(envelope: Envelope, agentOnline: bool) returns (reply: FrameReply)
      modifies this`channels
      ensures reply ==
        if !(envelope.frame.channelId in old(channels)
          && Passes(old(channels)[envelope.frame.channelId], envelope)) then Invalid
        else if agentOnline then Forwarded
        else NoAgent
      ensures channels.Keys == old(channels).Keys
      ensures forall id :: id in channels ==>
        channels[id] ==
          if id == envelope.frame.channelId then Record(old(channels)[id], envelope) else old(channels)[id]
    {
      var id := envelope.frame.channelId;
      if id !in channels || !Passes(channels[id], envelope) {
        return Invalid;
      }
      channels := channels[id := channels[id].(lastSequence := envelope.frame.sequence)];
      return if agentOnline then Forwarded else NoAgent;
    }

    method CloseChannel(channelId: string, hostId: string)
      modifies this`channels
      ensures channels ==
        if channelId in old(channels) && old(channels)[channelId].hostId == hostId then old(channels) - {channelId}
        else old(channels)
    {
      if channelId !in channels || channels[channelId].hostId != hostId {
        return;
      }
      channels := channels - {channelId};
    }
  }

  // ---------- what the filter does to a stream ----------

  /** The entry after a stream of envelopes for its channel, and those that were forwarded. */
  function Filter(entry: Entry, stream: seq<Envelope>): (Entry, seq<Envelope>) {
    if stream == [] then (entry, [])
    else
      var n := |stream| - 1;
      var (before, forwarded) := Filter(entry, stream[..n]);
      (Record(before, stream[n]), if Passes(before, stream[n]) then forwarded + [stream[n]] else forwarded)
  }

  /** Whatever arrives, forwarded sequence numbers strictly increase and stay on the entry's binding. */
  lemma {:induction false} ForwardsIncreasing(entry: Entry, stream: seq<Envelope>)
    ensures var (after, forwarded) := Filter(entry, stream);
      && after == entry.(lastSequence :=
        if forwarded == [] then entry.lastSequence else forwarded[|forwarded| - 1].frame.sequence)
      && (forall i :: 0 <= i < |forwarded| ==> entry.lastSequence < forwarded[i].frame.sequence)
      && (forall i, j :: 0 <= i < j < |forwarded| ==> forwarded[i].frame.sequence < forwarded[j].frame.sequence)
      && (forall i :: 0 <= i < |forwarded| ==>
        (forwarded[i].hostId, forwarded[i].grant, forwarded[i].frame.channel) ==
          (entry.hostId, entry.grant, entry.channel))
    decreases |stream|
  {
    if stream != [] {
      ForwardsIncreasing(entry, stream[..|stream| - 1]);
    }
  }

  /** A well-bound stream in sequence order is forwarded whole: the filter rejects nothing it should pass. */
  lemma {:induction false} ForwardsOrderedStreams(entry: Entry, stream: seq<Envelope>)
    requires forall i :: 0 <= i < |stream| ==>
      && (stream[i].hostId, stream[i].grant, stream[i].frame.channel) == (entry.hostId, entry.grant, entry.channel)
      && entry.lastSequence < stream[i].frame.sequence
    requires forall i, j :: 0 <= i < j < |stream| ==> stream[i].frame.sequence < stream[j].frame.sequence
    ensures Filter(entry, stream).1 == stream
    decreases |stream|
  {
    if stream != [] {
      var n := |stream| - 1;
      ForwardsOrderedStreams(entry, stream[..n]);
      ForwardsIncreasing(entry, stream[..n]);
      assert stream == stream[..n] + [stream[n]];
    }
  }
}
