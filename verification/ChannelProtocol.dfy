/**
  One encrypted channel end to end: browser, control-plane relay and agent, joined by links that
  lose, repeat and reorder frames and may rewrite everything but the ciphertext.

  The two directions are separate: a ciphertext travels only the way it was sent. `requested` and
  `replied` record what each end has sealed, `learned` and `heard` what the other has accepted, and
  `delivered` the events handed to the page.
*/
module ChannelProtocol {
  import opened Wrappers
  import opened Json
  import opened SecureChannel
  import opened RelayTable
  import B = BrowserRelay

  datatype System = System(
    browser: B.View,
    entry: Option<Entry>,
    agent: Channel,
    agentOpen: bool,
    grant: string,
    scopes: set<string>,
    requested: seq<Plain>,
    sentUp: set<Ciphertext>,
    sentOn: set<Ciphertext>,
    heard: seq<Plain>,
    answered: set<nat>,
    replied: seq<Plain>,
    sentDown: set<Ciphertext>,
    learned: seq<Plain>,
    delivered: seq<Json>)

  datatype Action =
    | Rpc(requestId: string, operation: string, body: Json, nonce: Nonce, sent: bool)
    | RelayReceives(envelope: Envelope)
    | RelayCloses
    | AgentReceives(grant: string, frame: Frame)
    | AgentAnswers(index: nat, ok: bool, body: Json, nonce: Nonce)
    | AgentEmits(body: Json, nonce: Nonce)
    | AgentCloses
    | BrowserReceives(hostId: string, frame: Frame)
    | Timeout(requestId: string)
    | BrowserDiscards(reason: B.Reason)

  datatype Setup = Setup(hostId: string, id: string, kind: string, key: Key, grant: string, scopes: set<string>)

  /** Both ends have just derived the same key. */
  function Opened(setup: Setup): System {
    System(
      B.View(setup.hostId, setup.id, setup.kind, Some(setup.key), false, 0, 0, [], []),
      Some(Entry(setup.hostId, setup.grant, setup.kind, -1)),
      Channel(setup.id, setup.kind, setup.key, 0, 0), true, setup.grant, setup.scopes,
      [], {}, {}, [], {}, [], {}, [], [])
  }

  /** An ideal cipher: nobody else can make a ciphertext under the key. */
  predicate MayArrive(key: Key, sent: set<Ciphertext>, frame: Frame) {
    frame.ciphertext.Sealed? && frame.ciphertext.key == key ==> frame.ciphertext in sent
  }

  /** Request ids are fresh random UUIDs. */
  predicate FreshId(s: System, requestId: string) {
    forall i :: 0 <= i < |s.requested| ==> s.requested[i].Request? && s.requested[i].requestId != requestId
  }

  /** An action that cannot happen now changes nothing. */
  function Step(s: System, action: Action): System {
    match action
    case Rpc(requestId, operation, body, nonce, sent) =>
      if !FreshId(s, requestId) then s else BrowserSends(s, requestId, operation, body, nonce, sent)
    case RelayReceives(envelope) =>
      if s.entry.None? || envelope.frame.channelId != s.agent.id
        || !MayArrive(s.agent.key, s.sentUp, envelope.frame) then s
      else s.(
        entry := Some(Record(s.entry.value, envelope)),
        sentOn := if Passes(s.entry.value, envelope) then s.sentOn + {envelope.frame.ciphertext} else s.sentOn)
    case RelayCloses => s.(entry := None)
    case AgentReceives(grant, frame) =>
      if !s.agentOpen || frame.channelId != s.agent.id || !MayArrive(s.agent.key, s.sentOn, frame) then s
      else AgentTakes(s, grant, frame)
    case AgentAnswers(index, ok, body, nonce) =>
      if !s.agentOpen || index >= |s.heard| || index in s.answered || !Allowed(s, s.heard[index]) then s
      else AgentSends(s.(answered := s.answered + {index}), Reply(s.heard[index].requestId, ok, body), nonce)
    case AgentEmits(body, nonce) => if !s.agentOpen then s else AgentSends(s, Event(body), nonce)
    case AgentCloses => s.(agentOpen := false)
    case BrowserReceives(hostId, frame) =>
      if frame.channelId != s.browser.channelId || !MayArrive(s.agent.key, s.sentDown, frame) then s
      else BrowserTakes(s, hostId, frame)
    case Timeout(requestId) => s.(browser := B.Settle(s.browser, requestId, B.Rejected(B.TimedOut)))
    case BrowserDiscards(reason) =>
      s.(browser := B.Discard(s.browser, if reason.AgentError? then B.Discarded else reason))
  }

  /** `rpc`; if the socket is down the frame is sealed and registered but never leaves. */
  function BrowserSends(s: System, requestId: string, operation: string, body: Json, nonce: Nonce, sent: bool): System {
    var (browser, result) := B.Rpc(s.browser, requestId, operation, body, nonce);
    if result.Err? then s
    else s.(
      browser := browser,
      requested := s.requested + [Request(requestId, operation, body)],
      sentUp := if sent then s.sentUp + {result.value.ciphertext} else s.sentUp)
  }

  predicate Allowed(s: System, plain: Plain) {
    plain.Request? && plain.operation in s.scopes
  }

  /** `prepare_browser_frame`: any failure removes the channel. */
  function AgentTakes(s: System, grant: string, frame: Frame): System {
    if grant != s.grant then s.(agentOpen := false)
    else
      var (agent, result) := Decrypt(s.agent, frame);
      if result.Err? then s.(agentOpen := false)
      else s.(agent := agent, heard := s.heard + [result.value], agentOpen := Allowed(s, result.value))
  }

  function AgentSends(s: System, plain: Plain, nonce: Nonce): System {
    var (agent, frame) := Encrypt(s.agent, plain, nonce);
    if frame.None? then s.(agentOpen := false)
    else s.(agent := agent, replied := s.replied + [plain], sentDown := s.sentDown + {frame.value.ciphertext})
  }

  function BrowserTakes(s: System, hostId: string, frame: Frame): System {
    var (browser, event) := B.ReceiveFrame(s.browser, hostId, frame);
    var accepted := browser.expectedInbound > s.browser.expectedInbound;
    s.(
      browser := browser,
      delivered := if event.Some? then s.delivered + [event.value] else s.delivered,
      learned := if accepted && frame.ciphertext.Sealed? then s.learned + [frame.ciphertext.plain] else s.learned)
  }

  function Run(s: System, actions: seq<Action>): System {
    if actions == [] then s
    else Step(Run(s, actions[..|actions| - 1]), actions[|actions| - 1])
  }

  // ---------- what every run keeps ----------

  /** Ciphertexts under the channel key carry the plaintext sealed at the number in their data. */
  predicate Carries(channel: Channel, plains: seq<Plain>, sent: set<Ciphertext>) {
    forall c :: c in sent && c.Sealed? && c.key == channel.key ==>
      exists i :: 0 <= i < |plains| && c.aad == Aad(channel.id, channel.kind, i) && c.plain == plains[i]
  }

  predicate SameChannel(s: System) {
    && s.browser.channelId == s.agent.id
    && s.browser.channel == s.agent.kind
    && s.browser.key == Some(s.agent.key)
  }

  /** Browser to agent. */
  predicate Uplink(s: System) {
    && s.browser.outbound == |s.requested|
    && Carries(s.agent, s.requested, s.sentUp)
    && Carries(s.agent, s.requested, s.sentOn)
    && s.agent.expectedInbound == |s.heard|
    && s.heard <= s.requested
  }

  /** Agent to browser. */
  predicate Downlink(s: System) {
    && s.agent.outbound == |s.replied|
    && Carries(s.agent, s.replied, s.sentDown)
    && s.browser.expectedInbound == |s.learned|
    && s.learned <= s.replied
  }

  lemma CarryingGrows(channel: Channel, plains: seq<Plain>, sent: set<Ciphertext>, plain: Plain, nonce: Nonce)
    requires Carries(channel, plains, sent)
    ensures Carries(channel, plains + [plain], sent)
    ensures Carries(channel, plains + [plain],
      sent + {Seal(channel.key, nonce, channel.id, channel.kind, |plains|, plain).ciphertext})
  {
    var grown := plains + [plain];
    forall c | c in sent && c.Sealed? && c.key == channel.key
      ensures exists i :: 0 <= i < |grown| && c.aad == Aad(channel.id, channel.kind, i) && c.plain == grown[i]
    {
      var i :| 0 <= i < |plains| && c.aad == Aad(channel.id, channel.kind, i) && c.plain == plains[i];
      assert grown[i] == plains[i];
    }
    assert grown[|plains|] == plain;
  }

  /** A frame accepted at number `n` carries exactly the plaintext sealed at number `n`. */
  lemma AcceptedIsSealed(channel: Channel, plains: seq<Plain>, sent: set<Ciphertext>, frame: Frame)
    requires Carries(channel, plains, sent) && MayArrive(channel.key, sent, frame)
    requires Open(channel.key, Aad(channel.id, channel.kind, frame.sequence), frame).Some?
    ensures frame.sequence < |plains|
    ensures Open(channel.key, Aad(channel.id, channel.kind, frame.sequence), frame).value == plains[frame.sequence]
  {
    var c := frame.ciphertext;
    var i :| 0 <= i < |plains| && c.aad == Aad(channel.id, channel.kind, i) && c.plain == plains[i];
    AadBindsSequence(channel.id, channel.kind, i, frame.sequence);
  }

  predicate Links(s: System) {
    SameChannel(s) && Uplink(s) && Downlink(s)
  }

  lemma BrowserSendsKeepsLinks(s: System, requestId: string, operation: string, body: Json, nonce: Nonce, sent: bool)
    requires Links(s)
    ensures Links(BrowserSends(s, requestId, operation, body, nonce, sent))
  {
    CarryingGrows(s.agent, s.requested, s.sentUp, Request(requestId, operation, body), nonce);
    CarryingGrows(s.agent, s.requested, s.sentOn, Request(requestId, operation, body), nonce);
  }

  lemma AgentTakesKeepsLinks(s: System, grant: string, frame: Frame)
    requires Links(s) && MayArrive(s.agent.key, s.sentOn, frame)
    ensures Links(AgentTakes(s, grant, frame))
  {
    if Decrypt(s.agent, frame).1.Ok? {
      AcceptedIsSealed(s.agent, s.requested, s.sentOn, frame);
      assert s.heard + [s.requested[|s.heard|]] <= s.requested;
    }
  }

  lemma AgentSendsKeepsLinks(s: System, plain: Plain, nonce: Nonce)
    requires Links(s)
    ensures Links(AgentSends(s, plain, nonce))
  {
    CarryingGrows(s.agent, s.replied, s.sentDown, plain, nonce);
  }

  lemma BrowserTakesKeepsLinks(s: System, hostId: string, frame: Frame)
    requires Links(s) && frame.channelId == s.browser.channelId && MayArrive(s.agent.key, s.sentDown, frame)
    ensures Links(BrowserTakes(s, hostId, frame))
  {
    var n := |s.learned|;
    var (browser, _) := B.ReceiveFrame(s.browser, hostId, frame);
    if browser.expectedInbound > n {
      AcceptedIsSealed(s.agent, s.replied, s.sentDown, frame);
      assert s.learned + [s.replied[n]] <= s.replied;
    }
  }

  lemma LinksKept(s: System, action: Action)
    requires Links(s)
    ensures Links(Step(s, action))
  {
    match action
    case Rpc(requestId, operation, body, nonce, sent) =>
      BrowserSendsKeepsLinks(s, requestId, operation, body, nonce, sent);
    case AgentReceives(grant, frame) =>
      if MayArrive(s.agent.key, s.sentOn, frame) { AgentTakesKeepsLinks(s, grant, frame); }
    case AgentAnswers(index, ok, body, nonce) =>
      if index < |s.heard| && Allowed(s, s.heard[index]) {
        AgentSendsKeepsLinks(s.(answered := s.answered + {index}), Reply(s.heard[index].requestId, ok, body), nonce);
      }
    case AgentEmits(body, nonce) => AgentSendsKeepsLinks(s, Event(body), nonce);
    case BrowserReceives(hostId, frame) =>
      if frame.channelId == s.browser.channelId && MayArrive(s.agent.key, s.sentDown, frame) {
        BrowserTakesKeepsLinks(s, hostId, frame);
      }
    case _ =>
  }

  // ---------- requests and their settlement ----------

  function Ids(requests: seq<Plain>): (ids: seq<string>)
    requires forall i :: 0 <= i < |requests| ==> requests[i].Request?
    ensures |ids| == |requests| && forall i :: 0 <= i < |requests| ==> ids[i] == requests[i].requestId
  {
    seq(|requests|, i requires 0 <= i < |requests| => requests[i].requestId)
  }

  function SettledIds(settled: seq<B.Settlement>): (ids: seq<string>)
    ensures |ids| == |settled| && forall i :: 0 <= i < |settled| ==> ids[i] == settled[i].requestId
  {
    seq(|settled|, i requires 0 <= i < |settled| => settled[i].requestId)
  }

  /** Requests waiting or settled, each as often as it occurs. */
  function Account(pending: seq<string>, settled: seq<B.Settlement>): multiset<string> {
    multiset(pending) + multiset(SettledIds(settled))
  }

  function Accounted(view: B.View): multiset<string> {
    Account(view.pending, view.settled)
  }

  predicate Ledger(s: System) {
    && (forall i :: 0 <= i < |s.requested| ==> s.requested[i].Request?)
    && (forall i, j :: 0 <= i < j < |s.requested| ==> s.requested[i].requestId != s.requested[j].requestId)
    && Accounted(s.browser) == multiset(Ids(s.requested))
    && (s.browser.closed ==> s.browser.pending == [])
  }

  lemma {:induction false} SettleKeepsAccount(view: B.View, requestId: string, outcome: B.Outcome)
    ensures Accounted(B.Settle(view, requestId, outcome)) == Accounted(view)
    ensures B.Settle(view, requestId, outcome).closed == view.closed
  {
    var at := B.Find(view.pending, requestId);
    if at.Some? {
      var k := at.value;
      assert view.pending == view.pending[..k] + [requestId] + view.pending[k + 1..];
      assert SettledIds(view.settled + [B.Settlement(requestId, outcome)]) == SettledIds(view.settled) + [requestId];
    }
  }

  lemma DiscardKeepsAccount(view: B.View, reason: B.Reason)
    ensures Accounted(B.Discard(view, reason)) == Accounted(view)
  {
    var all := B.AllRejected(view.pending, reason);
    assert SettledIds(view.settled + all) == SettledIds(view.settled) + SettledIds(all);
    assert SettledIds(all) == view.pending;
  }

  /** The ways a frame can leave the browser's books. */
  predicate BookedAs(view: B.View, after: B.View, plain: Plain) {
    var next := view.(expectedInbound := view.expectedInbound + 1);
    match plain
    case Reply(requestId, ok, body) =>
      after == B.Settle(next, requestId, if ok then B.Resolved(body) else B.Rejected(B.AgentError(body)))
    case Request(requestId, _, body) => after == B.Settle(next, requestId, B.Rejected(B.AgentError(body)))
    case Event(_) => after == next
    case Unreadable => false
  }

  lemma ReceiveCases(view: B.View, hostId: string, frame: Frame)
    ensures var after := B.ReceiveFrame(view, hostId, frame).0;
      || after == view
      || (after == B.Discard(view, B.IntegrityError) && !view.closed)
      || (!view.closed && frame.ciphertext.Sealed? && BookedAs(view, after, frame.ciphertext.plain))
  {
  }

  lemma ReceiveKeepsAccount(view: B.View, hostId: string, frame: Frame)
    requires view.closed ==> view.pending == []
    ensures var after := B.ReceiveFrame(view, hostId, frame).0;
      Accounted(after) == Accounted(view) && (after.closed ==> after.pending == [])
  {
    ReceiveCases(view, hostId, frame);
    DiscardKeepsAccount(view, B.IntegrityError);
    var after := B.ReceiveFrame(view, hostId, frame).0;
    if frame.ciphertext.Sealed? && BookedAs(view, after, frame.ciphertext.plain) {
      BookingKeepsAccount(view, after, frame.ciphertext.plain);
    }
  }

  lemma {:induction false} BookingKeepsAccount(view: B.View, after: B.View, plain: Plain)
    requires BookedAs(view, after, plain)
    ensures Accounted(after) == Accounted(view) && after.closed == view.closed
  {
    var next := view.(expectedInbound := view.expectedInbound + 1);
    match plain
    case Reply(requestId, ok, body) =>
      SettleKeepsAccount(next, requestId, if ok then B.Resolved(body) else B.Rejected(B.AgentError(body)));
    case Request(requestId, _, body) => SettleKeepsAccount(next, requestId, B.Rejected(B.AgentError(body)));
    case _ =>
  }

  lemma RegisteringKeepsLedger(s: System, requestId: string, operation: string, body: Json, nonce: Nonce, sent: bool)
    requires Ledger(s) && FreshId(s, requestId)
    ensures Ledger(BrowserSends(s, requestId, operation, body, nonce, sent))
  {
    var request := Request(requestId, operation, body);
    assert Ids(s.requested + [request]) == Ids(s.requested) + [requestId];
  }

  lemma NewBooks(s: System, after: B.View)
    requires Ledger(s)
    requires Accounted(after) == Accounted(s.browser) && (after.closed ==> after.pending == [])
    ensures Ledger(s.(browser := after))
  {
  }

  lemma LedgerIgnoresTheRest(s: System, t: System)
    requires Ledger(s) && t.browser == s.browser && t.requested == s.requested
    ensures Ledger(t)
  {
  }

  lemma TakingKeepsLedger(s: System, hostId: string, frame: Frame)
    requires Ledger(s)
    ensures Ledger(BrowserTakes(s, hostId, frame))
  {
    var after := B.ReceiveFrame(s.browser, hostId, frame).0;
    ReceiveKeepsAccount(s.browser, hostId, frame);
    NewBooks(s, after);
    LedgerIgnoresTheRest(s.(browser := after), BrowserTakes(s, hostId, frame));
  }

  lemma LedgerKept(s: System, action: Action)
    requires Ledger(s)
    ensures Ledger(Step(s, action))
  {
    match action
    case Rpc(requestId, operation, body, nonce, sent) =>
      if FreshId(s, requestId) { RegisteringKeepsLedger(s, requestId, operation, body, nonce, sent); }
    case BrowserReceives(hostId, frame) => TakingKeepsLedger(s, hostId, frame);
    case Timeout(requestId) =>
      SettleKeepsAccount(s.browser, requestId, B.Rejected(B.TimedOut));
      NewBooks(s, B.Settle(s.browser, requestId, B.Rejected(B.TimedOut)));
    case BrowserDiscards(reason) =>
      var why := if reason.AgentError? then B.Discarded else reason;
      DiscardKeepsAccount(s.browser, why);
      NewBooks(s, B.Discard(s.browser, why));
    case _ => LedgerIgnoresTheRest(s, Step(s, action));
  }

  // ---------- replies and what they answer ----------

  predicate IsAnswer(s: System, k: nat, i: nat)
    requires k < |s.replied|
  {
    i in s.answered && i < |s.heard| && Allowed(s, s.heard[i]) &&
    s.replied[k].Reply? && s.replied[k].requestId == s.heard[i].requestId
  }

  ghost predicate Answers(s: System) {
    && (forall k :: 0 <= k < |s.replied| ==> s.replied[k].Event? || s.replied[k].Reply?)
    && (forall k :: 0 <= k < |s.replied| && s.replied[k].Reply? ==> exists i: nat :: IsAnswer(s, k, i))
    && (forall k, k' :: 0 <= k < k' < |s.replied| && s.replied[k].Reply? && s.replied[k'].Reply? ==>
      s.replied[k].requestId != s.replied[k'].requestId)
  }

  predicate IsReply(learned: seq<Plain>, settlement: B.Settlement, k: nat) {
    k < |learned| &&
    match settlement.outcome
    case Resolved(body) => learned[k] == Reply(settlement.requestId, true, body)
    case Rejected(reason) => reason.AgentError? && learned[k] == Reply(settlement.requestId, false, reason.body)
  }

  predicate ByAgent(outcome: B.Outcome) {
    outcome.Resolved? || outcome.reason.AgentError?
  }

  /** A settlement in the agent's name comes from a reply the browser accepted. */
  ghost predicate Settlements(s: System) {
    forall j :: 0 <= j < |s.browser.settled| && ByAgent(s.browser.settled[j].outcome) ==>
      exists k: nat :: IsReply(s.learned, s.browser.settled[j], k)
  }

  lemma AgentSendsKeepsAnswers(s: System, plain: Plain, nonce: Nonce, index: nat)
    requires Links(s) && Ledger(s) && Answers(s)
    requires plain.Event? || (plain.Reply? && index < |s.heard| && index !in s.answered && Allowed(s, s.heard[index])
      && plain.requestId == s.heard[index].requestId)
    ensures Answers(AgentSends(if plain.Reply? then s.(answered := s.answered + {index}) else s, plain, nonce))
  {
    var before := if plain.Reply? then s.(answered := s.answered + {index}) else s;
    var t := AgentSends(before, plain, nonce);
    forall k | 0 <= k < |t.replied| && t.replied[k].Reply?
      ensures exists i: nat :: IsAnswer(t, k, i)
      ensures k < |s.replied| && plain.Reply? ==> t.replied[k].requestId != plain.requestId
    {
      if k < |s.replied| {
        var i: nat :| IsAnswer(s, k, i);
        assert IsAnswer(t, k, i);
        if plain.Reply? {
          assert s.heard[i] == s.requested[i] && s.heard[index] == s.requested[index];
        }
      } else {
        assert IsAnswer(t, k, index);
      }
    }
  }

  lemma HearingKeepsAnswers(s: System, plain: Plain)
    requires Answers(s)
    ensures Answers(s.(heard := s.heard + [plain]))
  {
    var t := s.(heard := s.heard + [plain]);
    forall k | 0 <= k < |t.replied| && t.replied[k].Reply? ensures exists i: nat :: IsAnswer(t, k, i) {
      var i: nat :| IsAnswer(s, k, i);
      assert IsAnswer(t, k, i);
    }
  }

  lemma AnswersKept(s: System, action: Action)
    requires Links(s) && Ledger(s) && Answers(s)
    ensures Answers(Step(s, action))
  {
    var t := Step(s, action);
    match action
    case AgentAnswers(index, ok, body, nonce) =>
      if s.agentOpen && index < |s.heard| && index !in s.answered && Allowed(s, s.heard[index]) {
        AgentSendsKeepsAnswers(s, Reply(s.heard[index].requestId, ok, body), nonce, index);
      }
    case AgentEmits(body, nonce) => AgentSendsKeepsAnswers(s, Event(body), nonce, 0);
    case AgentReceives(_, _) =>
      if t.heard != s.heard {
        HearingKeepsAnswers(s, t.heard[|s.heard|]);
        SameAnswers(s.(heard := t.heard), t);
      } else {
        SameAnswers(s, t);
      }
    case _ => SameAnswers(s, t);
  }

  lemma SameAnswers(s: System, t: System)
    requires Answers(s)
    requires (t.replied, t.heard, t.answered, t.scopes) == (s.replied, s.heard, s.answered, s.scopes)
    ensures Answers(t)
  {
    forall k | 0 <= k < |t.replied| && t.replied[k].Reply? ensures exists i: nat :: IsAnswer(t, k, i) {
      var i: nat :| IsAnswer(s, k, i);
      assert IsAnswer(t, k, i);
    }
  }

  lemma ReceivingKeepsSettlements(s: System, hostId: string, frame: Frame)
    requires Links(s) && Answers(s) && Settlements(s)
    requires frame.channelId == s.browser.channelId && MayArrive(s.agent.key, s.sentDown, frame)
    ensures Settlements(BrowserTakes(s, hostId, frame))
  {
    var t := BrowserTakes(s, hostId, frame);
    BrowserTakesKeepsLinks(s, hostId, frame);
    ReceiveCases(s.browser, hostId, frame);
    forall j | 0 <= j < |t.browser.settled| && ByAgent(t.browser.settled[j].outcome)
      ensures exists k: nat :: IsReply(t.learned, t.browser.settled[j], k)
    {
      if j < |s.browser.settled| {
        assert t.browser.settled[j] == s.browser.settled[j];
        var k: nat :| IsReply(s.learned, s.browser.settled[j], k);
        assert IsReply(t.learned, t.browser.settled[j], k);
      } else {
        assert t.learned == s.learned + [frame.ciphertext.plain];
        assert t.replied[|s.learned|] == frame.ciphertext.plain;
        assert IsReply(t.learned, t.browser.settled[j], |s.learned|);
      }
    }
  }

  lemma SettlementsKept(s: System, action: Action)
    requires Links(s) && Answers(s) && Settlements(s)
    ensures Settlements(Step(s, action))
  {
    var t := Step(s, action);
    if action.BrowserReceives? {
      if t != s { ReceivingKeepsSettlements(s, action.hostId, action.frame); }
    } else {
      forall j | 0 <= j < |t.browser.settled| && ByAgent(t.browser.settled[j].outcome)
        ensures exists k: nat :: IsReply(t.learned, t.browser.settled[j], k)
      {
        assert t.learned == s.learned;
        assert j < |s.browser.settled| && t.browser.settled[j] == s.browser.settled[j];
      }
    }
  }

  // ---------- events ----------

  /** The bodies of the events among the plaintexts. */
  function EventBodies(plains: seq<Plain>): seq<Json> {
    if plains == [] then []
    else
      var last := plains[|plains| - 1];
      EventBodies(plains[..|plains| - 1]) + if last.Event? then [last.body] else []
  }

  lemma {:induction false} EventsOfPrefix(some: seq<Plain>, all: seq<Plain>)
    requires some <= all
    ensures EventBodies(some) <= EventBodies(all)
    decreases |all|
  {
    if |some| < |all| {
      EventsOfPrefix(some, all[..|all| - 1]);
    } else {
      assert some == all;
    }
  }

  lemma OneMoreEvent(plains: seq<Plain>, plain: Plain)
    ensures EventBodies(plains + [plain]) == EventBodies(plains) + if plain.Event? then [plain.body] else []
  {
    assert (plains + [plain])[..|plains|] == plains;
  }

  predicate Deliveries(s: System) {
    s.delivered == EventBodies(s.learned)
  }

  lemma TakingKeepsDeliveries(s: System, hostId: string, frame: Frame)
    requires Deliveries(s)
    ensures Deliveries(BrowserTakes(s, hostId, frame))
  {
    if !s.browser.closed {
      B.FramesAreTakenOrFatal(s.browser, hostId, frame);
      if B.Acceptable(s.browser, hostId, frame) { OneMoreEvent(s.learned, frame.ciphertext.plain); }
    }
  }

  lemma DeliveriesKept(s: System, action: Action)
    requires Deliveries(s)
    ensures Deliveries(Step(s, action))
  {
    if action.BrowserReceives? { TakingKeepsDeliveries(s, action.hostId, action.frame); }
  }

  // ---------- the theorems ----------

  ghost predicate Invariant(s: System) {
    Links(s) && Ledger(s) && Answers(s) && Settlements(s) && Deliveries(s)
  }

  lemma {:induction false} EveryRunKeepsInvariant(s: System, actions: seq<Action>)
    requires Invariant(s)
    ensures Invariant(Run(s, actions))
    decreases |actions|
  {
    if actions != [] {
      var before := Run(s, actions[..|actions| - 1]);
      var action := actions[|actions| - 1];
      EveryRunKeepsInvariant(s, actions[..|actions| - 1]);
      LinksKept(before, action);
      LedgerKept(before, action);
      AnswersKept(before, action);
      SettlementsKept(before, action);
      DeliveriesKept(before, action);
    }
  }

  lemma OpenedIsInvariant(setup: Setup)
    ensures Invariant(Opened(setup))
  {
    assert Ids([]) == [] && SettledIds([]) == [];
  }

  lemma ReachableIsInvariant(setup: Setup, actions: seq<Action>)
    ensures Invariant(Run(Opened(setup), actions))
  {
    OpenedIsInvariant(setup);
    EveryRunKeepsInvariant(Opened(setup), actions);
  }

  /** Each end accepts a prefix of what the other sealed, in order, whatever the links do. */
  lemma EachEndHearsAPrefix(setup: Setup, actions: seq<Action>)
    ensures var s := Run(Opened(setup), actions); s.heard <= s.requested && s.learned <= s.replied
  {
    ReachableIsInvariant(setup, actions);
  }

  /** The events handed to the page are those accepted, in order, and so a prefix of those the agent emitted. */
  lemma EventsAreDelivered(setup: Setup, actions: seq<Action>)
    ensures var s := Run(Opened(setup), actions);
      s.delivered == EventBodies(s.learned) && s.delivered <= EventBodies(s.replied)
  {
    ReachableIsInvariant(setup, actions);
    var s := Run(Opened(setup), actions);
    EventsOfPrefix(s.learned, s.replied);
  }

  /** How often a request id occurs among the settlements. */
  function Settled(settled: seq<B.Settlement>, requestId: string): nat {
    multiset(SettledIds(settled))[requestId]
  }

  /** A registered request is either waiting or settled, exactly once; on a closed channel it is settled. */
  lemma EachRequestSettlesOnce(setup: Setup, actions: seq<Action>, i: nat)
    requires i < |Run(Opened(setup), actions).requested|
    ensures var s := Run(Opened(setup), actions);
      && s.requested[i].Request?
      && multiset(s.browser.pending)[s.requested[i].requestId]
        + Settled(s.browser.settled, s.requested[i].requestId) == 1
      && (s.browser.closed ==> Settled(s.browser.settled, s.requested[i].requestId) == 1)
  {
    ReachableIsInvariant(setup, actions);
    var s := Run(Opened(setup), actions);
    var ids := Ids(s.requested);
    OccursOnce(ids, i);
    assert Accounted(s.browser)[ids[i]] == 1;
  }

  lemma OccursOnce(ids: seq<string>, i: nat)
    requires i < |ids| && forall j, k :: 0 <= j < k < |ids| ==> ids[j] != ids[k]
    ensures multiset(ids)[ids[i]] == 1
  {
    var rest := ids[..i] + ids[i + 1..];
    assert ids == ids[..i] + [ids[i]] + ids[i + 1..];
    assert multiset(ids) == multiset(rest) + multiset{ids[i]};
    assert ids[i] !in rest;
  }

  /** Request `i` was heard as sent and reply `k`, the only one with its id, is what settlement `j` says. */
  predicate Genuine(s: System, j: nat, i: nat, k: nat)
    requires j < |s.browser.settled|
  {
    var settlement := s.browser.settled[j];
    && i < |s.heard| && i < |s.requested| && s.heard[i] == s.requested[i]
    && Allowed(s, s.requested[i]) && s.requested[i].requestId == settlement.requestId
    && IsReply(s.replied, settlement, k)
    && forall k' :: 0 <= k' < |s.replied| && s.replied[k'].Reply? && k' != k ==>
      s.replied[k'].requestId != settlement.requestId
  }

  /**
    End to end: a request settled in the agent's name was heard by the agent as the browser sent it,
    and the agent sealed exactly one reply with its id, the one the browser settled it with.
  */
  lemma RepliesAreGenuine(setup: Setup, actions: seq<Action>, j: nat)
    requires j < |Run(Opened(setup), actions).browser.settled|
    requires ByAgent(Run(Opened(setup), actions).browser.settled[j].outcome)
    ensures exists i: nat, k: nat :: Genuine(Run(Opened(setup), actions), j, i, k)
  {
    ReachableIsInvariant(setup, actions);
    var s := Run(Opened(setup), actions);
    var k: nat :| IsReply(s.learned, s.browser.settled[j], k);
    assert s.learned[k] == s.replied[k];
    var i: nat :| IsAnswer(s, k, i);
    assert s.heard[i] == s.requested[i];
    assert Genuine(s, j, i, k);
  }

  lemma ClosedStep(s: System, action: Action)
    requires s.browser.closed && s.browser.pending == []
    ensures var t := Step(s, action);
      (t.browser, t.requested, t.learned) == (s.browser, s.requested, s.learned)
  {
  }

  /** A closed channel is final: nothing later registers, settles or accepts anything on it. */
  lemma {:induction false} ClosedIsFinal(s: System, actions: seq<Action>)
    requires Ledger(s) && s.browser.closed
    ensures var t := Run(s, actions);
      (t.browser, t.requested, t.learned) == (s.browser, s.requested, s.learned)
    decreases |actions|
  {
    if actions != [] {
      var n := |actions| - 1;
      ClosedIsFinal(s, actions[..n]);
      ClosedStep(Run(s, actions[..n]), actions[n]);
    }
  }

  lemma DroppedStep(s: System, action: Action)
    requires !s.agentOpen
    ensures var t := Step(s, action);
      !t.agentOpen && (t.heard, t.replied) == (s.heard, s.replied)
  {
  }

  /** So is a channel the agent has dropped. */
  lemma {:induction false} DroppedIsFinal(s: System, actions: seq<Action>)
    requires !s.agentOpen
    ensures var t := Run(s, actions);
      !t.agentOpen && (t.heard, t.replied) == (s.heard, s.replied)
    decreases |actions|
  {
    if actions != [] {
      var n := |actions| - 1;
      DroppedIsFinal(s, actions[..n]);
      DroppedStep(Run(s, actions[..n]), actions[n]);
    }
  }

  // ---------- an undisturbed round trip ----------

  /** Nothing is under way: everything sealed has been heard, and the filter is just behind. */
  predicate Idle(s: System) {
    && !s.browser.closed && s.agentOpen
    && s.entry == Some(Entry(s.browser.hostId, s.grant, s.agent.kind, |s.requested| - 1))
    && s.heard == s.requested && s.learned == s.replied
    && forall i :: i in s.answered ==> i < |s.heard|
  }

  /** The browser asks, the relay forwards, the agent hears. */
  function Ask(s: System, request: Plain, nonce: Nonce): seq<Action>
    requires request.Request?
  {
    var up := Seal(s.agent.key, nonce, s.agent.id, s.agent.kind, |s.requested|, request);
    [ Rpc(request.requestId, request.operation, request.body, nonce, true),
      RelayReceives(Envelope(s.browser.hostId, s.grant, up)),
      AgentReceives(s.grant, up) ]
  }

  /** The agent answers the last request it heard, the browser hears it. */
  function Answer(s: System, reply: Plain, nonce: Nonce): seq<Action>
    requires reply.Reply? && s.heard != []
  {
    var down := Seal(s.agent.key, nonce, s.agent.id, s.agent.kind, |s.replied|, reply);
    [ AgentAnswers(|s.heard| - 1, reply.ok, reply.body, nonce), BrowserReceives(s.browser.hostId, down) ]
  }

  /** The state once a request has been heard. */
  function Heard(s: System, request: Plain, nonce: Nonce): System
    requires request.Request? && s.entry.Some? && s.agent.expectedInbound < U64_MAX
  {
    var up := Seal(s.agent.key, nonce, s.agent.id, s.agent.kind, |s.requested|, request);
    s.(
      browser := s.browser.(outbound := s.browser.outbound + 1, pending := s.browser.pending + [request.requestId]),
      entry := Some(s.entry.value.(lastSequence := |s.requested|)),
      agent := s.agent.(expectedInbound := s.agent.expectedInbound + 1),
      requested := s.requested + [request],
      sentUp := s.sentUp + {up.ciphertext},
      sentOn := s.sentOn + {up.ciphertext},
      heard := s.heard + [request])
  }

  lemma AskIsHeard(s: System, request: Plain, nonce: Nonce)
    requires Links(s) && Idle(s) && s.agent.expectedInbound < U64_MAX
    requires request.Request? && FreshId(s, request.requestId) && request.operation in s.scopes
    ensures Run(s, Ask(s, request, nonce)) == Heard(s, request, nonce)
    ensures Links(Heard(s, request, nonce))
  {
    var actions := Ask(s, request, nonce);
    var up := actions[2].frame;
    var s1 := Step(s, actions[0]);
    assert s1 == s.(
      browser := s.browser.(outbound := s.browser.outbound + 1, pending := s.browser.pending + [request.requestId]),
      requested := s.requested + [request],
      sentUp := s.sentUp + {up.ciphertext});
    var s2 := Step(s1, actions[1]);
    assert s2 == s1.(
      entry := Some(s.entry.value.(lastSequence := |s.requested|)),
      sentOn := s.sentOn + {up.ciphertext});
    assert Decrypt(s2.agent, up).1 == Ok(request);
    LinksKept(s, actions[0]);
    LinksKept(s1, actions[1]);
    LinksKept(s2, actions[2]);
    RunOfThree(s, actions[0], actions[1], actions[2]);
  }

  /** The state once the last request heard has been answered and the answer accepted. */
  function Answered(s: System, reply: Plain, nonce: Nonce, before: seq<string>): System
    requires reply.Reply? && s.heard != [] && s.agent.outbound < U64_MAX
  {
    var down := Seal(s.agent.key, nonce, s.agent.id, s.agent.kind, |s.replied|, reply);
    var outcome := if reply.ok then B.Resolved(reply.body) else B.Rejected(B.AgentError(reply.body));
    s.(
      browser := s.browser.(
        expectedInbound := s.browser.expectedInbound + 1,
        pending := before,
        settled := s.browser.settled + [B.Settlement(reply.requestId, outcome)]),
      agent := s.agent.(outbound := s.agent.outbound + 1),
      answered := s.answered + {|s.heard| - 1},
      replied := s.replied + [reply],
      sentDown := s.sentDown + {down.ciphertext},
      learned := s.learned + [reply])
  }

  /** The state in between, with the answer on its way. */
  function Replied(s: System, reply: Plain, nonce: Nonce): System
    requires reply.Reply? && s.heard != [] && s.agent.outbound < U64_MAX
  {
    s.(
      agent := s.agent.(outbound := s.agent.outbound + 1),
      answered := s.answered + {|s.heard| - 1},
      replied := s.replied + [reply],
      sentDown := s.sentDown + {Seal(s.agent.key, nonce, s.agent.id, s.agent.kind, |s.replied|, reply).ciphertext})
  }

  lemma ReplyLeaves(s: System, reply: Plain, nonce: Nonce)
    requires Links(s) && s.agentOpen && s.agent.outbound < U64_MAX
    requires s.heard != [] && |s.heard| - 1 !in s.answered && Allowed(s, s.heard[|s.heard| - 1])
    requires reply.Reply? && reply.requestId == s.heard[|s.heard| - 1].requestId
    ensures Step(s, Answer(s, reply, nonce)[0]) == Replied(s, reply, nonce)
  {
  }

  lemma ReplyArrives(s: System, reply: Plain, nonce: Nonce, before: seq<string>)
    requires Links(s) && !s.browser.closed && s.learned == s.replied && s.agent.outbound < U64_MAX
    requires reply.Reply? && s.heard != []
    requires s.browser.pending == before + [reply.requestId] && reply.requestId !in before
    ensures Step(Replied(s, reply, nonce), Answer(s, reply, nonce)[1]) == Answered(s, reply, nonce, before)
  {
    FindsLast(before, reply.requestId);
    var pending := before + [reply.requestId];
    assert pending[..|before|] + pending[|before| + 1..] == before;
  }

  lemma AnswerIsLearned(s: System, reply: Plain, nonce: Nonce, before: seq<string>)
    requires Links(s) && !s.browser.closed && s.agentOpen && s.learned == s.replied && s.agent.outbound < U64_MAX
    requires s.heard != [] && |s.heard| - 1 !in s.answered && Allowed(s, s.heard[|s.heard| - 1])
    requires reply.Reply? && reply.requestId == s.heard[|s.heard| - 1].requestId
    requires s.browser.pending == before + [reply.requestId] && reply.requestId !in before
    ensures Run(s, Answer(s, reply, nonce)) == Answered(s, reply, nonce, before)
  {
    ReplyLeaves(s, reply, nonce);
    ReplyArrives(s, reply, nonce, before);
    RunOfTwo(s, Answer(s, reply, nonce)[0], Answer(s, reply, nonce)[1]);
  }

  lemma RunOfTwo(s: System, a: Action, b: Action)
    ensures Run(s, [a, b]) == Step(Step(s, a), b)
  {
    assert [a, b][..1] == [a] && [a][..0] == [];
    assert Run(s, [a]) == Step(s, a);
  }

  lemma RunOfThree(s: System, a: Action, b: Action, c: Action)
    ensures Run(s, [a, b, c]) == Step(Step(Step(s, a), b), c)
  {
    assert [a, b, c][..2] == [a, b];
    RunOfTwo(s, a, b);
  }

  lemma AskedAndAnswered(s: System, request: Plain, reply: Plain, nonce: Nonce, nonce': Nonce)
    requires Links(s) && Ledger(s) && Idle(s) && s.agent.expectedInbound < U64_MAX && s.agent.outbound < U64_MAX
    requires request.Request? && FreshId(s, request.requestId) && request.operation in s.scopes
    requires reply.Reply? && reply.requestId == request.requestId
    ensures Run(s, Ask(s, request, nonce)) == Heard(s, request, nonce)
    ensures Run(Heard(s, request, nonce), Answer(Heard(s, request, nonce), reply, nonce')) ==
      Answered(Heard(s, request, nonce), reply, nonce', s.browser.pending)
  {
    AskIsHeard(s, request, nonce);
    FreshIsNotPending(s, request.requestId);
    AnswerIsLearned(Heard(s, request, nonce), reply, nonce', s.browser.pending);
  }

  /**
    Nothing stands in the way of an undisturbed request: the filter and the exact-next checks let it
    through, it is settled with the agent's answer, and everything is idle again.
  */
  lemma UndisturbedRequestsSucceed(s: System, request: Plain, reply: Plain, nonce: Nonce, nonce': Nonce)
    requires Invariant(s) && Idle(s) && s.agent.expectedInbound < U64_MAX && s.agent.outbound < U64_MAX
    requires request.Request? && FreshId(s, request.requestId) && request.operation in s.scopes
    requires reply.Reply? && reply.requestId == request.requestId
    ensures var heard := Run(s, Ask(s, request, nonce));
      heard.heard == s.heard + [request] &&
      var t := Run(heard, Answer(heard, reply, nonce'));
      var outcome := if reply.ok then B.Resolved(reply.body) else B.Rejected(B.AgentError(reply.body));
      && Idle(t)
      && t.browser.settled == s.browser.settled + [B.Settlement(request.requestId, outcome)]
      && t.browser.pending == s.browser.pending
  {
    AskedAndAnswered(s, request, reply, nonce, nonce');
  }

  /** An event emitted on an idle channel and carried over undisturbed reaches the page. */
  lemma UndisturbedEventsArrive(s: System, body: Json, nonce: Nonce)
    requires Links(s) && Idle(s) && s.agent.outbound < U64_MAX
    ensures var down := Seal(s.agent.key, nonce, s.agent.id, s.agent.kind, |s.replied|, Event(body));
      var t := Run(s, [AgentEmits(body, nonce), BrowserReceives(s.browser.hostId, down)]);
      && Idle(t)
      && t.delivered == s.delivered + [body]
      && (t.browser.pending, t.browser.settled) == (s.browser.pending, s.browser.settled)
  {
    var down := Seal(s.agent.key, nonce, s.agent.id, s.agent.kind, |s.replied|, Event(body));
    RunOfTwo(s, AgentEmits(body, nonce), BrowserReceives(s.browser.hostId, down));
    EmitLeaves(s, body, nonce);
    EventArrives(Emitted(s, body, nonce), body, down);
  }

  function Emitted(s: System, body: Json, nonce: Nonce): System
    requires s.agent.outbound < U64_MAX
  {
    var down := Seal(s.agent.key, nonce, s.agent.id, s.agent.kind, s.agent.outbound, Event(body));
    s.(
      agent := s.agent.(outbound := s.agent.outbound + 1),
      replied := s.replied + [Event(body)],
      sentDown := s.sentDown + {down.ciphertext})
  }

  /** An agent whose numbers have run out drops the channel instead. */
  lemma EmitLeaves(s: System, body: Json, nonce: Nonce)
    requires s.agentOpen
    ensures s.agent.outbound < U64_MAX ==> Step(s, AgentEmits(body, nonce)) == Emitted(s, body, nonce)
    ensures s.agent.outbound == U64_MAX ==> Step(s, AgentEmits(body, nonce)) == s.(agentOpen := false)
  {
  }

  lemma EventArrives(s: System, body: Json, down: Frame)
    requires !s.browser.closed && down.channelId == s.browser.channelId && down.ciphertext in s.sentDown
    requires B.Acceptable(s.browser, s.browser.hostId, down) && down.ciphertext.plain == Event(body)
    ensures Step(s, BrowserReceives(s.browser.hostId, down)) == s.(
      browser := s.browser.(expectedInbound := s.browser.expectedInbound + 1),
      delivered := s.delivered + [body],
      learned := s.learned + [Event(body)])
  {
    B.FramesAreTakenOrFatal(s.browser, s.browser.hostId, down);
    B.RepliesSettleTheirRequest(s.browser, s.browser.hostId, down);
  }

  // ---------- what is let through, and what ends a channel ----------

  /** The relay passes on exactly what its filter passes, and records its number. */
  lemma RelayPassesTheFilter(s: System, envelope: Envelope)
    requires s.entry.Some? && envelope.frame.channelId == s.agent.id
    requires MayArrive(s.agent.key, s.sentUp, envelope.frame)
    ensures var t := Step(s, RelayReceives(envelope));
      var entry := s.entry.value;
      if entry.hostId == envelope.hostId && entry.grant == envelope.grant && entry.channel == envelope.frame.channel
        && entry.lastSequence < envelope.frame.sequence
      then t == s.(
        entry := Some(entry.(lastSequence := envelope.frame.sequence)),
        sentOn := s.sentOn + {envelope.frame.ciphertext})
      else t == s
  {
  }

  /** The agent takes exactly a frame under its grant that opens at the next number; anything else ends the channel. */
  lemma AgentTakesOrDrops(s: System, grant: string, frame: Frame)
    requires s.agentOpen && frame.channelId == s.agent.id && MayArrive(s.agent.key, s.sentOn, frame)
    ensures var t := Step(s, AgentReceives(grant, frame));
      var taken := grant == s.grant && frame.channel == s.agent.kind
        && frame.sequence == s.agent.expectedInbound < U64_MAX
        && frame.ciphertext.Sealed? && frame.ciphertext.key == s.agent.key && frame.ciphertext.nonce == frame.nonce
        && frame.ciphertext.aad == Aad(s.agent.id, s.agent.kind, frame.sequence)
        && !frame.ciphertext.plain.Unreadable?;
      && t.heard == (if taken then s.heard + [frame.ciphertext.plain] else s.heard)
      && (t.agentOpen <==> taken && frame.ciphertext.plain.Request? && frame.ciphertext.plain.operation in s.scopes)
      && (t.replied, t.browser, t.entry) == (s.replied, s.browser, s.entry)
  {
  }

  /** A timer rejects its request if that is still waiting, and nothing else. */
  lemma TimerRejectsItsRequest(s: System, requestId: string)
    ensures var t := Step(s, Timeout(requestId));
      && t.browser.settled == s.browser.settled +
           (if requestId in s.browser.pending then [B.Settlement(requestId, B.Rejected(B.TimedOut))] else [])
      && |t.browser.pending| == |s.browser.pending| - (if requestId in s.browser.pending then 1 else 0)
      && t == s.(browser := s.browser.(pending := t.browser.pending, settled := t.browser.settled))
  {
    B.SettleTakesOne(s.browser, requestId, B.Rejected(B.TimedOut));
  }

  /** Once an end has left, it stays as it left; once the relay has, nothing more gets to the agent's link. */
  lemma {:induction false} LeavingIsFinal(s: System, leaving: Action, actions: seq<Action>)
    requires Ledger(s) && (leaving.AgentCloses? || leaving.RelayCloses? || leaving.BrowserDiscards?)
    ensures var t := Run(Step(s, leaving), actions);
      && (leaving.AgentCloses? ==> !t.agentOpen && (t.heard, t.replied) == (s.heard, s.replied))
      && (leaving.RelayCloses? ==> t.entry.None? && t.sentOn == s.sentOn)
      && (leaving.BrowserDiscards? ==>
            t.browser.closed && t.browser.pending == [] && (t.requested, t.learned) == (s.requested, s.learned))
    decreases |actions|
  {
    LedgerKept(s, leaving);
    var left := Step(s, leaving);
    if leaving.AgentCloses? { DroppedIsFinal(left, actions); }
    if leaving.BrowserDiscards? { ClosedIsFinal(left, actions); }
    if actions != [] { LeavingIsFinal(s, leaving, actions[..|actions| - 1]); }
  }

  // ---------- a request that never leaves ----------

  /** No ciphertext with the number is on its way to the agent. */
  predicate Absent(s: System, n: nat) {
    && n < |s.requested| && |s.heard| <= n
    && forall c :: c in s.sentUp + s.sentOn && c.Sealed? && c.key == s.agent.key ==>
      c.aad != Aad(s.agent.id, s.agent.kind, n)
  }

  lemma SendingKeepsAbsent(s: System, requestId: string, operation: string, body: Json, nonce: Nonce, sent: bool,
    n: nat)
    requires Links(s) && Absent(s, n)
    ensures Absent(BrowserSends(s, requestId, operation, body, nonce, sent), n)
  {
    if Aad(s.agent.id, s.agent.kind, |s.requested|) == Aad(s.agent.id, s.agent.kind, n) {
      AadBindsSequence(s.agent.id, s.agent.kind, |s.requested|, n);
    }
  }

  lemma AgentTakingKeepsAbsent(s: System, grant: string, frame: Frame, n: nat)
    requires Links(s) && Absent(s, n) && MayArrive(s.agent.key, s.sentOn, frame)
    ensures Absent(AgentTakes(s, grant, frame), n)
  {
    var (agent, result) := Decrypt(s.agent, frame);
    if result.Ok? { assert frame.ciphertext.aad == Aad(s.agent.id, s.agent.kind, |s.heard|); }
  }

  lemma AbsentStep(s: System, action: Action, n: nat)
    requires Links(s) && Absent(s, n)
    ensures Absent(Step(s, action), n)
  {
    match action
    case Rpc(requestId, operation, body, nonce, sent) =>
      SendingKeepsAbsent(s, requestId, operation, body, nonce, sent, n);
    case AgentReceives(grant, frame) =>
      if MayArrive(s.agent.key, s.sentOn, frame) { AgentTakingKeepsAbsent(s, grant, frame, n); }
    case _ =>
  }

  lemma {:induction false} AbsentStays(s: System, actions: seq<Action>, n: nat)
    requires Links(s) && Absent(s, n)
    ensures Links(Run(s, actions)) && Absent(Run(s, actions), n)
    decreases |actions|
  {
    if actions != [] {
      var front := actions[..|actions| - 1];
      AbsentStays(s, front, n);
      AbsentStep(Run(s, front), actions[|actions| - 1], n);
      LinksKept(Run(s, front), actions[|actions| - 1]);
    }
  }

  /**
    A request whose frame could not be sent has used up its number all the same: neither it nor any
    request after it is ever heard, whatever happens on the channel.
  */
  lemma UnsentRequestBlocksTheChannel(s: System, requestId: string, operation: string, body: Json, nonce: Nonce,
    actions: seq<Action>)
    requires Invariant(s) && FreshId(s, requestId) && !s.browser.closed
    ensures var t := Run(Step(s, Rpc(requestId, operation, body, nonce, false)), actions);
      && |t.requested| > |s.requested| && |t.heard| <= |s.requested|
  {
    var action := Rpc(requestId, operation, body, nonce, false);
    var n := |s.requested|;
    LinksKept(s, action);
    NumbersAreTheirOwn(s);
    AbsentStays(Step(s, action), actions, n);
  }

  /** Nothing on its way to the agent has the number of a request yet to be made. */
  lemma NumbersAreTheirOwn(s: System)
    requires Links(s)
    ensures forall c :: c in s.sentUp + s.sentOn && c.Sealed? && c.key == s.agent.key ==>
      c.aad != Aad(s.agent.id, s.agent.kind, |s.requested|)
  {
    forall c | c in s.sentUp + s.sentOn && c.Sealed? && c.key == s.agent.key
      ensures c.aad != Aad(s.agent.id, s.agent.kind, |s.requested|)
    {
      var i :| 0 <= i < |s.requested| && c.aad == Aad(s.agent.id, s.agent.kind, i) && c.plain == s.requested[i];
      if c.aad == Aad(s.agent.id, s.agent.kind, |s.requested|) {
        AadBindsSequence(s.agent.id, s.agent.kind, i, |s.requested|);
      }
    }
  }

  lemma FreshIsNotPending(s: System, requestId: string)
    requires Ledger(s) && FreshId(s, requestId)
    ensures requestId !in s.browser.pending
  {
    assert multiset(s.browser.pending) <= Accounted(s.browser);
    assert requestId !in Ids(s.requested);
    assert requestId !in multiset(Ids(s.requested));
    assert requestId !in multiset(s.browser.pending);
  }

  lemma {:induction false} FindsLast(pending: seq<string>, requestId: string)
    requires requestId !in pending
    ensures B.Find(pending + [requestId], requestId) == Some(|pending|)
  {
    if pending != [] {
      assert (pending + [requestId])[1..] == pending[1..] + [requestId];
      FindsLast(pending[1..], requestId);
    }
  }
}
