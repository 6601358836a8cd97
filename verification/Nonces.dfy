/**
  Single-use nonces of grants and agent hellos (`consumeNonce` in `apps/control-plane/src/database.ts`,
  `GrantSigner.verify` in `crypto.ts` and `verifyAgentHello` in `relay.ts`). Times are milliseconds of
  a clock that does not run backwards; nonces stand for their hashes.
*/
module Nonces {
  // ---------- the table ----------

  /** Rows that have not expired at `now`. */
  function Purge(rows: map<string, int>, now: int): map<string, int> {
    map nonce | nonce in rows && rows[nonce] > now :: rows[nonce]
  }

  class NonceTable {
    var rows: map<string, int>

    constructor ()
      ensures rows == map[]
    {
      rows := map[];
    }

    /** Expired rows go first, then the insert fails if the nonce is still there. */
    method ConsumeNonce(nonce: string, expiresAt: int, now: int) returns (consumed: bool)
      modifies this
      ensures consumed <==> nonce !in Purge(old(rows), now)
      ensures rows == if consumed then Purge(old(rows), now)[nonce := expiresAt] else Purge(old(rows), now)
    {
      rows := Purge(rows, now);
      if nonce in rows { return false; }
      rows := rows[nonce := expiresAt];
      return true;
    }
  }

  // ---------- runs ----------

  /** One message that gets as far as the table if it is `eligible`; `now` is the clock read there. */
  datatype Attempt = Attempt(nonce: string, expiresAt: int, now: int, eligible: bool)

  function Rows(attempts: seq<Attempt>): map<string, int> {
    if attempts == [] then map[]
    else
      var n := |attempts| - 1;
      var left := Purge(Rows(attempts[..n]), attempts[n].now);
      if !attempts[n].eligible then Rows(attempts[..n])
      else if attempts[n].nonce in left then left
      else left[attempts[n].nonce := attempts[n].expiresAt]
  }

  /** Message `i` is let through. */
  predicate Consumes(attempts: seq<Attempt>, i: nat)
    requires i < |attempts|
  {
    attempts[i].eligible && attempts[i].nonce !in Purge(Rows(attempts[..i]), attempts[i].now)
  }

  predicate Clocked(attempts: seq<Attempt>) {
    forall i, j :: 0 <= i < j < |attempts| ==> attempts[i].now <= attempts[j].now
  }

  /** While nobody else consumes it, a consumed nonce stays in the table until it expires. */
  lemma {:induction false} ConsumedNonceStays(attempts: seq<Attempt>, i: nat, m: nat)
    requires i < m <= |attempts| && Clocked(attempts) && Consumes(attempts, i)
    requires forall k :: i < k < m && attempts[k].nonce == attempts[i].nonce ==> !Consumes(attempts, k)
    ensures var rows := Rows(attempts[..m]);
      if attempts[i].nonce in rows then rows[attempts[i].nonce] == attempts[i].expiresAt
      else attempts[i].expiresAt <= attempts[m - 1].now
    decreases m
  {
    assert attempts[..m][..m - 1] == attempts[..m - 1] && attempts[..m][m - 1] == attempts[m - 1];
    if m > i + 1 {
      ConsumedNonceStays(attempts, i, m - 1);
      if attempts[m - 1].nonce == attempts[i].nonce { assert !Consumes(attempts, m - 1); }
    }
  }

  /** A nonce is let through again exactly if its row had expired by the time the table was consulted. */
  lemma SecondUseNeedsExpiry(attempts: seq<Attempt>, i: nat, j: nat)
    requires i < j < |attempts| && Clocked(attempts) && attempts[i].nonce == attempts[j].nonce && Consumes(attempts, i)
    requires forall k :: i < k < j && attempts[k].nonce == attempts[i].nonce ==> !Consumes(attempts, k)
    ensures Consumes(attempts, j) <==> attempts[j].eligible && attempts[i].expiresAt <= attempts[j].now
  {
    ConsumedNonceStays(attempts, i, j);
  }

  /** Whatever else arrives, the row of a consumed nonce stays while its expiry has not come. */
  lemma {:induction false} RowStaysUntilExpiry(attempts: seq<Attempt>, i: nat, m: nat)
    requires i < m <= |attempts| && Clocked(attempts) && Consumes(attempts, i)
    requires attempts[m - 1].now < attempts[i].expiresAt
    ensures attempts[i].nonce in Rows(attempts[..m]) && Rows(attempts[..m])[attempts[i].nonce] == attempts[i].expiresAt
    decreases m
  {
    assert attempts[..m][..m - 1] == attempts[..m - 1] && attempts[..m][m - 1] == attempts[m - 1];
    if m > i + 1 {
      RowStaysUntilExpiry(attempts, i, m - 1);
    }
  }

  /** A row comes from a message that was let through. */
  lemma {:induction false} RowsAreConsumed(attempts: seq<Attempt>, m: nat, nonce: string)
    requires m <= |attempts| && nonce in Rows(attempts[..m])
    ensures exists i :: 0 <= i < m && attempts[i].nonce == nonce && Consumes(attempts, i)
    decreases m
  {
    assert m > 0 && attempts[..m][..m - 1] == attempts[..m - 1] && attempts[..m][m - 1] == attempts[m - 1];
    if nonce in Rows(attempts[..m - 1]) {
      RowsAreConsumed(attempts, m - 1, nonce);
    } else {
      assert Consumes(attempts, m - 1);
    }
  }

  /** So a nonce is never let through twice before the first use has expired. */
  lemma SecondUseIsBehindExpiry(attempts: seq<Attempt>, i: nat, j: nat)
    requires i < j < |attempts| && Clocked(attempts) && attempts[i].nonce == attempts[j].nonce
    requires Consumes(attempts, i) && Consumes(attempts, j)
    ensures attempts[i].expiresAt <= attempts[j].now
  {
    if attempts[j].now < attempts[i].expiresAt {
      RowStaysUntilExpiry(attempts, i, j);
    }
  }

  // ---------- grants and hellos share the table ----------

  const HELLO_SKEW_MS := 60_000
  const HELLO_NONCE_MS := 120_000

  /** `issuedAt` and `expiresAt` are seconds. */
  datatype Grant = Grant(nonce: string, issuedAt: int, expiresAt: int)

  /** The time checks of `verify`. */
  predicate Verifies(grant: Grant, nowMs: nat) {
    var now := nowMs / 1000;
    grant.issuedAt <= now + 15 && grant.expiresAt > now
  }

  /** In milliseconds: not more than 15 seconds before it was issued, and before it expires. */
  lemma VerifiesInMillis(grant: Grant, nowMs: nat)
    ensures Verifies(grant, nowMs) <==> (grant.issuedAt - 15) * 1000 <= nowMs < grant.expiresAt * 1000
  {
  }

  /**
    A channel open reads the clock twice; `bound` covers signature, subject, host and scope. A hello
    comes from a known host and one clock reading serves the whole message.
  */
  datatype Message =
    | ChannelOpen(grant: Grant, verifiedAt: nat, consumedAt: nat, bound: bool)
    | Hello(nonce: string, timestamp: int, now: int)

  function AsAttempt(message: Message): Attempt {
    match message
    case ChannelOpen(grant, verifiedAt, consumedAt, bound) =>
      Attempt(grant.nonce, grant.expiresAt * 1000, consumedAt, bound && Verifies(grant, verifiedAt))
    case Hello(nonce, timestamp, now) =>
      Attempt(nonce, now + HELLO_NONCE_MS, now, -HELLO_SKEW_MS <= now - timestamp <= HELLO_SKEW_MS)
  }

  function AsAttempts(messages: seq<Message>): (attempts: seq<Attempt>)
    ensures |attempts| == |messages| && forall i :: 0 <= i < |messages| ==> attempts[i] == AsAttempt(messages[i])
  {
    seq(|messages|, i requires 0 <= i < |messages| => AsAttempt(messages[i]))
  }

  /** Message `i` gets past the table. */
  predicate LetThrough(messages: seq<Message>, i: nat)
    requires i < |messages|
  {
    Consumes(AsAttempts(messages), i)
  }

  /** The message is in time and, if it opens a channel, bound. */
  predicate Acceptable(message: Message) {
    match message
    case ChannelOpen(grant, verifiedAt, _, bound) =>
      bound && (grant.issuedAt - 15) * 1000 <= verifiedAt < grant.expiresAt * 1000
    case Hello(_, timestamp, now) => timestamp - 60_000 <= now <= timestamp + 60_000
  }

  /** Nothing gets past the table unless it is acceptable; the first acceptable use of a nonce always does. */
  lemma FirstUsePasses(messages: seq<Message>, j: nat)
    requires j < |messages|
    ensures LetThrough(messages, j) ==> Acceptable(messages[j])
    ensures (forall i :: 0 <= i < j && AsAttempt(messages[i]).nonce == AsAttempt(messages[j]).nonce ==>
        !LetThrough(messages, i)) ==>
      (LetThrough(messages, j) <==> Acceptable(messages[j]))
  {
    var attempts := AsAttempts(messages);
    if attempts[j].nonce in Rows(attempts[..j]) { RowsAreConsumed(attempts, j, attempts[j].nonce); }
  }

  /** With one clock reading per message a grant opens at most one channel, whatever else uses its nonce. */
  lemma GrantOpensOneChannel(messages: seq<Message>, i: nat, j: nat)
    requires i < j < |messages| && Clocked(AsAttempts(messages)) && messages[i].ChannelOpen? && messages[j].ChannelOpen?
    requires messages[i].grant == messages[j].grant && messages[j].verifiedAt == messages[j].consumedAt
    ensures !(LetThrough(messages, i) && LetThrough(messages, j))
  {
    if LetThrough(messages, i) && LetThrough(messages, j) {
      SecondUseIsBehindExpiry(AsAttempts(messages), i, j);
    }
  }

  /**
    With two readings it opens another one only if it expires between them; if its nonce was not used
    again meanwhile, exactly then.
  */
  lemma GrantReopensOnlyAcrossExpiry(messages: seq<Message>, i: nat, j: nat)
    requires i < j < |messages| && Clocked(AsAttempts(messages)) && messages[i].ChannelOpen? && messages[j].ChannelOpen?
    requires messages[i].grant == messages[j].grant && messages[j].bound
    requires messages[j].grant.issuedAt <= messages[j].verifiedAt / 1000 + 15
    requires LetThrough(messages, i)
    ensures LetThrough(messages, j) ==>
      messages[j].verifiedAt < messages[j].grant.expiresAt * 1000 <= messages[j].consumedAt
    ensures NotUsedBetween(messages, i, j) ==>
      (LetThrough(messages, j) <==>
        messages[j].verifiedAt < messages[j].grant.expiresAt * 1000 <= messages[j].consumedAt)
  {
    var attempts := AsAttempts(messages);
    if LetThrough(messages, j) { SecondUseIsBehindExpiry(attempts, i, j); }
    if NotUsedBetween(messages, i, j) { SecondUseNeedsExpiry(attempts, i, j); }
  }

  /** The nonce of message `i` does not get past the table again before message `j`. */
  predicate NotUsedBetween(messages: seq<Message>, i: nat, j: nat)
    requires i < j <= |messages|
  {
    forall k :: i < k < j && AsAttempt(messages[k]).nonce == AsAttempt(messages[i]).nonce ==> !LetThrough(messages, k)
  }

  /** It happens: the grant is verified in its last millisecond, and its row has gone a millisecond later. */
  lemma ReopenedGrantExample()
    ensures var grant := Grant("n", 0, 60);
      var messages := [ChannelOpen(grant, 1, 1, true), ChannelOpen(grant, 59_999, 60_000, true)];
      Clocked(AsAttempts(messages)) && LetThrough(messages, 0) && LetThrough(messages, 1)
  {
    var grant := Grant("n", 0, 60);
    var messages := [ChannelOpen(grant, 1, 1, true), ChannelOpen(grant, 59_999, 60_000, true)];
    var attempts := AsAttempts(messages);
    assert attempts[..0] == [];
    assert NotUsedBetween(messages, 0, 1);
    GrantReopensOnlyAcrossExpiry(messages, 0, 1);
  }

  /**
    The table lets a copy of a hello through again only in one case: the first use was exactly 60 s
    before its timestamp, and the copy arrives exactly 60 s after it; if its nonce was not used again
    meanwhile, exactly then.
  */
  lemma HelloReplayNeedsTheBoundary(messages: seq<Message>, i: nat, j: nat)
    requires i < j < |messages| && Clocked(AsAttempts(messages)) && messages[i].Hello? && messages[j].Hello?
    requires messages[i].nonce == messages[j].nonce && messages[i].timestamp == messages[j].timestamp
    requires LetThrough(messages, i)
    ensures LetThrough(messages, j) ==> AtBoundary(messages[i], messages[j])
    ensures NotUsedBetween(messages, i, j) ==> (LetThrough(messages, j) <==> AtBoundary(messages[i], messages[j]))
  {
    var attempts := AsAttempts(messages);
    if LetThrough(messages, j) { SecondUseIsBehindExpiry(attempts, i, j); }
    if NotUsedBetween(messages, i, j) { SecondUseNeedsExpiry(attempts, i, j); }
  }

  predicate AtBoundary(first: Message, copy: Message)
    requires first.Hello? && copy.Hello?
  {
    first.now == first.timestamp - HELLO_SKEW_MS && copy.now == copy.timestamp + HELLO_SKEW_MS
  }

  /** It happens. */
  lemma ReplayedHelloExample()
    ensures var messages := [Hello("n", 60_000, 0), Hello("n", 60_000, 120_000)];
      Clocked(AsAttempts(messages)) && LetThrough(messages, 0) && LetThrough(messages, 1)
  {
    var messages := [Hello("n", 60_000, 0), Hello("n", 60_000, 120_000)];
    var attempts := AsAttempts(messages);
    assert attempts[..0] == [];
    assert NotUsedBetween(messages, 0, 1);
    HelloReplayNeedsTheBoundary(messages, 0, 1);
  }

  /**
    A hello first let through less than 60 s before its timestamp is never let through again, whatever
    else arrives, forged hellos with its nonce included.
  */
  lemma HelloIsAcceptedOnce(messages: seq<Message>, i: nat, j: nat)
    requires i < j < |messages| && Clocked(AsAttempts(messages)) && messages[i].Hello? && messages[j].Hello?
    requires messages[i].nonce == messages[j].nonce && messages[i].timestamp == messages[j].timestamp
    requires LetThrough(messages, i) && messages[i].now > messages[i].timestamp - HELLO_SKEW_MS
    ensures !LetThrough(messages, j)
  {
    HelloReplayNeedsTheBoundary(messages, i, j);
  }
}
