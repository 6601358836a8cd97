/**
  The agent's end of an encrypted channel (`crates/agent/src/crypto.rs`).

  The cipher is ideal: a ciphertext opens only under the key, nonce and associated data it was
  sealed with. Anything else that may arrive is `Forged`.
*/
module SecureChannel {
  import opened Wrappers
  import opened Json

  type Key = int
  type Nonce = int

  /** A decrypted payload; `Unreadable` is one that is not valid JSON of the expected kind. */
  datatype Plain =
    | Request(requestId: string, operation: string, body: Json)
    | Reply(requestId: string, ok: bool, body: Json)
    | Event(body: Json)
    | Unreadable

  datatype Ciphertext =
    | Sealed(key: Key, nonce: Nonce, aad: string, plain: Plain)
    | Forged

  datatype Frame = Frame(channelId: string, channel: string, sequence: nat, nonce: Nonce, ciphertext: Ciphertext)

  // ---------- associated data ----------

  function Decimal(n: nat): (digits: string)
    ensures |digits| >= 1
  {
    var last := ['0' + (n % 10) as char];
    if n < 10 then last else Decimal(n / 10) + last
  }

  function Aad(channelId: string, channel: string, sequence: nat): string {
    channelId + "\n" + channel + "\n" + Decimal(sequence)
  }

  lemma {:induction false} DecimalIsInjective(m: nat, n: nat)
    requires Decimal(m) == Decimal(n)
    ensures m == n
  {
    var dm, dn := Decimal(m), Decimal(n);
    assert dm[|dm| - 1] == '0' + (m % 10) as char;
    assert dn[|dn| - 1] == '0' + (n % 10) as char;
    assert m % 10 == n % 10;
    if m >= 10 && n >= 10 {
      assert dm[..|dm| - 1] == Decimal(m / 10) && dn[..|dn| - 1] == Decimal(n / 10);
      DecimalIsInjective(m / 10, n / 10);
    }
  }

  function DigitsValue(digits: string): nat {
    if digits == [] || !('0' <= digits[|digits| - 1] <= '9') then 0
    else 10 * DigitsValue(digits[..|digits| - 1]) + (digits[|digits| - 1] - '0') as nat
  }

  /** The digits read as the number, without leading zeros. */
  lemma {:induction false} DecimalReadsBack(n: nat)
    ensures DigitsValue(Decimal(n)) == n
    ensures forall i :: 0 <= i < |Decimal(n)| ==> '0' <= Decimal(n)[i] <= '9'
    ensures n > 0 ==> Decimal(n)[0] != '0'
    ensures n == 0 ==> Decimal(n) == "0"
  {
    if n >= 10 {
      DecimalReadsBack(n / 10);
      var digits := Decimal(n);
      assert digits[..|digits| - 1] == Decimal(n / 10);
    } else {
      assert Decimal(n)[..0] == [];
    }
  }

  /** On one channel the associated data gives away the sequence number. */
  lemma AadBindsSequence(channelId: string, channel: string, m: nat, n: nat)
    requires Aad(channelId, channel, m) == Aad(channelId, channel, n)
    ensures m == n
  {
    var head := channelId + "\n" + channel + "\n";
    assert Aad(channelId, channel, m)[|head|..] == Decimal(m);
    assert Aad(channelId, channel, n)[|head|..] == Decimal(n);
    DecimalIsInjective(m, n);
  }

  lemma AadExample()
    ensures Aad("c1", "kimi", 12) == "c1\nkimi\n12"
  {
    assert Decimal(1) == "1";
  }

  lemma {:induction false} FirstLine(a: string, b: string, a': string, b': string)
    requires '\n' !in a && '\n' !in a' && a + "\n" + b == a' + "\n" + b'
    ensures a == a' && b == b'
  {
    var line, line' := a + "\n" + b, a' + "\n" + b';
    assert line[|a|] == '\n' && line'[|a'|] == '\n';
    assert forall i :: 0 <= i < |a| ==> line[i] == a[i] && a[i] != '\n';
    assert forall i :: 0 <= i < |a'| ==> line'[i] == a'[i] && a'[i] != '\n';
    assert line[..|a|] == a && line'[..|a'|] == a';
    assert line[|a| + 1..] == b && line'[|a'| + 1..] == b';
  }

  /** Where ids and kinds are single lines the associated data gives everything away. */
  lemma AadBindsEverything(id: string, kind: string, n: nat, id': string, kind': string, n': nat)
    requires '\n' !in id && '\n' !in kind && '\n' !in id' && '\n' !in kind'
    requires Aad(id, kind, n) == Aad(id', kind', n')
    ensures (id, kind, n) == (id', kind', n')
  {
    assert Aad(id, kind, n) == id + "\n" + (kind + "\n" + Decimal(n));
    assert Aad(id', kind', n') == id' + "\n" + (kind' + "\n" + Decimal(n'));
    FirstLine(id, kind + "\n" + Decimal(n), id', kind' + "\n" + Decimal(n'));
    FirstLine(kind, Decimal(n), kind', Decimal(n'));
    DecimalIsInjective(n, n');
  }

  // ---------- the ideal cipher ----------

  function Seal(key: Key, nonce: Nonce, channelId: string, channel: string, sequence: nat, plain: Plain): Frame {
    Frame(channelId, channel, sequence, nonce, Sealed(key, nonce, Aad(channelId, channel, sequence), plain))
  }

  function Open(key: Key, aad: string, frame: Frame): Option<Plain> {
    match frame.ciphertext
    case Sealed(key', nonce', aad', plain) =>
      if key' == key && nonce' == frame.nonce && aad' == aad then Some(plain) else None
    case Forged => None
  }

  // ---------- counters ----------

  const U64_MAX: nat := 0xFFFF_FFFF_FFFF_FFFF
  type U64 = n: nat | n <= U64_MAX

  datatype DecryptError = ChannelMismatch | OutOfOrder | NotAuthentic | InvalidPayload | Exhausted

  datatype Channel = Channel(id: string, kind: string, key: Key, expectedInbound: U64, outbound: U64)

  function Decrypt(channel: Channel, frame: Frame): (Channel, Result<Plain, DecryptError>) {
    if frame.channelId != channel.id || frame.channel != channel.kind then (channel, Err(ChannelMismatch))
    else if frame.sequence != channel.expectedInbound then (channel, Err(OutOfOrder))
    else
      var plain := Open(channel.key, Aad(channel.id, channel.kind, frame.sequence), frame);
      if plain.None? then (channel, Err(NotAuthentic))
      else if plain.value.Unreadable? then (channel, Err(InvalidPayload))
      else if channel.expectedInbound == U64_MAX then (channel, Err(Exhausted))
      else (channel.(expectedInbound := channel.expectedInbound + 1), Ok(plain.value))
  }

  function Encrypt(channel: Channel, plain: Plain, nonce: Nonce): (Channel, Option<Frame>) {
    if channel.outbound == U64_MAX then (channel, None)
    else (channel.(outbound := channel.outbound + 1),
      Some(Seal(channel.key, nonce, channel.id, channel.kind, channel.outbound, plain)))
  }

  class AgentChannel {
    const id: string
    const kind: string
    const key: Key
    var expectedInbound: U64
    var outbound: U64

    function View(): Channel
      reads this
    {
      Channel(id, kind, key, expectedInbound, outbound)
    }

    constructor (id: string, kind: string, key: Key)
      ensures View() == Channel(id, kind, key, 0, 0)
    {
      this.id, this.kind, this.key := id, kind, key;
      expectedInbound, outbound := 0, 0;
    }

    /** `decrypt`: the counter moves only when a plaintext is returned. */
    method DecryptFrame(frame: Frame) returns (result: Result<Plain, DecryptError>)
      modifies this
      ensures (View(), result) == Decrypt(old(View()), frame)
      ensures result.Err? ==> View() == old(View())
      ensures result.Err? ==>
        result.error == (
          if frame.channelId != id || frame.channel != kind then ChannelMismatch
          else if frame.sequence != expectedInbound then OutOfOrder
          else if Open(key, Aad(id, kind, frame.sequence), frame).None? then NotAuthentic
          else if Open(key, Aad(id, kind, frame.sequence), frame).value.Unreadable? then InvalidPayload
          else Exhausted)
      ensures result.Ok? ==>
        && View() == old(View()).(expectedInbound := old(expectedInbound) + 1)
        && frame.sequence == old(expectedInbound)
        && Open(key, Aad(id, kind, frame.sequence), frame) == Some(result.value)
    {
      if frame.channelId != id || frame.channel != kind {
        return Err(ChannelMismatch);
      }
      if frame.sequence != expectedInbound {
        return Err(OutOfOrder);
      }
      var plain := Open(key, Aad(id, kind, frame.sequence), frame);
      if plain.None? {
        return Err(NotAuthentic);
      }
      if plain.value.Unreadable? {
        return Err(InvalidPayload);
      }
      if expectedInbound == U64_MAX {
        return Err(Exhausted);
      }
      expectedInbound := expectedInbound + 1;
      return Ok(plain.value);
    }

    /** `encrypt`: a sequence number is used at most once. */
    method EncryptPlain(plain: Plain, nonce: Nonce) returns (frame: Option<Frame>)
      modifies this
      ensures (View(), frame) == Encrypt(old(View()), plain, nonce)
      ensures frame.None? <==> old(outbound) == U64_MAX
      ensures frame.Some? ==>
        && View() == old(View()).(outbound := old(outbound) + 1)
        && frame.value == Seal(key, nonce, id, kind, old(outbound), plain)
    {
      var sequence := outbound;
      if outbound == U64_MAX {
        return None;
      }
      outbound := outbound + 1;
      return Some(Seal(key, nonce, id, kind, sequence, plain));
    }
  }

  /** Opening what was sealed for the same channel gives the plaintext back, at its own number only. */
  lemma SealedFramesOpenInPlace(channel: Channel, nonce: Nonce, sequence: nat, plain: Plain, header: Frame)
    requires header.ciphertext == Seal(channel.key, nonce, channel.id, channel.kind, sequence, plain).ciphertext
    ensures Decrypt(channel, header).1.Ok? <==>
      && header == Seal(channel.key, nonce, channel.id, channel.kind, sequence, plain)
      && sequence == channel.expectedInbound < U64_MAX
      && !plain.Unreadable?
    ensures Decrypt(channel, header).1.Ok? ==> Decrypt(channel, header).1.value == plain
  {
    if Aad(channel.id, channel.kind, header.sequence) == Aad(channel.id, channel.kind, sequence) {
      AadBindsSequence(channel.id, channel.kind, header.sequence, sequence);
    }
  }
}
