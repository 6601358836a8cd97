/**
  Terminal scrollback (`route_output` in `crates/agent/src/terminal.rs`): bytes of UTF-8 text, cut
  from the front at a character boundary. Characters are encoded as in section 3 of RFC 3629.
*/
module Scrollback {
  type Byte = b: int | 0 <= b < 0x100
  type Scalar = c: int | 0 <= c < 0x11_0000 && !(0xD800 <= c < 0xE000)

  const MAX_SCROLLBACK_BYTES := 256 * 1024

  function Encode(c: Scalar): (bytes: seq<Byte>)
    ensures 1 <= |bytes| <= 4
    ensures !IsContinuation(bytes[0])
    ensures forall i :: 1 <= i < |bytes| ==> IsContinuation(bytes[i])
  {
    if c < 0x80 then [c]
    else if c < 0x800 then [0xC0 + c / 0x40, 0x80 + c % 0x40]
    else if c < 0x1_0000 then [0xE0 + c / 0x1000, 0x80 + c / 0x40 % 0x40, 0x80 + c % 0x40]
    else [0xF0 + c / 0x4_0000, 0x80 + c / 0x1000 % 0x40, 0x80 + c / 0x40 % 0x40, 0x80 + c % 0x40]
  }

  /** What a byte says beyond the marker in its upper bits. */
  function Payload(b: int, marker: int): int {
    b - marker
  }

  /** The character that bytes of UTF-8 stand for, by the table of section 3 of RFC 3629. */
  function Value(b: seq<Byte>): int
    requires 1 <= |b| <= 4
  {
    match |b|
    case 1 => b[0]
    case 2 => Payload(b[0], 0xC0) * 0x40 + Payload(b[1], 0x80)
    case 3 => Payload(b[0], 0xE0) * 0x1000 + Payload(b[1], 0x80) * 0x40 + Payload(b[2], 0x80)
    case _ =>
      Payload(b[0], 0xF0) * 0x4_0000 + Payload(b[1], 0x80) * 0x1000
      + Payload(b[2], 0x80) * 0x40 + Payload(b[3], 0x80)
  }

  lemma SixBits(c: nat)
    ensures c == c / 0x40 * 0x40 + c % 0x40
    ensures c / 0x1000 == c / 0x40 / 0x40 && c / 0x4_0000 == c / 0x1000 / 0x40
  {
  }

  /** The first byte tells the length, and the shortest form is used. */
  lemma EncodeIsShortest(c: Scalar)
    ensures |Encode(c)| == if c < 0x80 then 1 else if c < 0x800 then 2 else if c < 0x1_0000 then 3 else 4
    ensures match |Encode(c)|
      case 1 => Encode(c)[0] < 0x80
      case 2 => 0xC0 <= Encode(c)[0] < 0xE0
      case 3 => 0xE0 <= Encode(c)[0] < 0xF0
      case _ => 0xF0 <= Encode(c)[0] < 0xF8
  {
  }

  /** The character can be read back. */
  lemma EncodeReadsBack(c: Scalar)
    ensures Value(Encode(c)) == c
  {
    EncodeIsShortest(c);
    SixBits(c);
    SixBits(c / 0x40);
    SixBits(c / 0x1000);
  }

  predicate IsContinuation(b: Byte) {
    0x80 <= b < 0xC0
  }

  function EncodeAll(text: seq<Scalar>): seq<Byte> {
    if text == [] then [] else Encode(text[0]) + EncodeAll(text[1..])
  }

  /** Rust's `is_char_boundary`. */
  predicate IsBoundary(bytes: seq<Byte>, i: nat) {
    i == 0 || i == |bytes| || (i < |bytes| && !IsContinuation(bytes[i]))
  }

  /** Rust's `ceil_char_boundary`: the first boundary at or after `i`. */
  function CeilBoundary(bytes: seq<Byte>, i: nat): (at: nat)
    ensures at <= |bytes| && IsBoundary(bytes, at)
    ensures i <= |bytes| ==> i <= at && forall j :: i <= j < at ==> !IsBoundary(bytes, j)
    decreases |bytes| - i
  {
    if i >= |bytes| then |bytes|
    else if IsBoundary(bytes, i) then i
    else CeilBoundary(bytes, i + 1)
  }

  /** What `route_output` leaves of the scrollback. */
  function Trim(bytes: seq<Byte>): seq<Byte> {
    if |bytes| > MAX_SCROLLBACK_BYTES then bytes[CeilBoundary(bytes, |bytes| - MAX_SCROLLBACK_BYTES)..] else bytes
  }

  /** The longest suffix of the text that fits. */
  function Tail(text: seq<Scalar>): seq<Scalar> {
    if |EncodeAll(text)| <= MAX_SCROLLBACK_BYTES then text
    else Tail(text[1..])
  }

  lemma {:induction false} TailIsLongest(text: seq<Scalar>) returns (k: nat)
    ensures k <= |text| && Tail(text) == text[k..]
    ensures |EncodeAll(text[k..])| <= MAX_SCROLLBACK_BYTES
    ensures forall j :: 0 <= j < k ==> |EncodeAll(text[j..])| > MAX_SCROLLBACK_BYTES
  {
    if |EncodeAll(text)| <= MAX_SCROLLBACK_BYTES {
      assert text[0..] == text;
      k := 0;
    } else {
      var rest := TailIsLongest(text[1..]);
      k := rest + 1;
      assert forall j :: 1 <= j <= k ==> text[1..][j - 1..] == text[j..];
      assert text[0..] == text;
      forall j | 0 <= j < k ensures |EncodeAll(text[j..])| > MAX_SCROLLBACK_BYTES {
        if j > 0 { assert text[1..][j - 1..] == text[j..]; }
      }
    }
  }

  // ---------- boundaries of encoded text are its characters ----------

  function DropBytes(text: seq<Scalar>, count: int): seq<Scalar> {
    if count <= 0 || text == [] then text else DropBytes(text[1..], count - |Encode(text[0])|)
  }

  lemma FirstBoundary(bytes: seq<Byte>, i: nat, at: nat)
    requires i <= at <= |bytes| && IsBoundary(bytes, at)
    requires forall j :: i <= j < at ==> !IsBoundary(bytes, j)
    ensures CeilBoundary(bytes, i) == at
  {
    var found := CeilBoundary(bytes, i);
    assert IsBoundary(bytes, found);
  }

  /** Behind the first character, boundaries are those of the rest. */
  lemma BoundariesOfRest(c: Scalar, rest: seq<Byte>, j: nat)
    requires rest == [] || !IsContinuation(rest[0])
    ensures 0 < j < |Encode(c)| ==> !IsBoundary(Encode(c) + rest, j)
    ensures |Encode(c)| <= j ==> (IsBoundary(Encode(c) + rest, j) <==> IsBoundary(rest, j - |Encode(c)|))
  {
  }

  lemma CeilBehindFirst(c: Scalar, rest: seq<Byte>, i: nat)
    requires rest == [] || !IsContinuation(rest[0])
    requires 0 < i <= |Encode(c)| + |rest|
    ensures var n := |Encode(c)|;
      CeilBoundary(Encode(c) + rest, i) == if i <= n then n else n + CeilBoundary(rest, i - n)
  {
    var n := |Encode(c)|;
    var all := Encode(c) + rest;
    var at := if i <= n then n else n + CeilBoundary(rest, i - n);
    BoundariesOfRest(c, rest, at);
    forall j | i <= j < at ensures !IsBoundary(all, j) {
      BoundariesOfRest(c, rest, j);
    }
    FirstBoundary(all, i, at);
  }

  lemma StartsCharacter(text: seq<Scalar>)
    ensures EncodeAll(text) == [] || !IsContinuation(EncodeAll(text)[0])
  {
  }

  lemma DropBehind(bytes: seq<Byte>, rest: seq<Byte>, at: nat)
    requires at <= |rest|
    ensures (bytes + rest)[|bytes| + at..] == rest[at..]
  {
  }

  /** Looking for a boundary skips whole characters. */
  lemma {:induction false} CeilSkipsCharacters(text: seq<Scalar>, i: nat)
    requires i <= |EncodeAll(text)|
    ensures EncodeAll(text)[CeilBoundary(EncodeAll(text), i)..] == EncodeAll(DropBytes(text, i))
    decreases |text|
  {
    if i > 0 {
      var rest := EncodeAll(text[1..]);
      var n := |Encode(text[0])|;
      StartsCharacter(text[1..]);
      CeilBehindFirst(text[0], rest, i);
      if i <= n {
        DropBehind(Encode(text[0]), rest, 0);
      } else {
        CeilSkipsCharacters(text[1..], i - n);
        DropBehind(Encode(text[0]), rest, CeilBoundary(rest, i - n));
      }
    }
  }

  lemma {:induction false} TailDropsBytes(text: seq<Scalar>)
    ensures Tail(text) == DropBytes(text, |EncodeAll(text)| - MAX_SCROLLBACK_BYTES)
  {
    if |EncodeAll(text)| > MAX_SCROLLBACK_BYTES {
      TailDropsBytes(text[1..]);
    }
  }

  lemma TrimIsTail(text: seq<Scalar>)
    ensures Trim(EncodeAll(text)) == EncodeAll(Tail(text))
  {
    var bytes := EncodeAll(text);
    var over := |bytes| - MAX_SCROLLBACK_BYTES;
    TailDropsBytes(text);
    assert Tail(text) == DropBytes(text, over);
    if over > 0 {
      CeilSkipsCharacters(text, over);
    } else {
      assert DropBytes(text, over) == text;
    }
  }

  // ---------- chunks ----------

  lemma Regroup(a: seq<Byte>, b: seq<Byte>, c: seq<Byte>)
    ensures a + (b + c) == (a + b) + c
  {
  }

  lemma {:induction false} EncodeAllAppends(a: seq<Scalar>, b: seq<Scalar>)
    ensures EncodeAll(a + b) == EncodeAll(a) + EncodeAll(b)
  {
    if a == [] {
      assert a + b == b;
    } else {
      var first, rest := Encode(a[0]), EncodeAll(a[1..]);
      calc {
        EncodeAll(a + b);
        { assert (a + b)[1..] == a[1..] + b; }
        first + EncodeAll(a[1..] + b);
        { EncodeAllAppends(a[1..], b); }
        first + (rest + EncodeAll(b));
        { Regroup(first, rest, EncodeAll(b)); }
        (first + rest) + EncodeAll(b);
      }
    }
  }

  lemma EncodeOne(c: Scalar)
    ensures EncodeAll([c]) == Encode(c)
  {
    assert [c][1..] == [];
  }

  /** Cutting early loses nothing that would have been kept. */
  lemma {:induction false} TailOfTail(history: seq<Scalar>, chunk: seq<Scalar>)
    ensures Tail(Tail(history) + chunk) == Tail(history + chunk)
  {
    if |EncodeAll(history)| > MAX_SCROLLBACK_BYTES {
      EncodeAllAppends(history, chunk);
      TailOfTail(history[1..], chunk);
      assert (history + chunk)[1..] == history[1..] + chunk;
    }
  }

  /** The step of `route_output`: the scrollback stays the longest suffix of the whole history. */
  lemma AppendKeepsTail(history: seq<Scalar>, chunk: seq<Scalar>)
    ensures Trim(EncodeAll(Tail(history)) + EncodeAll(chunk)) == EncodeAll(Tail(history + chunk))
  {
    EncodeAllAppends(Tail(history), chunk);
    TrimIsTail(Tail(history) + chunk);
    TailOfTail(history, chunk);
  }

  /** The scrollback after a sequence of chunks. */
  function Scroll(chunks: seq<seq<Scalar>>): seq<Byte> {
    if chunks == [] then []
    else Trim(Scroll(chunks[..|chunks| - 1]) + EncodeAll(chunks[|chunks| - 1]))
  }

  function Joined(chunks: seq<seq<Scalar>>): seq<Scalar> {
    if chunks == [] then [] else Joined(chunks[..|chunks| - 1]) + chunks[|chunks| - 1]
  }

  /** However the output was split, the scrollback encodes the longest suffix of it that fits. */
  lemma {:induction false} ScrollbackIsLongestSuffix(chunks: seq<seq<Scalar>>)
    ensures Scroll(chunks) == EncodeAll(Tail(Joined(chunks)))
  {
    if chunks != [] {
      var n := |chunks| - 1;
      ScrollbackIsLongestSuffix(chunks[..n]);
      AppendKeepsTail(Joined(chunks[..n]), chunks[n]);
    }
  }
}
