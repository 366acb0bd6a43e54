/**
 WebSocket framing of the browser connection: client frames out, server frames in.

 The independent reading of a frame is that of RFC 6455, sections 5.2 and 5.3; how
 frames make a message is section 5.4.
 */
module WebSocket {
  import opened Text

  type Byte = n: int | 0 <= n < 256

  type Bytes = seq<Byte>

  const LEN_EXT16 := 126
  const LEN_EXT64 := 127
  const MAX_LEN16 := 65536
  const MAX_LENGTH := 0x8000_0000_0000_0000

  function Pow2(k: nat): nat { if k == 0 then 1 else 2 * Pow2(k - 1) }

  /** Exclusive or of the lowest `k` bits. */
  function XorBits(a: nat, b: nat, k: nat): (r: nat)
    ensures r < Pow2(k)
  {
    if k == 0 then 0
    else 2 * XorBits(a / 2, b / 2, k - 1) + (if a % 2 == b % 2 then 0 else 1)
  }

  lemma {:induction false} XorBitsTwice(a: nat, b: nat, k: nat)
    requires a < Pow2(k)
    ensures XorBits(XorBits(a, b, k), b, k) == a
    decreases k
  {
    if k > 0 {
      XorBitsTwice(a / 2, b / 2, k - 1);
    }
  }

  lemma {:induction false} Pow2Of8()
    ensures Pow2(8) == 256
  {
    assert Pow2(4) == 2 * (2 * (2 * (2 * Pow2(0))));
    assert Pow2(8) == 2 * (2 * (2 * (2 * Pow2(4))));
  }

  /** `a ^ b` on octets. */
  function Xor(a: Byte, b: Byte): Byte {
    Pow2Of8();
    XorBits(a, b, 8)
  }

  lemma {:induction false} XorTwice(a: Byte, b: Byte)
    ensures Xor(Xor(a, b), b) == a
  {
    Pow2Of8();
    XorBitsTwice(a, b, 8);
  }

  // ------------------------------------------------------------- bit by bit

  /** Bit `j` of an octet. */
  predicate BitSet(a: nat, j: nat) {
    if j == 0 then a % 2 == 1
    else if j == 1 then a / 2 % 2 == 1
    else if j == 2 then a / 4 % 2 == 1
    else if j == 3 then a / 8 % 2 == 1
    else if j == 4 then a / 16 % 2 == 1
    else if j == 5 then a / 32 % 2 == 1
    else if j == 6 then a / 64 % 2 == 1
    else j == 7 && a / 128 % 2 == 1
  }

  /** A bit of `x` is set if and only if the two bits differ. */
  predicate Differs(x: nat, a: nat, b: nat) {
    forall j :: 0 <= j < 8 ==> (BitSet(x, j) <==> BitSet(a, j) != BitSet(b, j))
  }

  /** The number with these `k` bits, the lowest first. */
  function FromBits(on: nat -> bool, k: nat): (r: nat)
    ensures r < Pow2(k)
  {
    if k == 0 then 0 else (if on(0) then 1 else 0) + 2 * FromBits((j: nat) => on(j + 1), k - 1)
  }

  /** Bit `j`, by halving. */
  predicate BitAt(a: nat, j: nat) {
    if j == 0 then a % 2 == 1 else BitAt(a / 2, j - 1)
  }

  lemma {:induction false} LowBits(a: nat)
    ensures BitAt(a, 0) <==> a % 2 == 1
    ensures BitAt(a, 1) <==> a / 2 % 2 == 1
    ensures BitAt(a, 2) <==> a / 4 % 2 == 1
    ensures BitAt(a, 3) <==> a / 8 % 2 == 1
  {
    var b, c, d := a / 2, a / 4, a / 8;
    assert b / 2 == c && c / 2 == d;
    assert BitAt(a, 1) == BitAt(b, 0) && BitAt(a, 2) == BitAt(b, 1) == BitAt(c, 0);
    assert BitAt(a, 3) == BitAt(b, 2) == BitAt(c, 1) == BitAt(d, 0);
  }

  lemma {:induction false} HighBits(a: nat, j: nat)
    ensures BitAt(a, j + 4) == BitAt(a / 16, j)
  {
    var b, c, d := a / 2, a / 4, a / 8;
    assert b / 2 == c && c / 2 == d && d / 2 == a / 16;
    assert BitAt(a, j + 4) == BitAt(b, j + 3) == BitAt(c, j + 2) == BitAt(d, j + 1) == BitAt(a / 16, j);
  }

  lemma {:induction false} BitsByHalving(a: nat)
    ensures forall j: nat :: j < 8 ==> (BitAt(a, j) <==> BitSet(a, j))
  {
    var h := a / 16;
    assert h / 2 == a / 32 && h / 4 == a / 64 && h / 8 == a / 128;
    LowBits(a);
    LowBits(h);
    HighBits(a, 0);
    HighBits(a, 1);
    HighBits(a, 2);
    HighBits(a, 3);
    hide BitAt;
  }

  /** A number is made of its bits. */
  lemma {:induction false} MadeOfBits(a: nat, on: nat -> bool, k: nat)
    requires a < Pow2(k) && forall j: nat :: j < k ==> (on(j) <==> BitAt(a, j))
    ensures FromBits(on, k) == a
    decreases k
  {
    if k > 0 {
      var next := (j: nat) => on(j + 1);
      forall j: nat | j < k - 1 ensures next(j) <==> BitAt(a / 2, j) {
        assert on(j + 1) <==> BitAt(a, j + 1);
      }
      MadeOfBits(a / 2, next, k - 1);
      assert on(0) <==> BitAt(a, 0);
    }
  }

  lemma {:induction false} ByteOfBits(a: Byte, on: nat -> bool)
    requires forall j: nat :: j < 8 ==> (on(j) <==> BitSet(a, j))
    ensures FromBits(on, 8) == a
  {
    Pow2Of8();
    BitsByHalving(a);
    hide BitSet, BitAt;
    MadeOfBits(a, on, 8);
  }

  /** Bit `j` of the exclusive or. */
  lemma {:induction false} XorBitAt(a: nat, b: nat, k: nat, j: nat)
    requires j < k
    ensures BitAt(XorBits(a, b, k), j) <==> BitAt(a, j) != BitAt(b, j)
    decreases k
  {
    if j > 0 {
      XorBitAt(a / 2, b / 2, k - 1, j - 1);
    }
  }

  /** `Xor` is the exclusive or, bit by bit. */
  lemma {:induction false} XorDiffers(a: Byte, b: Byte)
    ensures Differs(Xor(a, b), a, b)
  {
    Pow2Of8();
    BitsByHalving(a);
    BitsByHalving(b);
    BitsByHalving(Xor(a, b));
    hide BitSet, XorBits, BitAt;
    forall j | 0 <= j < 8 ensures BitSet(Xor(a, b), j) <==> BitSet(a, j) != BitSet(b, j) {
      XorBitAt(a, b, 8, j);
    }
  }

  /** `struct.pack`: `k` octets, most significant first. */
  function BigEndian(n: nat, k: nat): (s: Bytes)
    ensures |s| == k
  {
    if k == 0 then [] else BigEndian(n / 256, k - 1) + [n % 256]
  }

  function FromBigEndian(s: Bytes): nat {
    if s == [] then 0 else 256 * FromBigEndian(s[..|s| - 1]) + s[|s| - 1]
  }

  function Pow256(k: nat): nat { if k == 0 then 1 else 256 * Pow256(k - 1) }

  lemma {:induction false} BigEndianRoundTrip(n: nat, k: nat)
    requires n < Pow256(k)
    ensures FromBigEndian(BigEndian(n, k)) == n
    decreases k
  {
    if k > 0 {
      BigEndianRoundTrip(n / 256, k - 1);
      assert BigEndian(n, k)[..k - 1] == BigEndian(n / 256, k - 1);
    }
  }

  /** Section 5.3: octet `i` is combined with octet `i mod 4` of the key. */
  function Masked(key: Bytes, payload: Bytes): (r: Bytes)
    requires |key| == 4
    ensures |r| == |payload|
  {
    seq(|payload|, i requires 0 <= i < |payload| => Xor(payload[i], key[i % 4]))
  }

  lemma {:induction false} MaskedTwice(key: Bytes, payload: Bytes)
    requires |key| == 4
    ensures Masked(key, Masked(key, payload)) == payload
  {
    forall i | 0 <= i < |payload| ensures Masked(key, Masked(key, payload))[i] == payload[i] {
      XorTwice(payload[i], key[i % 4]);
    }
  }

  /** `payload` combined octet by octet, the key starting over after four, makes `wire`. */
  predicate MaskedBy(wire: Bytes, payload: Bytes, key: Bytes)
    requires |key| == 4
  {
    && |wire| == |payload|
    && forall i :: 0 <= i < |payload| ==> Differs(wire[i], payload[i], key[i % 4])
  }

  lemma {:induction false} MaskedIs(key: Bytes, payload: Bytes)
    requires |key| == 4
    ensures MaskedBy(Masked(key, payload), payload, key)
  {
    hide Xor;
    forall i | 0 <= i < |payload| ensures Differs(Masked(key, payload)[i], payload[i], key[i % 4]) {
      XorDiffers(payload[i], key[i % 4]);
    }
  }

  /** The receiver's way back, from the statement on bits. */
  function Unmask(key: Bytes, wire: Bytes): (r: Bytes)
    requires |key| == 4
    ensures |r| == |wire|
  {
    Pow2Of8();
    seq(|wire|, i requires 0 <= i < |wire| =>
      FromBits((j: nat) => j < 8 && BitSet(wire[i], j) != BitSet(key[i % 4], j), 8))
  }

  lemma {:induction false} Unmasked(wire: Bytes, payload: Bytes, key: Bytes)
    requires |key| == 4 && MaskedBy(wire, payload, key)
    ensures Unmask(key, wire) == payload
  {
    hide BitSet, FromBits;
    forall i | 0 <= i < |wire| ensures Unmask(key, wire)[i] == payload[i] {
      var on := (j: nat) => j < 8 && BitSet(wire[i], j) != BitSet(key[i % 4], j);
      assert Differs(wire[i], payload[i], key[i % 4]);
      forall j: nat | j < 8 ensures on(j) <==> BitSet(payload[i], j) {
      }
      ByteOfBits(payload[i], on);
    }
  }

  // ----------------------------------------------------- frames, as specified

  datatype Frame = Frame(fin: bool, rsv: nat, opcode: nat, masked: bool, payload: Bytes)

  function Bit(b: bool, value: nat): nat { if b then value else 0 }

  /** The payload length of a frame starting with `s`, and where its header so far ends; only the minimal form is legal. */
  function DecodeLength(s: Bytes): Option<(nat, nat)>
    requires |s| >= 2
  {
    var len7 := s[1] % 128;
    if len7 < 126 then Some((len7, 2))
    else if len7 == 126 then
      if |s| < 4 || FromBigEndian(s[2..4]) < 126 then None else Some((FromBigEndian(s[2..4]), 4))
    else
      if |s| < 10 || !(65536 <= FromBigEndian(s[2..10]) < MAX_LENGTH) then None else Some((FromBigEndian(s[2..10]), 10))
  }

  /** Section 5.2: one frame off the front, and the octets after it. */
  function Decode(s: Bytes): Option<(Frame, Bytes)> {
    if |s| < 2 || DecodeLength(s).None? then None
    else
      var (n, h) := DecodeLength(s).value;
      var masked := s[1] / 128 == 1;
      var start := h + if masked then 4 else 0;
      if |s| < start + n then None
      else
        var body := s[start..start + n];
        Some((Frame(s[0] / 128 == 1, s[0] / 16 % 8, s[0] % 16, masked,
                    if masked then Unmask(s[h..h + 4], body) else body),
              s[start + n..]))
  }

  // --------------------------------------------------------------------- send

  /** The length field, with the mask bit. */
  function LengthField(n: nat, masked: bool): (field: Bytes)
    requires n < MAX_LENGTH
    ensures |field| == if n < 126 then 1 else if n < 65536 then 3 else 9
  {
    if n < LEN_EXT16 then [Bit(masked, 128) + n]
    else if n < MAX_LEN16 then [Bit(masked, 128) + LEN_EXT16] + BigEndian(n, 2)
    else [Bit(masked, 128) + LEN_EXT64] + BigEndian(n, 8)
  }

  /** The client's text frame. */
  function TextFrame(payload: Bytes, key: Bytes): Bytes
    requires |payload| < MAX_LENGTH && |key| == 4
  {
    [0x81] + LengthField(|payload|, true) + key + Masked(key, payload)
  }

  lemma {:induction false} BigEndianFits(n: nat, k: nat)
    requires (k == 2 && n < 65536) || (k == 8 && n < MAX_LENGTH)
    ensures FromBigEndian(BigEndian(n, k)) == n
  {
    assert Pow256(2) == 65536;
    assert Pow256(4) == 256 * (256 * Pow256(2));
    assert Pow256(6) == 256 * (256 * Pow256(4));
    assert Pow256(8) == 256 * (256 * Pow256(6));
    BigEndianRoundTrip(n, k);
  }

  /** A length field is read back, wherever the frame goes on. */
  lemma {:induction false} LengthRoundTrip(b: Byte, n: nat, masked: bool, rest: Bytes)
    requires n < MAX_LENGTH
    ensures var s := [b] + LengthField(n, masked) + rest;
            DecodeLength(s) == Some((n, 1 + |LengthField(n, masked)|)) && s[0] == b && (s[1] / 128 == 1 <==> masked)
  {
    hide BigEndian, FromBigEndian;
    var s := [b] + LengthField(n, masked) + rest;
    if n < 126 {
    } else if n < 65536 {
      assert s[2..4] == BigEndian(n, 2);
      BigEndianFits(n, 2);
    } else {
      assert s[2..10] == BigEndian(n, 8);
      BigEndianFits(n, 8);
    }
  }

  /**
   Every frame sent is a legal text frame: it reads back as one final, masked,
   unextended text frame with the same payload, in minimal length form, and
   nothing of it is left over.
   */
  lemma {:induction false} SentFrameDecodes(payload: Bytes, key: Bytes, rest: Bytes)
    requires |payload| < MAX_LENGTH && |key| == 4
    ensures Decode(TextFrame(payload, key) + rest) == Some((Frame(true, 0, 1, true, payload), rest))
  {
    hide LengthField, DecodeLength, Masked, Unmask;
    var n := |payload|;
    var field := LengthField(n, true);
    var s := TextFrame(payload, key) + rest;
    var after := key + Masked(key, payload) + rest;
    assert s == [0x81] + field + after;
    LengthRoundTrip(0x81, n, true, after);
    var h := 1 + |field|;
    assert s[h..] == after;
    assert s[h..h + 4] == after[..4] == key;
    assert s[h + 4..h + 4 + n] == after[4..4 + n] == Masked(key, payload);
    assert s[h + 4 + n..] == after[4 + n..] == rest;
    MaskedIs(key, payload);
    Unmasked(Masked(key, payload), payload, key);
  }

  const PLACES: seq<nat> :=
    [0x100_0000_0000_0000, 0x1_0000_0000_0000, 0x100_0000_0000, 0x1_0000_0000, 0x100_0000, 0x1_0000, 0x100, 1]

  function Shifted(n: nat, k: nat): nat { if k == 0 then n else Shifted(n / 256, k - 1) }

  lemma {:induction false} BigEndianAt(n: nat, k: nat, i: nat)
    requires i < k
    ensures BigEndian(n, k)[i] == Shifted(n, k - 1 - i) % 256
    decreases k
  {
    if i < k - 1 {
      BigEndianAt(n / 256, k - 1, i);
    }
  }

  lemma {:induction false} ShiftedOnce(n: nat, k: nat)
    ensures Shifted(n, k + 1) == Shifted(n, k) / 256
    decreases k
  {
    if k > 0 {
      ShiftedOnce(n / 256, k - 1);
    }
  }

  lemma {:induction false} ShiftedPlaces(n: nat)
    ensures forall i :: 0 <= i < 8 ==> Shifted(n, 7 - i) == n / PLACES[i]
  {
    ShiftedOnce(n, 0);
    ShiftedOnce(n, 1);
    ShiftedOnce(n, 2);
    ShiftedOnce(n, 3);
    ShiftedOnce(n, 4);
    ShiftedOnce(n, 5);
    ShiftedOnce(n, 6);
    hide Shifted;
    assert Shifted(n, 0) == n by { NotShifted(n); }
    assert Shifted(n, 1) == n / 0x100;
    assert Shifted(n, 2) == n / 0x1_0000;
    assert Shifted(n, 3) == n / 0x100_0000;
    assert Shifted(n, 4) == n / 0x1_0000_0000;
    assert Shifted(n, 5) == n / 0x100_0000_0000;
    assert Shifted(n, 6) == n / 0x1_0000_0000_0000;
    assert Shifted(n, 7) == n / 0x100_0000_0000_0000;
    forall i | 0 <= i < 8 ensures Shifted(n, 7 - i) == n / PLACES[i] {
      assert i == 0 || i == 1 || i == 2 || i == 3 || i == 4 || i == 5 || i == 6 || i == 7;
    }
  }

  lemma {:induction false} NotShifted(n: nat)
    ensures Shifted(n, 0) == n
  {
  }

  /** A frame octet by octet, as section 5.2 draws it: flags, length, key, payload. */
  ghost predicate OnWire(wire: Bytes, payload: Bytes, key: Bytes)
    requires |key| == 4
  {
    var n := |payload|;
    var h := if n < 126 then 2 else if n < 65536 then 4 else 10;
    && |wire| == h + 4 + n && wire[0] == 0x81
    && (n < 126 ==> wire[1] == 128 + n)
    && (126 <= n < 65536 ==> wire[1] == 128 + 126 && wire[2] == n / 256 % 256 && wire[3] == n % 256)
    && (65536 <= n ==> wire[1] == 128 + 127 && forall i :: 0 <= i < 8 ==> wire[2 + i] == n / PLACES[i] % 256)
    && wire[h..h + 4] == key
    && MaskedBy(wire[h + 4..], payload, key)
  }

  lemma {:induction false} FrameOnWire(payload: Bytes, key: Bytes)
    requires |payload| < MAX_LENGTH && |key| == 4
    ensures OnWire(TextFrame(payload, key), payload, key)
  {
    hide Masked, MaskedBy;
    MaskedIs(key, payload);
    var n := |payload|;
    var wire, field := TextFrame(payload, key), LengthField(n, true);
    var h := 1 + |field|;
    assert wire == [0x81] + field + key + Masked(key, payload);
    assert wire[h..h + 4] == key && wire[h + 4..] == Masked(key, payload);
    assert forall i :: 0 <= i < |field| ==> wire[1 + i] == field[i];
    ShiftedPlaces(n);
    assert Shifted(n, 1) == n / PLACES[6] && Shifted(n, 0) == n / PLACES[7];
    hide Shifted;
    if 126 <= n < 65536 {
      BigEndianAt(n, 2, 0);
      BigEndianAt(n, 2, 1);
    } else if 65536 <= n {
      forall i | 0 <= i < 8 ensures wire[2 + i] == n / PLACES[i] % 256 {
        BigEndianAt(n, 8, i);
        assert wire[1 + (1 + i)] == field[1 + i];
      }
    }
  }

  class Socket {
    var unread: Bytes
    var sent: Bytes

    constructor (incoming: Bytes)
      ensures unread == incoming && sent == []
    {
      unread, sent := incoming, [];
    }

    method SendAll(data: Bytes)
      modifies this`sent
      ensures sent == old(sent) + data
    {
      sent := sent + data;
    }

    /** Some octets, at most `n`; none only at the end of the stream. */
    method Recv(n: nat) returns (c: Bytes)
      requires n > 0
      modifies this`unread
      ensures old(unread) == c + unread && |c| <= n
      ensures c == [] <==> old(unread) == []
    {
      if unread == [] {
        return [];
      }
      var k: nat :| 1 <= k <= n && k <= |unread|;
      c := unread[..k];
      unread := unread[k..];
    }

    /** `_ws_send` with the mask key drawn by the caller. */
    method WsSend(payload: Bytes, key: Bytes)
      requires |payload| < MAX_LENGTH && |key| == 4
      modifies this`sent
      ensures sent == old(sent) + TextFrame(payload, key)
      ensures old(sent) <= sent && OnWire(sent[|old(sent)|..], payload, key)
    {
      FrameOnWire(payload, key);
      var n := |payload|;
      var header: Bytes := [0x81];
      if n < LEN_EXT16 {
        header := header + [0x80 + n];
      } else if n < MAX_LEN16 {
        header := header + [0x80 + LEN_EXT16];
        header := header + BigEndian(n, 2);
      } else {
        header := header + [0x80 + LEN_EXT64];
        header := header + BigEndian(n, 8);
      }
      assert header == [0x81] + LengthField(n, true);
      header := header + key;
      SendAll(header + Masked(key, payload));
      hide OnWire;
      assert sent[|old(sent)|..] == TextFrame(payload, key);
    }

    /** `rd`: exactly `n` octets, or none when the stream ends first. */
    method ReadExactly(n: nat) returns (r: Option<Bytes>)
      modifies this`unread
      ensures n <= |old(unread)| ==> r == Some(old(unread)[..n]) && unread == old(unread)[n..]
      ensures n > |old(unread)| ==> r == None && unread == []
    {
      var b: Bytes := [];
      while |b| < n
        invariant old(unread) == b + unread && |b| <= n
        decreases n - |b|
      {
        var c := Recv(n - |b|);
        if c == [] {
          return None;
        }
        b := b + c;
      }
      return Some(b);
    }

    /** The first two octets and the length that may extend them. */
    method ReadHeader() returns (r: Option<(bool, nat)>)
      modifies this`unread
      ensures match HeaderOf(old(unread))
              case Some((fin, n, h)) => r == Some((fin, n)) && unread == old(unread)[h..]
              case None => r == None && unread == []
    {
      hide FromBigEndian;
      ghost var s := unread;
      var h := ReadExactly(2);
      if h.None? {
        return None;
      }
      var fin, ln := h.value[0] / 128 == 1, h.value[1] % 128;
      if ln == LEN_EXT16 {
        var ext := ReadExactly(2);
        if ext.None? {
          return None;
        }
        assert s[2..][..2] == s[2..4];
        ln := FromBigEndian(ext.value);
      } else if ln == LEN_EXT64 {
        var ext := ReadExactly(8);
        if ext.None? {
          return None;
        }
        assert s[2..][..8] == s[2..10];
        ln := FromBigEndian(ext.value);
      }
      return Some((fin, ln));
    }

    /** `_ws_recv`: the payloads up to the first final frame; none when the stream ends first. */
    method WsRecv() returns (r: Option<Bytes>)
      modifies this`unread
      ensures match Receive(old(unread), [])
              case Some((message, rest)) => r == Some(message) && unread == rest
              case None => r == None && unread == []
    {
      hide HeaderOf, Receive;
      var out: Bytes := [];
      while true
        invariant Receive(unread, out) == Receive(old(unread), [])
        decreases |unread|
      {
        ghost var s := unread;
        ReceiveUnfolds(s, out);
        var header := ReadHeader();
        if header.None? {
          return None;
        }
        var (fin, ln) := header.value;
        ghost var start := |s| - |unread|;
        var body := ReadExactly(ln);
        if body.None? {
          return None;
        }
        assert s[start..][..ln] == s[start..start + ln] && s[start..][ln..] == s[start + ln..];
        out := out + body.value;
        if fin {
          return Some(out);
        }
      }
    }
  }

  // ------------------------------------------------------------------ receive

  /** What the receiver takes from a header: final or not, payload length, header length. */
  function HeaderOf(s: Bytes): (r: Option<(bool, nat, nat)>)
    ensures r.Some? ==> 2 <= r.value.2 <= |s|
  {
    if |s| < 2 then None
    else
      var fin, len7 := s[0] / 128 == 1, s[1] % 128;
      if len7 == 126 then if |s| < 4 then None else Some((fin, FromBigEndian(s[2..4]), 4))
      else if len7 == 127 then if |s| < 10 then None else Some((fin, FromBigEndian(s[2..10]), 10))
      else Some((fin, len7, 2))
  }

  /** What the receiver makes of a stream, however the socket cuts it up. */
  function Receive(s: Bytes, out: Bytes): Option<(Bytes, Bytes)>
    decreases |s|
  {
    match HeaderOf(s)
    case None => None
    case Some((fin, n, h)) =>
      if |s| < h + n then None
      else if fin then Some((out + s[h..h + n], s[h + n..]))
      else Receive(s[h + n..], out + s[h..h + n])
  }

  /** The receiver goes by the top bit of the first octet and the other seven of the second. */
  lemma {:induction false} HeaderReads(s: Bytes)
    requires |s| >= 2 && (s[1] != 126 && s[1] != 127 && s[1] != 254 && s[1] != 255)
    ensures HeaderOf(s) == Some((s[0] >= 128, if s[1] >= 128 then s[1] - 128 else s[1], 2))
  {
  }

  /** 126 and 127 there announce two and eight octets of length. */
  lemma {:induction false} LongHeaderReads(s: Bytes)
    requires |s| >= 2
    ensures s[1] == 126 || s[1] == 254 ==>
              HeaderOf(s) == if |s| < 4 then None else Some((s[0] >= 128, 256 * (s[2] as int) + s[3], 4))
    ensures s[1] == 127 || s[1] == 255 ==>
              HeaderOf(s) == if |s| < 10 then None else Some((s[0] >= 128, FromBigEndian(s[2..10]), 10))
  {
    if |s| >= 4 {
      var two := s[2..4];
      assert two[..1] == [s[2]] && [s[2]][..0] == [];
      assert FromBigEndian([s[2]]) == s[2];
    }
  }

  lemma {:induction false} ReceiveUnfolds(s: Bytes, out: Bytes)
    ensures Receive(s, out) ==
            match HeaderOf(s)
            case None => None
            case Some((fin, n, h)) =>
              if |s| < h + n then None
              else if fin then Some((out + s[h..h + n], s[h + n..]))
              else Receive(s[h + n..], out + s[h..h + n])
  {
    hide HeaderOf;
  }

  /** A server frame: section 5.1 forbids it to be masked. */
  datatype Fragment = Fragment(fin: bool, opcode: nat, payload: Bytes)
  {
    ghost predicate Legal() { opcode < 16 && |payload| < MAX_LENGTH && (Control() ==> fin && |payload| < 126) }

    predicate Control() { opcode >= 8 }
  }

  /** Continuation, text and binary are data; close, ping and pong are control (section 5.5 of RFC 6455). */
  lemma {:induction false} ControlReads(f: Fragment)
    ensures f.opcode == 0 || f.opcode == 1 || f.opcode == 2 ==> !f.Control()
    ensures f.opcode == 8 || f.opcode == 9 || f.opcode == 10 ==> f.Control()
  {
  }

  function Encode(f: Fragment): Bytes
    requires f.Legal()
  {
    [Bit(f.fin, 128) + f.opcode] + LengthField(|f.payload|, false) + f.payload
  }

  ghost predicate AllLegal(fs: seq<Fragment>) {
    forall f :: f in fs ==> f.Legal()
  }

  function EncodeAll(fs: seq<Fragment>): Bytes
    requires AllLegal(fs)
  {
    if fs == [] then [] else Encode(fs[0]) + EncodeAll(fs[1..])
  }

  function Payloads(fs: seq<Fragment>): Bytes {
    if fs == [] then [] else fs[0].payload + Payloads(fs[1..])
  }

  /** A server frame reads back as itself by the specification. */
  lemma {:induction false} EncodedDecodes(f: Fragment, rest: Bytes)
    requires f.Legal()
    ensures Decode(Encode(f) + rest) == Some((Frame(f.fin, 0, f.opcode, false, f.payload), rest))
  {
    hide LengthField, DecodeLength;
    var b: Byte := Bit(f.fin, 128) + f.opcode;
    var n, field := |f.payload|, LengthField(|f.payload|, false);
    var s, after := Encode(f) + rest, f.payload + rest;
    assert s == [b] + field + after;
    LengthRoundTrip(b, n, false, after);
    var h := 1 + |field|;
    assert s[h..] == after;
    assert s[h..h + n] == after[..n] == f.payload;
    assert s[h + n..] == after[n..] == rest;
    assert DecodeLength(s) == Some((n, h)) && s[1] / 128 != 1;
    assert s[0] / 128 == Bit(f.fin, 1) && s[0] / 16 % 8 == 0 && s[0] % 16 == f.opcode;
  }

  lemma {:induction false} HeaderOfEncoded(f: Fragment, rest: Bytes)
    requires f.Legal()
    ensures var s := Encode(f) + rest;
            var h := 1 + |LengthField(|f.payload|, false)|;
            && HeaderOf(s) == Some((f.fin, |f.payload|, h))
            && h + |f.payload| <= |s| && s[h..h + |f.payload|] == f.payload && s[h + |f.payload|..] == rest
  {
    var b: Byte := Bit(f.fin, 128) + f.opcode;
    var n, field := |f.payload|, LengthField(|f.payload|, false);
    var s, after := Encode(f) + rest, f.payload + rest;
    assert s == [b] + field + after;
    LengthRoundTrip(b, n, false, after);
    var h := 1 + |field|;
    assert s[h..] == after;
    assert s[h..h + n] == after[..n] == f.payload;
    assert s[h + n..] == after[n..] == rest;
  }

  ghost predicate FirstFinal(fs: seq<Fragment>, k: nat) {
    k < |fs| && fs[k].fin && forall i :: 0 <= i < k ==> !fs[i].fin
  }

  /** The receiver returns the payloads up to the first final frame and leaves the rest unread. */
  lemma {:induction false} ReceiveFrames(fs: seq<Fragment>, k: nat, rest: Bytes, out: Bytes)
    requires AllLegal(fs) && FirstFinal(fs, k)
    ensures AllLegal(fs[k + 1..])
    ensures Receive(EncodeAll(fs) + rest, out) == Some((out + Payloads(fs[..k + 1]), EncodeAll(fs[k + 1..]) + rest))
    decreases k
  {
    hide Encode, HeaderOf, LengthField;
    var f, tail := fs[0], EncodeAll(fs[1..]) + rest;
    assert EncodeAll(fs) + rest == Encode(f) + tail;
    HeaderOfEncoded(f, tail);
    assert fs[..k + 1][0] == f && fs[..k + 1][1..] == fs[1..k + 1];
    if k == 0 {
      assert fs[1..1] == [];
      assert Payloads(fs[..1]) == f.payload + [] == f.payload;
    } else {
      assert fs[1..][..k] == fs[1..k + 1] && fs[1..][k..] == fs[k + 1..];
      ReceiveFrames(fs[1..], k - 1, rest, out + f.payload);
      assert out + f.payload + Payloads(fs[1..k + 1]) == out + (f.payload + Payloads(fs[1..k + 1]));
    }
  }

  /** Section 5.4: fragments of one message, the last one final, with control frames allowed in between. */
  ghost predicate Message(fs: seq<Fragment>) {
    && fs != [] && AllLegal(fs)
    && fs[|fs| - 1].fin && !fs[|fs| - 1].Control()
    && forall i :: 0 <= i < |fs| - 1 ==> (fs[i].fin <==> fs[i].Control())
  }

  function DataPayloads(fs: seq<Fragment>): Bytes {
    if fs == [] then [] else (if fs[0].Control() then [] else fs[0].payload) + DataPayloads(fs[1..])
  }

  lemma {:induction false} NoControlPayloads(fs: seq<Fragment>)
    requires forall i :: 0 <= i < |fs| ==> !fs[i].Control()
    ensures DataPayloads(fs) == Payloads(fs)
    decreases |fs|
  {
    if fs != [] {
      NoControlPayloads(fs[1..]);
    }
  }

  lemma {:induction false} EncodedNotEmpty(fs: seq<Fragment>)
    requires fs != [] && AllLegal(fs)
    ensures EncodeAll(fs) != []
  {
  }

  /**
   A message comes out whole, with the following octets unread, if and only if no
   control frame was sent before its last fragment: the receiver does not look at
   opcodes, so a ping ends the message early.
   */
  lemma {:induction false} MessageReceived(fs: seq<Fragment>, rest: Bytes)
    requires Message(fs)
    ensures Receive(EncodeAll(fs) + rest, []) == Some((DataPayloads(fs), rest)) <==>
            forall i :: 0 <= i < |fs| ==> !fs[i].Control()
  {
    hide EncodeAll, Receive;
    var k := FirstFinalOf(fs);
    ReceiveFrames(fs, k, rest, []);
    if k == |fs| - 1 {
      assert fs[..k + 1] == fs && fs[k + 1..] == [];
      NoControlPayloads(fs);
      assert EncodeAll([]) == [] by { EncodeNone(); }
      assert EncodeAll(fs[k + 1..]) + rest == rest;
      assert [] + Payloads(fs) == Payloads(fs);
    } else {
      assert fs[k].Control();
      EncodedNotEmpty(fs[k + 1..]);
      assert |EncodeAll(fs[k + 1..]) + rest| > |rest|;
    }
  }

  lemma {:induction false} EncodeNone()
    ensures EncodeAll([]) == []
  {
  }

  lemma {:induction false} FirstFinalOf(fs: seq<Fragment>) returns (k: nat)
    requires fs != [] && fs[|fs| - 1].fin
    ensures FirstFinal(fs, k)
  {
    k := 0;
    while !fs[k].fin
      invariant k < |fs| && forall i :: 0 <= i < k ==> !fs[i].fin
      decreases |fs| - k
    {
      k := k + 1;
    }
  }

  /** A ping between two fragments: the receiver stops at it, with the second fragment unread. */
  lemma {:induction false} PingTruncates(a: Bytes, b: Bytes, rest: Bytes)
    requires |a| < MAX_LENGTH && |b| < MAX_LENGTH
    ensures var fs := [Fragment(false, 1, a), Fragment(true, 9, []), Fragment(true, 0, b)];
            && Message(fs) && AllLegal(fs[2..]) && DataPayloads(fs) == a + b
            && Receive(EncodeAll(fs) + rest, []) == Some((a, EncodeAll(fs[2..]) + rest))
            && Receive(EncodeAll(fs) + rest, []) != Some((a + b, rest))
  {
    hide EncodeAll, Receive;
    var fs := [Fragment(false, 1, a), Fragment(true, 9, []), Fragment(true, 0, b)];
    assert FirstFinal(fs, 1);
    ReceiveFrames(fs, 1, rest, []);
    MessageReceived(fs, rest);
    assert fs[1].Control();
    assert fs[1..] == [fs[1], fs[2]] && fs[1..][1..] == [fs[2]] && [fs[2]][1..] == [];
    assert DataPayloads([fs[2]]) == b + [] && DataPayloads(fs[1..]) == [] + DataPayloads([fs[2]]);
    assert DataPayloads(fs) == a + b;
    assert fs[..2] == [fs[0], fs[1]] && fs[..2][1..] == [fs[1]] && [fs[1]][1..] == [];
    assert Payloads([fs[1]]) == [] + [] && Payloads(fs[..2]) == a + Payloads([fs[1]]) == a;
    assert [] + Payloads(fs[..2]) == a;
  }
}
