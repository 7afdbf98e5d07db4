/** The wire format (engine/src/protocol.cpp and its Rust twin risk/src/protocol.rs): one tag byte,
    then a payload of fixed size, integers big-endian. */
module Wire {
  import opened Orders

  type Byte = x: int | 0 <= x < 256

  const TWO_63: int := 0x8000_0000_0000_0000
  const TWO_64: int := 0x1_0000_0000_0000_0000

  type U32 = x: int | 0 <= x < TWO_32
  type U64 = x: int | 0 <= x < TWO_64
  type I64 = x: int | -TWO_63 <= x < TWO_63

  type Positive = n: nat | n > 0 witness 1

  function Pow256(n: nat): (p: nat)
    ensures p > 0
  {
    if n == 0 then 1 else 256 * Pow256(n - 1)
  }

  lemma PowersOfWidth()
    ensures Pow256(4) == TWO_32 && Pow256(8) == TWO_64
  {
    assert Pow256(2) == 65536;
    assert Pow256(4) == 256 * (256 * Pow256(2));
    assert Pow256(6) == 256 * (256 * Pow256(4));
    assert Pow256(8) == 256 * (256 * Pow256(6));
  }

  /** The n low bytes of v, most significant first. */
  function Pack(v: nat, n: nat): (bytes: seq<Byte>)
    ensures |bytes| == n
  {
    if n == 0 then [] else Pack(v / 256, n - 1) + [v % 256]
  }

  function Unpack(bytes: seq<Byte>): nat {
    if bytes == [] then 0 else Unpack(bytes[..|bytes| - 1]) * 256 + bytes[|bytes| - 1]
  }

  lemma {:induction false} UnpackPack(v: nat, n: nat)
    requires v < Pow256(n)
    ensures Unpack(Pack(v, n)) == v
  {
    if n > 0 {
      UnpackPack(v / 256, n - 1);
      assert Pack(v, n)[..n - 1] == Pack(v / 256, n - 1);
    }
  }

  lemma {:induction false} PackUnpack(bytes: seq<Byte>)
    ensures Unpack(bytes) < Pow256(|bytes|)
    ensures Pack(Unpack(bytes), |bytes|) == bytes
  {
    if bytes != [] {
      var init, last := bytes[..|bytes| - 1], bytes[|bytes| - 1];
      PackUnpack(init);
      assert Unpack(bytes) / 256 == Unpack(init) && Unpack(bytes) % 256 == last;
      assert bytes == init + [last];
    }
  }

  /** The i-th byte on the wire is the value shifted right by the bytes behind it. */
  lemma {:induction false} PackAt(v: nat, n: nat, i: nat)
    requires i < n
    ensures Pack(v, n)[i] == v / Pow256(n - 1 - i) % 256
  {
    if i < n - 1 {
      PackAt(v / 256, n - 1, i);
      DivDiv(v, Pow256(n - 2 - i));
    } else {
      assert Pow256(0) == 1;
    }
  }

  lemma DivDiv(v: nat, d: Positive)
    ensures v / 256 / d == v / (256 * d)
  {
    var q, r := v / (256 * d), v % (256 * d);
    assert v == 256 * d * q + r;
    assert v == 256 * (d * q + r / 256) + r % 256;
    DivUnique(v, 256, d * q + r / 256, r % 256);
    assert 0 <= r / 256 < d;
    DivUnique(v / 256, d, q, r / 256);
  }

  lemma MulLess(d: Positive, a: nat, b: nat)
    ensures d * a < d * b <==> a < b
  {
    assert d * b - d * a == d * (b - a);
  }

  lemma DivUnique(a: nat, d: nat, q: nat, r: nat)
    requires d > 0 && a == d * q + r && r < d
    ensures a / d == q
  {
    var q' := a / d;
    assert a == d * q' + a % d;
    assert d * (q + 1) == d * q + d && d * (q' + 1) == d * q' + d;
    MulLess(d, q', q + 1);
    MulLess(d, q, q' + 1);
  }

  /** put_u32 and put_u64: n bytes from position p on, highest byte first. */
  method Put(buf: array<Byte>, p: nat, v: nat, n: nat) returns (next: nat)
    requires p + n <= buf.Length
    modifies buf
    ensures next == p + n
    ensures buf[p..p + n] == Pack(v, n)
    ensures buf[..p + n] == old(buf[..p]) + Pack(v, n)
    ensures buf[..p] == old(buf[..p]) && buf[p + n..] == old(buf[p + n..])
  {
    next := p;
    var k := n;
    while k > 0
      invariant next + k == p + n
      invariant forall i :: p <= i < next ==> buf[i] == v / Pow256(n - 1 - (i - p)) % 256
      invariant buf[..p] == old(buf[..p]) && buf[p + n..] == old(buf[p + n..])
    {
      k := k - 1;
      buf[next] := v / Pow256(k) % 256;
      next := next + 1;
    }
    forall i | 0 <= i < n ensures buf[p..p + n][i] == Pack(v, n)[i] {
      PackAt(v, n, i);
      assert buf[p..p + n][i] == buf[p + i];
    }
    assert buf[..p + n] == buf[..p] + buf[p..p + n];
  }

  /** get_u32 and get_u64: shift left and add, within a word of n bytes. */
  method Get(bytes: seq<Byte>, p: nat, n: nat) returns (v: nat, next: nat)
    requires p + n <= |bytes|
    ensures next == p + n
    ensures v == Unpack(bytes[p..p + n])
  {
    v, next := 0, p;
    ghost var word := bytes[p..p + n];
    for i := 0 to n
      invariant next == p + i
      invariant v == Unpack(word[..i])
    {
      ShiftFits(word, i);
      v := v * 256 % Pow256(n) + bytes[next];
      next := next + 1;
    }
    assert word[..n] == word;
  }

  /** Shifting what has been read so far drops nothing out of the word. */
  lemma ShiftFits(word: seq<Byte>, i: nat)
    requires i < |word|
    ensures Unpack(word[..i + 1]) == Unpack(word[..i]) * 256 % Pow256(|word|) + word[i]
  {
    var v := Unpack(word[..i]);
    PackUnpack(word[..i]);
    PowGrows(i + 1, |word|);
    assert v * 256 < Pow256(i + 1);
    assert word[..i + 1][..i] == word[..i];
    SmallMod(v * 256, Pow256(|word|));
  }

  lemma SmallMod(x: nat, m: nat)
    requires x < m
    ensures x % m == x
  {
  }

  lemma {:induction false} PowGrows(m: nat, n: nat)
    requires m <= n
    ensures Pow256(m) <= Pow256(n)
  {
    if m < n {
      PowGrows(m, n - 1);
    }
  }

  /** static_cast<uint64_t> of a signed value, and back. */
  function ToUnsigned(x: I64): U64 {
    if x >= 0 then x else x + TWO_64
  }

  function ToSigned(u: U64): I64 {
    if u < TWO_63 then u else u - TWO_64
  }

  // ----- messages -----

  datatype OrderMsg = OrderMsg(id: U64, side: Byte, orderType: Byte, price: I64, quantity: U32)

  datatype FillMsg = FillMsg(restingId: U64, incomingId: U64, restingSide: Byte, price: I64, quantity: U32,
          timestamp: U64)

  datatype AckMsg = AckMsg(id: U64, requestType: Byte, status: Byte)

  const NEW_ORDER: Byte := 0x01
  const CANCEL: Byte := 0x02
  const SUBSCRIBE_FILLS: Byte := 0x03
  const FILL: Byte := 0x10
  const ACK: Byte := 0x11

  type OrderPayload = bytes: seq<Byte> | |bytes| == 22 witness seq(22, _ => 0)
  type FillPayload = bytes: seq<Byte> | |bytes| == 37 witness seq(37, _ => 0)
  type AckPayload = bytes: seq<Byte> | |bytes| == 10 witness seq(10, _ => 0)

  function PayloadSize(tag: Byte): Option<nat> {
    if tag == NEW_ORDER then Some(22)
    else if tag == CANCEL then Some(8)
    else if tag == SUBSCRIBE_FILLS then Some(0)
    else if tag == FILL then Some(37)
    else if tag == ACK then Some(10)
    else None
  }

  function EncodeOrder(m: OrderMsg): (bytes: seq<Byte>)
    ensures |bytes| == 22
  {
    Pack(m.id, 8) + [m.side, m.orderType] + Pack(ToUnsigned(m.price), 8) + Pack(m.quantity, 4)
  }

  function EncodeFill(m: FillMsg): (bytes: seq<Byte>)
    ensures |bytes| == 37
  {
    Pack(m.restingId, 8) + Pack(m.incomingId, 8) + [m.restingSide]
    + Pack(ToUnsigned(m.price), 8) + Pack(m.quantity, 4) + Pack(m.timestamp, 8)
  }

  function EncodeAck(m: AckMsg): (bytes: seq<Byte>)
    ensures |bytes| == 10
  {
    Pack(m.id, 8) + [m.requestType, m.status]
  }

  function GetU64(bytes: seq<Byte>, p: nat): U64
    requires p + 8 <= |bytes|
  {
    PackUnpack(bytes[p..p + 8]);
    PowersOfWidth();
    Unpack(bytes[p..p + 8])
  }

  function GetU32(bytes: seq<Byte>, p: nat): U32
    requires p + 4 <= |bytes|
  {
    PackUnpack(bytes[p..p + 4]);
    PowersOfWidth();
    Unpack(bytes[p..p + 4])
  }

  function DecodeOrder(bytes: OrderPayload): OrderMsg {
    OrderMsg(GetU64(bytes, 0), bytes[8], bytes[9], ToSigned(GetU64(bytes, 10)), GetU32(bytes, 18))
  }

  function DecodeFill(bytes: FillPayload): FillMsg {
    FillMsg(GetU64(bytes, 0), GetU64(bytes, 8), bytes[16], ToSigned(GetU64(bytes, 17)), GetU32(bytes, 25), GetU64(bytes, 29))
  }

  function DecodeAck(bytes: AckPayload): AckMsg {
    AckMsg(GetU64(bytes, 0), bytes[8], bytes[9])
  }

  lemma GetPackedU64(bytes: seq<Byte>, before: seq<Byte>, v: U64, after: seq<Byte>, p: nat)
    requires bytes == before + Pack(v, 8) + after && p == |before|
    ensures p + 8 <= |bytes| && GetU64(bytes, p) == v
  {
    PowersOfWidth();
    UnpackPack(v, 8);
    assert bytes[p..p + 8] == Pack(v, 8);
  }

  lemma GetPackedU32(bytes: seq<Byte>, before: seq<Byte>, v: U32, after: seq<Byte>, p: nat)
    requires bytes == before + Pack(v, 4) + after && p == |before|
    ensures p + 4 <= |bytes| && GetU32(bytes, p) == v
  {
    PowersOfWidth();
    UnpackPack(v, 4);
    assert bytes[p..p + 4] == Pack(v, 4);
  }

  /** Decoding what was encoded gives the message back. */
  lemma OrderRoundTrip(m: OrderMsg)
    ensures DecodeOrder(EncodeOrder(m)) == m
  {
    var e, id, mid, price, quantity := EncodeOrder(m), Pack(m.id, 8), [m.side, m.orderType], Pack(ToUnsigned(m.price), 8), Pack(m.quantity, 4);
    GetPackedU64(e, [], m.id, mid + price + quantity, 0);
    GetPackedU64(e, id + mid, ToUnsigned(m.price), quantity, 10);
    GetPackedU32(e, id + mid + price, m.quantity, [], 18);
    assert e[8] == m.side && e[9] == m.orderType;
  }

  lemma FillIds(m: FillMsg)
    ensures var e := EncodeFill(m);
      GetU64(e, 0) == m.restingId && GetU64(e, 8) == m.incomingId && e[16] == m.restingSide
  {
    var e, id, incoming := EncodeFill(m), Pack(m.restingId, 8), Pack(m.incomingId, 8);
    var rest := [m.restingSide] + Pack(ToUnsigned(m.price), 8) + Pack(m.quantity, 4) + Pack(m.timestamp, 8);
    assert e == id + incoming + rest;
    GetPackedU64(e, [], m.restingId, incoming + rest, 0);
    GetPackedU64(e, id, m.incomingId, rest, 8);
    assert e[16] == rest[0];
  }

  lemma FillTrade(m: FillMsg)
    ensures var e := EncodeFill(m);
      GetU64(e, 17) == ToUnsigned(m.price) && GetU32(e, 25) == m.quantity && GetU64(e, 29) == m.timestamp
  {
    var e, head := EncodeFill(m), Pack(m.restingId, 8) + Pack(m.incomingId, 8) + [m.restingSide];
    var price, quantity, stamp := Pack(ToUnsigned(m.price), 8), Pack(m.quantity, 4), Pack(m.timestamp, 8);
    GetPackedU64(e, head, ToUnsigned(m.price), quantity + stamp, 17);
    GetPackedU32(e, head + price, m.quantity, stamp, 25);
    GetPackedU64(e, head + price + quantity, m.timestamp, [], 29);
  }

  lemma FillRoundTrip(m: FillMsg)
    ensures DecodeFill(EncodeFill(m)) == m
  {
    FillIds(m);
    FillTrade(m);
  }

  lemma AckRoundTrip(m: AckMsg)
    ensures DecodeAck(EncodeAck(m)) == m
  {
    GetPackedU64(EncodeAck(m), [], m.id, [m.requestType, m.status], 0);
  }

  /** And every payload is the encoding of what it decodes to, so no two payloads mean the same. */
  lemma OrderPayloadsUnique(bytes: OrderPayload)
    ensures EncodeOrder(DecodeOrder(bytes)) == bytes
  {
    PackUnpack(bytes[0..8]);
    PackUnpack(bytes[10..18]);
    PackUnpack(bytes[18..22]);
    assert bytes == bytes[0..8] + [bytes[8], bytes[9]] + bytes[10..18] + bytes[18..22];
  }

  /** encode() of an order: the fields put one after the other into the output buffer. */
  method EncodeOrderInto(m: OrderMsg, out: array<Byte>)
    requires out.Length >= 22
    modifies out
    ensures out[..22] == EncodeOrder(m) && out[22..] == old(out[22..])
  {
    var p := Put(out, 0, m.id, 8);
    assert out[22..] == out[8..][14..] == old(out[8..])[14..];
    out[p] := m.side;
    out[p + 1] := m.orderType;
    ghost var head := Pack(m.id, 8) + [m.side, m.orderType];
    assert out[..10] == head && out[22..] == old(out[22..]);
    p := Put(out, p + 2, ToUnsigned(m.price), 8);
    assert out[22..] == out[18..][4..] == old(out[22..]);
    p := Put(out, p, m.quantity, 4);
  }

  /** decode_client_order(): the cursor moves over the payload field by field. */
  method DecodeOrderFrom(payload: OrderPayload) returns (m: OrderMsg)
    ensures m == DecodeOrder(payload)
    ensures EncodeOrder(m) == payload
  {
    var id, p := Get(payload, 0, 8);
    var side, orderType := payload[p], payload[p + 1];
    var price, quantity;
    price, p := Get(payload, p + 2, 8);
    quantity, p := Get(payload, p, 4);
    assert id == GetU64(payload, 0) && price == GetU64(payload, 10) && quantity == GetU32(payload, 18);
    m := OrderMsg(id, side, orderType, ToSigned(price), quantity);
    OrderPayloadsUnique(payload);
  }

  /** encode() of a fill. */
  method EncodeFillInto(m: FillMsg, out: array<Byte>)
    requires out.Length >= 37
    modifies out
    ensures out[..37] == EncodeFill(m) && out[37..] == old(out[37..])
  {
    var p := Put(out, 0, m.restingId, 8);
    assert out[37..] == out[8..][29..] == old(out[8..])[29..];
    p := Put(out, p, m.incomingId, 8);
    assert out[37..] == out[16..][21..] == old(out[37..]);
    out[p] := m.restingSide;
    ghost var head := Pack(m.restingId, 8) + Pack(m.incomingId, 8) + [m.restingSide];
    assert out[..17] == head && out[37..] == old(out[37..]);
    p := Put(out, p + 1, ToUnsigned(m.price), 8);
    assert out[37..] == out[25..][12..] == old(out[37..]);
    p := Put(out, p, m.quantity, 4);
    assert out[37..] == out[29..][8..] == old(out[37..]);
    p := Put(out, p, m.timestamp, 8);
  }

  // ----- the Rust client (risk/src/protocol.rs) -----

  datatype RustOrder = RustOrder(id: U64, side: Side, orderType: OrderType, price: I64, quantity: U32)

  datatype RustFill = RustFill(restingId: U64, incomingId: U64, restingSide: Side, price: I64, quantity: U32,
          timestamp: U64) {
    function IncomingSide(): Side {
      restingSide.Opposite()
    }
  }

  function SideByte(s: Side): Byte {
    if s == Buy then 0 else 1
  }

  function SideOf(b: Byte): Side {
    if b == 0 then Buy else Sell
  }

  function TypeByte(t: OrderType): Byte {
    if t == Limit then 0 else 1
  }

  function TypeOf(b: Byte): OrderType {
    if b == 0 then Limit else Market
  }

  /** encode_new_order: the tag, then the fields appended to a buffer. */
  function RustEncodeOrder(m: RustOrder): (bytes: seq<Byte>)
    ensures |bytes| == 23
  {
    [NEW_ORDER] + Pack(m.id, 8) + [SideByte(m.side)] + [TypeByte(m.orderType)]
    + Pack(ToUnsigned(m.price), 8) + Pack(m.quantity, 4)
  }

  function RustDecodeFill(payload: FillPayload): RustFill {
    RustFill(GetU64(payload, 0), GetU64(payload, 8), SideOf(payload[16]), ToSigned(GetU64(payload, 17)),
             GetU32(payload, 25), GetU64(payload, 29))
  }

  /** An order encoded by the Rust client is read by the C++ server with the same meaning. */
  lemma RustOrderUnderstood(m: RustOrder)
    ensures var bytes := RustEncodeOrder(m);
      var d := DecodeOrder(bytes[1..]);
      && bytes[0] == NEW_ORDER
      && d == OrderMsg(m.id, SideByte(m.side), TypeByte(m.orderType), m.price, m.quantity)
      && SideOf(d.side) == m.side && TypeOf(d.orderType) == m.orderType
  {
    var plain := OrderMsg(m.id, SideByte(m.side), TypeByte(m.orderType), m.price, m.quantity);
    assert RustEncodeOrder(m)[1..] == EncodeOrder(plain);
    OrderRoundTrip(plain);
  }

  /** A fill encoded by the C++ server is read by the Rust client with the same meaning. */
  lemma FillUnderstoodByRust(m: FillMsg, s: Side)
    requires m.restingSide == SideByte(s)
    ensures var f := RustDecodeFill(EncodeFill(m));
      && f == RustFill(m.restingId, m.incomingId, s, m.price, m.quantity, m.timestamp)
      && f.IncomingSide() == s.Opposite()
  {
    FillRoundTrip(m);
  }

  // ----- the layout -----

  /** Big-endian words of four and of eight bytes. */
  lemma FourBytes(a: Byte, b: Byte, c: Byte, d: Byte)
    ensures Unpack([a, b, c, d]) == a * 0x100_0000 + b * 0x1_0000 + c * 0x100 + d
  {
    assert [a, b, c, d][..3] == [a, b, c] && [a, b, c][..2] == [a, b] && [a, b][..1] == [a] && [a][..0] == [];
    UnpackSnoc([], a);
    UnpackSnoc([a], b);
    UnpackSnoc([a, b], c);
    UnpackSnoc([a, b, c], d);
    assert [] + [a] == [a] && [a] + [b] == [a, b] && [a, b] + [c] == [a, b, c] && [a, b, c] + [d] == [a, b, c, d];
  }

  lemma UnpackSnoc(bytes: seq<Byte>, b: Byte)
    ensures Unpack(bytes + [b]) == Unpack(bytes) * 256 + b
  {
    var all := bytes + [b];
    assert all[..|all| - 1] == bytes;
  }

  lemma EightBytes(high: seq<Byte>, low: seq<Byte>)
    requires |high| == 4 && |low| == 4
    ensures Unpack(high + low) == Unpack(high) * 0x1_0000_0000 + Unpack(low)
  {
    var a, b, c, d := low[0], low[1], low[2], low[3];
    UnpackSnoc(high, a);
    UnpackSnoc(high + [a], b);
    UnpackSnoc(high + [a] + [b], c);
    UnpackSnoc(high + [a] + [b] + [c], d);
    FourBytes(a, b, c, d);
    assert high + [a] + [b] + [c] + [d] == high + low && low == [a, b, c, d];
  }

  /** Where the fields of an order are: id, side, type, price in two's complement, quantity. */
  lemma OrderLayout(m: OrderMsg)
    ensures var e := EncodeOrder(m);
      && |e| == 22 && Unpack(e[0..8]) == m.id && e[8] == m.side && e[9] == m.orderType
      && Unpack(e[10..18]) == (if m.price >= 0 then m.price else m.price + 0x1_0000_0000_0000_0000)
      && Unpack(e[18..22]) == m.quantity
  {
    var e := EncodeOrder(m);
    PowersOfWidth();
    UnpackPack(m.id, 8);
    UnpackPack(ToUnsigned(m.price), 8);
    UnpackPack(m.quantity, 4);
    assert e[0..8] == Pack(m.id, 8) && e[10..18] == Pack(ToUnsigned(m.price), 8) && e[18..22] == Pack(m.quantity, 4);
  }

  /** And of a fill: resting id, incoming id, resting side, price, quantity, stamp. */
  lemma FillLayout(m: FillMsg)
    ensures var e := EncodeFill(m);
      && |e| == 37 && Unpack(e[0..8]) == m.restingId && Unpack(e[8..16]) == m.incomingId && e[16] == m.restingSide
      && Unpack(e[17..25]) == (if m.price >= 0 then m.price else m.price + 0x1_0000_0000_0000_0000)
      && Unpack(e[25..29]) == m.quantity && Unpack(e[29..37]) == m.timestamp
  {
    FillIds(m);
    FillTrade(m);
  }

  lemma AckLayout(m: AckMsg)
    ensures var e := EncodeAck(m);
      |e| == 10 && Unpack(e[0..8]) == m.id && e[8] == m.requestType && e[9] == m.status
  {
    PowersOfWidth();
    UnpackPack(m.id, 8);
    assert EncodeAck(m)[0..8] == Pack(m.id, 8);
  }

  /** Byte 0 is a buy and a limit order, byte 1 a sell and a market order; a byte that is neither reads as
      the latter. */
  lemma SideBytes(s: Side, t: OrderType, b: Byte)
    ensures SideByte(s) == (if s == Buy then 0 else 1) && TypeByte(t) == (if t == Limit then 0 else 1)
    ensures SideOf(b) == (if b == 0 then Buy else Sell) && TypeOf(b) == (if b == 0 then Limit else Market)
  {
  }

  /** The tags and the sizes behind them. */
  lemma PayloadSizes(tag: Byte)
    ensures PayloadSize(tag)
         == if tag == 0x01 then Some(22) else if tag == 0x02 then Some(8) else if tag == 0x03 then Some(0)
            else if tag == 0x10 then Some(37) else if tag == 0x11 then Some(10) else None
  {
  }

  /** The bytes of a new order as the Rust client sends it. */
  lemma RustOrderLayout(m: RustOrder)
    ensures var e := RustEncodeOrder(m);
      && |e| == 23 && e[0] == 0x01 && Unpack(e[1..9]) == m.id
      && e[9] == (if m.side == Buy then 0 else 1) && e[10] == (if m.orderType == Limit then 0 else 1)
      && Unpack(e[11..19]) == (if m.price >= 0 then m.price else m.price + 0x1_0000_0000_0000_0000)
      && Unpack(e[19..23]) == m.quantity
  {
    var e := RustEncodeOrder(m);
    PowersOfWidth();
    UnpackPack(m.id, 8);
    UnpackPack(ToUnsigned(m.price), 8);
    UnpackPack(m.quantity, 4);
    assert e[1..9] == Pack(m.id, 8) && e[11..19] == Pack(ToUnsigned(m.price), 8) && e[19..23] == Pack(m.quantity, 4);
  }
}
