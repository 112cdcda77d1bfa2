/** Finding the public key in a binary OpenPGP key (`firstPublicKeyPacket` in app/js/avatar.js): a walk
    over packets, against the syntax of sections 4.2.1 and 4.2.2 of RFC 9580. */
module Packets {
  import opened Binary
  import opened Options

  const PUBLIC_KEY := 6

  // ---------------------------------------------------------------- the walk

  datatype Header = Header(tag: nat, size: nat, length: nat)

  function Number2(b: Bytes, i: nat): nat
    requires i + 2 <= |b|
  {
    256 * (b[i] as int) + b[i + 1] as int
  }

  function Number4(b: Bytes, i: nat): nat
    requires i + 4 <= |b|
  {
    65536 * Number2(b, i) + Number2(b, i + 2)
  }

  function NewHeader(b: Bytes, i: nat): Option<Header>
    requires i < |b|
  {
    var tag := b[i] as int % 64;
    if i + 1 >= |b| then None
    else if b[i + 1] < 192 then Some(Header(tag, 2, b[i + 1]))
    else if b[i + 1] < 224 then
      if i + 2 >= |b| then None else Some(Header(tag, 3, (b[i + 1] as int - 192) * 256 + b[i + 2] as int + 192))
    else if b[i + 1] == 255 then if i + 5 >= |b| then None else Some(Header(tag, 6, Number4(b, i + 2)))
    else None
  }

  function OldHeader(b: Bytes, i: nat): Option<Header>
    requires i < |b|
  {
    var tag := b[i] as int / 4 % 16;
    match b[i] as int % 4
    case 0 => if i + 1 >= |b| then None else Some(Header(tag, 2, b[i + 1]))
    case 1 => if i + 2 >= |b| then None else Some(Header(tag, 3, Number2(b, i + 1)))
    case 2 => if i + 4 >= |b| then None else Some(Header(tag, 5, Number4(b, i + 1)))
    case _ => None
  }

  /** The header at i, if the packet it announces is there. */
  function HeaderAt(b: Bytes, i: nat): (h: Option<Header>)
    ensures h.Some? ==> h.value.size >= 2 && i + h.value.size + h.value.length <= |b|
  {
    if i >= |b| || b[i] < 128 then None
    else
      var h := if b[i] as int / 64 % 2 == 1 then NewHeader(b, i) else OldHeader(b, i);
      if h.None? || i + h.value.size + h.value.length > |b| then None else h
  }

  /** The body of the first public-key packet from i on. */
  function FirstKey(b: Bytes, i: nat): Option<Bytes>
    decreases |b| - i
  {
    var h := HeaderAt(b, i);
    if h.None? then None
    else
      var start := i + h.value.size;
      if h.value.tag == PUBLIC_KEY then Some(b[start..start + h.value.length]) else FirstKey(b, start + h.value.length)
  }

  /** The loop: it ends, and reads within bounds, on any bytes at all. */
  method FirstPublicKeyPacket(bytes: Bytes) returns (body: Option<Bytes>)
    ensures body == FirstKey(bytes, 0)
  {
    hide Number2, Number4;
    var i := 0;
    while i < |bytes|
      invariant 0 <= i <= |bytes|
      invariant FirstKey(bytes, i) == FirstKey(bytes, 0)
      decreases |bytes| - i
    {
      var b := bytes[i] as int;
      if b < 128 {
        return None;
      }
      var tag, size, length;
      if b / 64 % 2 == 1 {
        tag := b % 64;
        if i + 1 >= |bytes| {
          return None;
        }
        var l1 := bytes[i + 1] as int;
        if l1 < 192 {
          size, length := 2, l1;
        } else if l1 < 224 {
          if i + 2 >= |bytes| {
            return None;
          }
          size, length := 3, (l1 - 192) * 256 + bytes[i + 2] as int + 192;
        } else if l1 == 255 {
          if i + 5 >= |bytes| {
            return None;
          }
          size, length := 6, Number4(bytes, i + 2);
        } else {
          return None;
        }
      } else {
        tag := b / 4 % 16;
        var kind := b % 4;
        if kind == 0 {
          if i + 1 >= |bytes| {
            return None;
          }
          size, length := 2, bytes[i + 1] as int;
        } else if kind == 1 {
          if i + 2 >= |bytes| {
            return None;
          }
          size, length := 3, Number2(bytes, i + 1);
        } else if kind == 2 {
          if i + 4 >= |bytes| {
            return None;
          }
          size, length := 5, Number4(bytes, i + 1);
        } else {
          return None;
        }
      }
      if i + size + length > |bytes| {
        return None;
      }
      assert HeaderAt(bytes, i) == Some(Header(tag, size, length));
      if tag == PUBLIC_KEY {
        return Some(bytes[i + size..i + size + length]);
      }
      i := i + size + length;
    }
    return None;
  }

  // ---------------------------------------------------------------- the syntax

  /** The length formats of section 4.2.1 (new) and 4.2.2 (legacy) that announce a definite length. */
  datatype Format = New1 | New2 | New5 | Old1 | Old2 | Old4

  datatype Packet = Packet(format: Format, tag: nat, body: Bytes)

  predicate WellFormed(p: Packet) {
    var n := |p.body|;
    match p.format
    case New1 => p.tag < 64 && n < 192
    case New2 => p.tag < 64 && 192 <= n < 8384
    case New5 => p.tag < 64 && n < 0x1_0000_0000
    case Old1 => p.tag < 16 && n < 256
    case Old2 => p.tag < 16 && n < 65536
    case Old4 => p.tag < 16 && n < 0x1_0000_0000
  }

  function Octets2(n: nat): Bytes
    requires n < 65536
  {
    [n / 256, n % 256]
  }

  function Octets4(n: nat): Bytes
    requires n < 0x1_0000_0000
  {
    Octets2(n / 65536) + Octets2(n % 65536)
  }

  function EncodeHeader(p: Packet): Bytes
    requires WellFormed(p)
  {
    var n := |p.body|;
    match p.format
    case New1 => [192 + p.tag, n]
    case New2 => [192 + p.tag, (n - 192) / 256 + 192, (n - 192) % 256]
    case New5 => [192 + p.tag, 255] + Octets4(n)
    case Old1 => [128 + 4 * p.tag, n]
    case Old2 => [128 + 4 * p.tag + 1] + Octets2(n)
    case Old4 => [128 + 4 * p.tag + 2] + Octets4(n)
  }

  function Encode(p: Packet): Bytes
    requires WellFormed(p)
  {
    EncodeHeader(p) + p.body
  }

  predicate AllWellFormed(ps: seq<Packet>) {
    forall k :: 0 <= k < |ps| ==> WellFormed(ps[k])
  }

  function EncodeAll(ps: seq<Packet>): Bytes
    requires AllWellFormed(ps)
  {
    if ps == [] then [] else Encode(ps[0]) + EncodeAll(ps[1..])
  }

  /** The body of the first packet with the public-key tag. */
  function FirstKeyOf(ps: seq<Packet>): Option<Bytes> {
    if ps == [] then None
    else if ps[0].tag == PUBLIC_KEY then Some(ps[0].body)
    else FirstKeyOf(ps[1..])
  }

  lemma Octets4Read(n: nat, b: Bytes, i: nat)
    requires n < 0x1_0000_0000 && i + 4 <= |b| && b[i..i + 4] == Octets4(n)
    ensures Number4(b, i) == n
  {
    var o := b[i..i + 4];
    assert b[i] == o[0] && b[i + 1] == o[1] && b[i + 2] == o[2] && b[i + 3] == o[3];
    assert n == 65536 * (n / 65536) + n % 65536;
  }

  /** The walk reads back the header that was written, wherever the packet stands. */
  lemma HeaderReads(p: Packet, b: Bytes, i: nat)
    requires WellFormed(p) && i + |Encode(p)| <= |b| && b[i..i + |Encode(p)|] == Encode(p)
    ensures HeaderAt(b, i) == Some(Header(p.tag, |EncodeHeader(p)|, |p.body|))
  {
    HeaderStands(p, b, i);
    if p.format.New1? || p.format.New2? || p.format.New5? {
      NewReads(p, b, i);
    } else {
      OldReads(p, b, i);
    }
    hide NewHeader, OldHeader, WellFormed;
  }

  /** The octets of the header stand at i. */
  predicate Stands(h: Bytes, b: Bytes, i: nat) {
    i + |h| <= |b| && b[i..i + |h|] == h && forall k :: 0 <= k < |h| ==> b[i + k] == h[k]
  }

  lemma NewReads(p: Packet, b: Bytes, i: nat)
    requires WellFormed(p) && p.format in {New1, New2, New5} && Stands(EncodeHeader(p), b, i)
    ensures b[i] as int / 64 == 3
    ensures NewHeader(b, i) == Some(Header(p.tag, |EncodeHeader(p)|, |p.body|))
  {
    var h := EncodeHeader(p);
    assert b[i] == h[0] && b[i + 1] == h[1];
    if p.format == New5 {
      assert b[i..i + |h|][2..6] == b[i + 2..i + 6];
      assert b[i + 2..i + 6] == h[2..6] == Octets4(|p.body|);
      Octets4Read(|p.body|, b, i + 2);
      hide Octets4, Number4;
    } else if p.format == New2 {
      assert b[i + 2] == h[2];
    }
  }

  lemma OldReads(p: Packet, b: Bytes, i: nat)
    requires WellFormed(p) && p.format in {Old1, Old2, Old4} && Stands(EncodeHeader(p), b, i)
    ensures b[i] as int / 64 == 2
    ensures OldHeader(b, i) == Some(Header(p.tag, |EncodeHeader(p)|, |p.body|))
  {
    var h := EncodeHeader(p);
    assert b[i] == h[0] && b[i + 1] == h[1];
    if p.format == Old4 {
      assert b[i..i + |h|][1..5] == b[i + 1..i + 5];
      assert b[i + 1..i + 5] == h[1..5] == Octets4(|p.body|);
      Octets4Read(|p.body|, b, i + 1);
      hide Octets4, Number4;
    } else if p.format == Old2 {
      assert b[i + 2] == h[2];
    }
  }

  lemma HeaderStands(p: Packet, b: Bytes, i: nat)
    requires WellFormed(p) && i + |Encode(p)| <= |b| && b[i..i + |Encode(p)|] == Encode(p)
    ensures var h := EncodeHeader(p);
            && i + |h| + |p.body| <= |b|
            && |Encode(p)| == |h| + |p.body|
            && Stands(h, b, i)
            && b[i + |h|..i + |h| + |p.body|] == p.body
  {
    var h := EncodeHeader(p);
    var e := b[i..i + |Encode(p)|];
    assert e == h + p.body;
    assert b[i..i + |h|] == e[..|h|] == h;
    forall k | 0 <= k < |h| ensures b[i + k] == h[k] {
      assert e[k] == b[i + k];
    }
    assert b[i + |h|..i + |h| + |p.body|] == e[|h|..];
  }

  /** One packet: its body if it is a public key, else the walk goes on behind it. */
  lemma PacketWalked(p: Packet, b: Bytes, i: nat)
    requires WellFormed(p) && i + |Encode(p)| <= |b| && b[i..i + |Encode(p)|] == Encode(p)
    ensures FirstKey(b, i) == if p.tag == PUBLIC_KEY then Some(p.body) else FirstKey(b, i + |Encode(p)|)
  {
    HeaderReads(p, b, i);
    HeaderStands(p, b, i);
    hide WellFormed, EncodeHeader, HeaderAt;
  }

  /** For every well-formed packet sequence, new and legacy headers mixed, wherever it stands and
      whatever follows: the result is the body of the first public-key packet; without one the walk goes
      on behind it. */
  lemma {:induction false} FindsFirstKey(ps: seq<Packet>, b: Bytes, i: nat)
    requires AllWellFormed(ps) && i + |EncodeAll(ps)| <= |b| && b[i..i + |EncodeAll(ps)|] == EncodeAll(ps)
    ensures FirstKey(b, i) == if FirstKeyOf(ps).Some? then FirstKeyOf(ps) else FirstKey(b, i + |EncodeAll(ps)|)
  {
    if ps != [] {
      AllStand(ps, b, i);
      PacketWalked(ps[0], b, i);
      hide WellFormed, EncodeHeader, HeaderAt, FirstKey, Encode;
      FindsFirstKey(ps[1..], b, i + |Encode(ps[0])|);
    }
  }

  lemma AllStand(ps: seq<Packet>, b: Bytes, i: nat)
    requires ps != [] && AllWellFormed(ps)
    requires i + |EncodeAll(ps)| <= |b| && b[i..i + |EncodeAll(ps)|] == EncodeAll(ps)
    ensures var n := |Encode(ps[0])|;
            && |EncodeAll(ps)| == n + |EncodeAll(ps[1..])|
            && b[i..i + n] == Encode(ps[0])
            && b[i + n..i + n + |EncodeAll(ps[1..])|] == EncodeAll(ps[1..])
  {
    hide WellFormed, Encode;
    var n := |Encode(ps[0])|;
    var all := b[i..i + |EncodeAll(ps)|];
    assert all == Encode(ps[0]) + EncodeAll(ps[1..]);
    assert all[..n] == Encode(ps[0]) && all[n..] == EncodeAll(ps[1..]);
    assert b[i..i + n] == all[..n];
    assert b[i + n..i + n + |EncodeAll(ps[1..])|] == all[n..];
  }

  /** So the walk over a whole key finds the first public key, or nothing if there is none. */
  lemma WholeKey(ps: seq<Packet>)
    requires AllWellFormed(ps)
    ensures FirstKey(EncodeAll(ps), 0) == FirstKeyOf(ps)
  {
    assert EncodeAll(ps)[0..0 + |EncodeAll(ps)|] == EncodeAll(ps);
    FindsFirstKey(ps, EncodeAll(ps), 0);
  }
}
