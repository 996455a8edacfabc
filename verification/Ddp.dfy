/** The DDP datagram with its 13-byte extended header, and LocalTalk's short header
    lifted into it. */
module Ddp {
  import opened Wire

  const HEADER: nat := 13

  datatype Datagram = Datagram(hops: Byte, length: U16, checksum: U16, dst: Addr, dstSocket: Byte,
                               src: Addr, srcSocket: Byte, typ: Byte, data: Bytes)

  function Parse(p: Bytes): Option<Datagram> {
    if |p| < HEADER then None
    else
      Some(Datagram(p[0] / 4 % 16, FromBigEndian(p[0] % 4, p[1]), FromBigEndian(p[2], p[3]),
                    Addr(FromBigEndian(p[4], p[5]), p[8]), p[10],
                    Addr(FromBigEndian(p[6], p[7]), p[9]), p[11], p[12], p[HEADER..]))
  }

  /** The hop count has four bits and the length ten; both are cut to fit. */
  function Encode(d: Datagram): Bytes {
    var len := HEADER + |d.data|;
    [d.hops % 16 * 4 + len / 0x100 % 4, len % 0x100]
    + BigEndian(d.checksum) + BigEndian(d.dst.net) + BigEndian(d.src.net)
    + [d.dst.node, d.src.node, d.dstSocket, d.srcSocket, d.typ] + d.data
  }

  /** The short header omits what LLAP and the one network already say. */
  function FromShort(p: Bytes, net: U16, dst: Byte, src: Byte): Option<Datagram> {
    if |p| < 5 || FromBigEndian(p[0] % 4, p[1]) != |p| then None
    else Some(Datagram(0, HEADER + |p| - 5, 0, Addr(net, dst), p[2], Addr(net, src), p[3], p[4], p[5..]))
  }

  lemma HeadBytes(hops: Byte, len: nat)
    ensures var h := hops % 16 * 4 + len / 0x100 % 4;
            h / 4 % 16 == hops % 16 && h % 4 == len / 0x100 % 4 && h % 4 * 0x100 + len % 0x100 == len % 0x400
  {
  }

  lemma BigEndianRoundTrips(n: U16)
    ensures FromBigEndian(BigEndian(n)[0], BigEndian(n)[1]) == n
  {
  }

  /** The round trip: all of it comes back, with the hop count cut to four bits and
      the length field the true length modulo 1024. */
  lemma ComesBack(d: Datagram)
    ensures Parse(Encode(d)) == Some(d.(hops := d.hops % 16, length := (HEADER + |d.data|) % 0x400))
  {
    var p, len := Encode(d), HEADER + |d.data|;
    HeadBytes(d.hops, len);
    BigEndianRoundTrips(d.checksum);
    BigEndianRoundTrips(d.dst.net);
    BigEndianRoundTrips(d.src.net);
    assert p[0] == d.hops % 16 * 4 + len / 0x100 % 4 && p[1] == len % 0x100;
    assert p[2..4] == BigEndian(d.checksum) && p[4..6] == BigEndian(d.dst.net) && p[6..8] == BigEndian(d.src.net);
    assert p[2] == BigEndian(d.checksum)[0] && p[3] == BigEndian(d.checksum)[1];
    assert p[4] == BigEndian(d.dst.net)[0] && p[5] == BigEndian(d.dst.net)[1];
    assert p[6] == BigEndian(d.src.net)[0] && p[7] == BigEndian(d.src.net)[1];
    assert p[8] == d.dst.node && p[9] == d.src.node && p[10] == d.dstSocket && p[11] == d.srcSocket && p[12] == d.typ;
    assert p[HEADER..] == d.data;
  }

  lemma FitsTenBits(n: nat)
    ensures n == n % 0x400 <==> n < 0x400
  {
  }

  /** The short header drops what LLAP already said. */
  function EncodeShort(d: Datagram): Bytes {
    var len := 5 + |d.data|;
    [len / 0x100 % 4, len % 0x100, d.dstSocket, d.srcSocket, d.typ] + d.data
  }

  lemma ShortLength(len: nat)
    ensures FromBigEndian(len / 0x100 % 4 % 4, len % 0x100) == len % 0x400
  {
  }

  /** On its own network a short header gives back everything but the hop count, the
      checksum and the source's network, exactly when its length fits ten bits. */
  lemma ShortComesBack(d: Datagram)
    requires |d.data| < 0x1_0000 - HEADER
    ensures var back := d.(hops := 0, checksum := 0, length := HEADER + |d.data|, src := Addr(d.dst.net, d.src.node));
            FromShort(EncodeShort(d), d.dst.net, d.dst.node, d.src.node) ==
            if 5 + |d.data| < 0x400 then Some(back) else None
  {
    ShortLength(5 + |d.data|);
    FitsTenBits(5 + |d.data|);
    assert EncodeShort(d)[5..] == d.data;
  }
}
