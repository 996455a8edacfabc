/** Packets whose bytes are known, as the formats are fixed outside this program: each
    reads as it should and is written back byte for byte. */
module KnownPackets {
  import opened Wire
  import Ddp
  import TupleCodec

  const DATAGRAM_BYTES: Bytes := [0x14, 17, 0x12, 0x34, 0x00, 0x03, 0xff, 0x00, 42, 128, 253, 6, 3, 9, 9, 9, 9]
  const DATAGRAM := Ddp.Datagram(5, 17, 0x1234, Addr(3, 42), 253, Addr(65280, 128), 6, 3, [9, 9, 9, 9])

  /** A datagram five hops on its way, from 65280.128 socket 6 to 3.42 socket 253. */
  lemma KnownDatagram()
    ensures Ddp.Encode(DATAGRAM) == DATAGRAM_BYTES && Ddp.Parse(DATAGRAM_BYTES) == Some(DATAGRAM)
  {
    hide Ddp.Parse, Ddp.Encode;
    KnownHeader(BigEndian(0x1234), BigEndian(3), BigEndian(65280));
    Ddp.ComesBack(DATAGRAM);
  }

  lemma KnownHeader(checksum: Bytes, dst: Bytes, src: Bytes)
    requires checksum == BigEndian(0x1234) && dst == BigEndian(3) && src == BigEndian(65280)
    ensures Ddp.Encode(DATAGRAM) == DATAGRAM_BYTES
  {
    assert checksum == [0x12, 0x34] && dst == [0, 3] && src == [0xff, 0];
    hide BigEndian;
    var d := DATAGRAM;
    assert Ddp.Encode(d) == [5 * 4, 17] + checksum + dst + src + [42, 128, 253, 6, 3] + [9, 9, 9, 9];
  }

  /** A short header on network 6800, from node 3 to node 12. */
  lemma KnownShortHeader()
    ensures Ddp.FromShort([0x00, 0x09, 253, 252, 3, 0xde, 0xad, 0xbe, 0xef], 6800, 12, 3)
         == Some(Ddp.Datagram(0, 17, 0, Addr(6800, 12), 253, Addr(6800, 3), 252, 3, [0xde, 0xad, 0xbe, 0xef]))
  {
  }

  /** An RTMP packet from 6800.1, on a cable of range 6800 to 6800: 6801 at one hop,
      nonextended, and the range 2905 to 2906 at two. */
  lemma KnownRoutingPacket()
    ensures var p: Bytes := [0x1a, 0x90, 8, 1, 0x1a, 0x90, 0x80, 0x1a, 0x90, 0x82,
                             0x1a, 0x91, 0x01, 0x0b, 0x59, 0x82, 0x0b, 0x5a, 0x82];
            var d := TupleCodec.RtmpData(Addr(6800, 1), Some(Range(6800, 6800)),
                                         [NetworkTuple(Range(6801, 6801), false, 1), NetworkTuple(Range(2905, 2906), true, 2)]);
            TupleCodec.ParseRtmp(p) == Some(d) && TupleCodec.EncodeRtmp(d) == p
  {
    var x, y := NetworkTuple(Range(6801, 6801), false, 1), NetworkTuple(Range(2905, 2906), true, 2);
    var d := TupleCodec.RtmpData(Addr(6800, 1), Some(Range(6800, 6800)), [x, y]);
    KnownBytes(d);
    assert TupleCodec.AllCarriable(d.tuples);
    hide TupleCodec.EncodeRtmp, TupleCodec.ParseRtmp, TupleCodec.AllCarriable;
    TupleCodec.RtmpRoundTrip(d);
  }

  lemma KnownBytes(d: TupleCodec.RtmpData)
    requires d.sender == Addr(6800, 1) && d.range == Some(Range(6800, 6800))
    requires d.tuples == [NetworkTuple(Range(6801, 6801), false, 1), NetworkTuple(Range(2905, 2906), true, 2)]
    ensures TupleCodec.EncodeRtmp(d) == [0x1a, 0x90, 8, 1, 0x1a, 0x90, 0x80, 0x1a, 0x90, 0x82,
                                         0x1a, 0x91, 0x01, 0x0b, 0x59, 0x82, 0x0b, 0x5a, 0x82]
  {
    TwoKnownTuples(d.tuples[0], d.tuples[1]);
    hide TupleCodec.EncodeTuples;
    assert TupleCodec.First(d.range) == [0x1a, 0x90, 0x80, 0x1a, 0x90, 0x82];
    assert BigEndian(6800) == [0x1a, 0x90];
  }

  lemma TwoKnownTuples(x: NetworkTuple, y: NetworkTuple)
    requires x == NetworkTuple(Range(6801, 6801), false, 1) && y == NetworkTuple(Range(2905, 2906), true, 2)
    ensures TupleCodec.EncodeTuples([x, y], 0x82) == [0x1a, 0x91, 0x01, 0x0b, 0x59, 0x82, 0x0b, 0x5a, 0x82]
  {
    TwoTuples(x, y, 0x82);
    hide TupleCodec.EncodeTuples;
    assert TupleCodec.EncodeTuple(x, 0x82) == [0x1a, 0x91, 0x01];
    assert TupleCodec.EncodeTuple(y, 0x82) == [0x0b, 0x59, 0x82, 0x0b, 0x5a, 0x82];
  }

  lemma TwoTuples(x: NetworkTuple, y: NetworkTuple, trailer: Byte)
    ensures TupleCodec.EncodeTuples([x, y], trailer) == TupleCodec.EncodeTuple(x, trailer) + TupleCodec.EncodeTuple(y, trailer)
  {
    assert [x, y][1..] == [y] && [y][1..] == [];
    assert TupleCodec.EncodeTuples([y], trailer) == TupleCodec.EncodeTuple(y, trailer);
  }

  /** On a cable without a range the version marker stands in: 7, unreachable, from 5.128. */
  lemma KnownPlainRoutingPacket()
    ensures var p: Bytes := [0x00, 0x05, 8, 0x80, 0x00, 0x00, 0x82, 0x00, 0x07, 0x1f];
            var d := TupleCodec.RtmpData(Addr(5, 128), None, [NetworkTuple(Range(7, 7), false, 31)]);
            TupleCodec.ParseRtmp(p) == Some(d) && TupleCodec.EncodeRtmp(d) == p
  {
    var x := NetworkTuple(Range(7, 7), false, 31);
    var d := TupleCodec.RtmpData(Addr(5, 128), None, [x]);
    assert TupleCodec.EncodeTuples([x], 0x82) == [0x00, 0x07, 0x1f] by {
      assert [x][1..] == [];
      assert TupleCodec.EncodeTuple(x, 0x82) == [0x00, 0x07, 0x1f];
    }
    assert TupleCodec.EncodeRtmp(d) == [0x00, 0x05, 8, 0x80, 0x00, 0x00, 0x82, 0x00, 0x07, 0x1f] by {
      hide TupleCodec.EncodeTuples;
    }
    assert TupleCodec.AllCarriable(d.tuples);
    hide TupleCodec.EncodeRtmp, TupleCodec.ParseRtmp, TupleCodec.AllCarriable;
    TupleCodec.RtmpRoundTrip(d);
  }
}
