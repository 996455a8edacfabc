/** What every other module shares: bounded integers, optional values, AppleTalk
    addresses and the tuples that routing packets carry. */
module Wire {
  type Byte = b: int | 0 <= b < 0x100
  type U16 = n: int | 0 <= n < 0x1_0000
  type Bytes = seq<Byte>

  /** A zone name: one byte per Latin-1 character, as it travels on the wire. */
  type Name = seq<Byte>

  /** A zone name on a network. */
  type ZonePair = (U16, Name)

  /** Milliseconds on a clock that never goes backwards. */
  type Time = nat

  const SECOND: nat := 1000

  datatype Option<+T> = None | Some(value: T)

  datatype Addr = Addr(net: U16, node: Byte)

  datatype Range = Range(lo: U16, hi: U16) {
    predicate Contains(net: U16) { lo <= net <= hi }

    predicate WellFormed() { lo <= hi }

    predicate Overlaps(other: Range) { lo <= other.hi && other.lo <= hi }
  }

  /** What a routing packet says of one range. */
  datatype NetworkTuple = NetworkTuple(range: Range, extended: bool, distance: Byte)

  /** How long ago `t` was; zero when `t` is not in the past. */
  function Since(now: Time, t: Time): nat {
    if t <= now then now - t else 0
  }

  function Get<K, V>(m: map<K, V>, k: K): Option<V> {
    if k in m then Some(m[k]) else None
  }

  // ASCII case folding, which is all that zone names are compared under.
  function LowerByte(b: Byte): Byte {
    if 65 <= b <= 90 then b + 32 else b
  }

  function Lower(n: Name): Name {
    seq(|n|, i requires 0 <= i < |n| => LowerByte(n[i]))
  }

  predicate SameName(a: Name, b: Name) { Lower(a) == Lower(b) }

  function HoldsName(names: seq<Name>, n: Name): bool {
    exists i :: 0 <= i < |names| && SameName(names[i], n)
  }

  /** The length a name has in memory, where a high character takes two bytes. */
  function StringLen(n: Name): nat {
    if n == [] then 0 else StringLen(n[..|n| - 1]) + if n[|n| - 1] < 0x80 then 1 else 2
  }

  lemma {:induction false} StringLenBounds(n: Name)
    ensures |n| <= StringLen(n) <= 2 * |n|
  {
    if n != [] { StringLenBounds(n[..|n| - 1]); }
  }

  function BigEndian(n: U16): Bytes { [n / 0x100, n % 0x100] }

  function FromBigEndian(hi: Byte, lo: Byte): U16 { hi * 0x100 + lo }

  predicate Distinct<T(==)>(s: seq<T>) {
    forall i, j :: 0 <= i < j < |s| ==> s[i] != s[j]
  }
}
