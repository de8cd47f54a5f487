/** Variable-length integers of QUIC, section 16 of RFC 9000, and the parse results built on them. */
module Varints {
  import opened Bytes

  const VARINT_SIZE: nat := 0x4000_0000_0000_0000

  /** A number that a varint can carry. */
  predicate Small(v: nat) {
    v < VARINT_SIZE
  }

  datatype Error =
    | ShortInput
    | LengthMismatch
    | InvalidGroupOrder
    | InvalidForwardFlag
    | InvalidFilterType
    | InvalidFetchType
    | InvalidContentExists
    | InvalidMessageType
    | InvalidStreamType
    | ExtensionsEndInError
    | MessageTooLarge

  /** A parsed value and the input that is left, or an error. */
  type Parse<+T> = Result<(T, ByteSeq), Error>

  function Pow256(k: nat): nat {
    if k == 0 then 1 else 256 * Pow256(k - 1)
  }

  lemma Powers()
    ensures Pow256(0) == 1 && Pow256(1) == 0x100 && Pow256(3) == 0x100_0000 && Pow256(7) == 0x100_0000_0000_0000
  {
  }

  /** The `k` low octets of a number, most significant first. */
  function BigEndian(v: nat, k: nat): (r: ByteSeq)
    ensures |r| == k
  {
    if k == 0 then [] else BigEndian(v / 256, k - 1) + [v % 256]
  }

  function Value(s: ByteSeq): nat {
    if s == [] then 0 else 256 * Value(s[..|s| - 1]) + s[|s| - 1]
  }

  lemma {:induction false} BigEndianValue(v: nat, k: nat)
    requires v < Pow256(k)
    ensures Value(BigEndian(v, k)) == v
  {
    if k > 0 {
      BigEndianValue(v / 256, k - 1);
      var r := BigEndian(v, k);
      assert r[..k - 1] == BigEndian(v / 256, k - 1);
    }
  }

  /** A leading octet adds itself times the weight of its place. */
  lemma {:induction false} ValueCons(q: Byte, s: ByteSeq)
    ensures Value([q] + s) == (q as int) * Pow256(|s|) + Value(s)
  {
    if s == [] {
      assert [q] + s == [q] && [q][..0] == [];
      assert Value([q]) == 256 * Value([]) + q;
    } else {
      var k := |s| - 1;
      assert ([q] + s)[..|s|] == [q] + s[..k];
      ValueCons(q, s[..k]);
      assert 256 * ((q as int) * Pow256(k)) == (q as int) * Pow256(k + 1);
    }
  }

  /** The two high bits of the first octet announce 1, 2, 4 or 8 octets. */
  function LengthOf(tag: nat): (k: nat)
    requires tag < 4
    ensures 1 <= k <= 8
  {
    if tag == 0 then 1 else if tag == 1 then 2 else if tag == 2 then 4 else 8
  }

  function TagOf(v: nat): (tag: nat)
    ensures tag < 4
  {
    if v < 0x40 then 0 else if v < 0x4000 then 1 else if v < 0x4000_0000 then 2 else 3
  }

  /** What the first octet carries besides the tag. */
  function High(v: nat): (q: nat)
    requires v < VARINT_SIZE
    ensures q < 64
  {
    if v < 0x40 then v
    else if v < 0x4000 then v / 0x100
    else if v < 0x4000_0000 then v / 0x100_0000
    else v / 0x100_0000_0000_0000
  }

  /** What the remaining octets carry. */
  function Low(v: nat): nat {
    if v < 0x40 then 0
    else if v < 0x4000 then v % 0x100
    else if v < 0x4000_0000 then v % 0x100_0000
    else v % 0x100_0000_0000_0000
  }

  lemma HighLow(v: nat)
    requires v < VARINT_SIZE
    ensures
      var p := Pow256(LengthOf(TagOf(v)) - 1);
      High(v) * p + Low(v) == v && Low(v) < p
  {
    Powers();
  }

  /** quicvarint.Append, which demands a number below two to the 62. */
  function EncodeVarint(v: nat): (r: ByteSeq)
    requires v < VARINT_SIZE
    ensures |r| == LengthOf(TagOf(v))
  {
    [64 * TagOf(v) + High(v)] + BigEndian(Low(v), LengthOf(TagOf(v)) - 1)
  }

  /** quicvarint.Parse and quicvarint.Read. */
  function ParseVarint(data: ByteSeq): (r: Parse<nat>)
    ensures r.Ok? ==> |r.value.1| < |data| && data[|data| - |r.value.1|..] == r.value.1
  {
    if data == [] then Err(ShortInput)
    else
      var k := LengthOf(data[0] / 64);
      if |data| < k then Err(ShortInput)
      else Ok((Value([data[0] % 64] + data[1..k]), data[k..]))
  }

  lemma FirstOctet(v: nat)
    requires v < VARINT_SIZE
    ensures EncodeVarint(v)[0] / 64 == TagOf(v) && EncodeVarint(v)[0] % 64 == High(v)
    ensures EncodeVarint(v)[1..] == BigEndian(Low(v), LengthOf(TagOf(v)) - 1)
  {
  }

  /** Any number below two to the 62 comes back, and exactly its octets are consumed. */
  lemma VarintRoundTrip(v: nat, rest: ByteSeq)
    requires v < VARINT_SIZE
    ensures ParseVarint(EncodeVarint(v) + rest) == Ok((v, rest))
  {
    var r := EncodeVarint(v);
    var data := r + rest;
    var k := LengthOf(TagOf(v)) - 1;
    FirstOctet(v);
    assert data[0] == r[0] && data[1..k + 1] == r[1..] && data[k + 1..] == rest;
    HighLow(v);
    BigEndianValue(Low(v), k);
    ValueCons(High(v), r[1..]);
  }

  /** The sample encodings of appendix A.1 of RFC 9000. */
  lemma RfcSamples()
    ensures EncodeVarint(37) == [0x25]
    ensures EncodeVarint(15_293) == [0x7b, 0xbd]
    ensures EncodeVarint(494_878_333) == [0x9d, 0x7f, 0x3e, 0x7d]
    ensures EncodeVarint(151_288_809_941_952_652) == [0xc2, 0x19, 0x7c, 0x5e, 0xff, 0x14, 0xe8, 0x8c]
  {
    hide BigEndian;
    EndsWith(0, 0);
    EndsWith(0xbd, 1);
    EndsWith(0x7f_3e7d, 3);
    EndsWith(0x7f3e, 2);
    EndsWith(0x7f, 1);
    LongSample();
  }

  lemma LongSample()
    ensures EncodeVarint(151_288_809_941_952_652) == [0xc2, 0x19, 0x7c, 0x5e, 0xff, 0x14, 0xe8, 0x8c]
  {
    hide BigEndian;
    EndsWith(0, 0);
    EndsWith(0x19, 1);
    EndsWith(0x197c, 2);
    EndsWith(0x19_7c5e, 3);
    EndsWith(0x197c_5eff, 4);
    EndsWith(0x19_7c5e_ff14, 5);
    EndsWith(0x197c_5eff_14e8, 6);
    EndsWith(0x19_7c5e_ff14_e88c, 7);
    assert Low(151_288_809_941_952_652) == 0x19_7c5e_ff14_e88c;
  }

  lemma EndsWith(v: nat, k: nat)
    ensures BigEndian(v, k) == if k == 0 then [] else BigEndian(v / 256, k - 1) + [v % 256]
  {
  }

  /** A varint may be longer than necessary. */
  lemma LongVarint(rest: ByteSeq)
    ensures ParseVarint([0x40, 0x25] + rest) == Ok((37, rest))
  {
    var data: ByteSeq := [0x40, 0x25] + rest;
    assert data[0] == 0x40 && data[1..2] == [0x25] && data[2..] == rest;
    var tail: ByteSeq := [0x25];
    ValueCons(0, tail);
    assert tail[..0] == [] && Value(tail) == 256 * Value(tail[..0]) + 37;
    assert [data[0] % 64] + data[1..2] == [0] + tail;
  }

  /** A varint cut short is never mistaken for another one. */
  lemma VarintCut(v: nat, n: nat)
    requires v < VARINT_SIZE && n < |EncodeVarint(v)|
    ensures ParseVarint(EncodeVarint(v)[..n]).Err?
  {
  }

  /** Cutting a concatenation cuts its first part or leaves it whole. */
  lemma CutConcat(a: ByteSeq, b: ByteSeq, n: nat)
    requires n <= |a| + |b|
    ensures n < |a| ==> (a + b)[..n] == a[..n]
    ensures n >= |a| ==> (a + b)[..n] == a + b[..n - |a|]
  {
  }
}
