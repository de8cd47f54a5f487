/** The repeated fields of control messages: byte strings, tuples, versions and key-value pairs. */
module WireFields {
  import opened Bytes
  import opened Varints

  // ---------------------------------------------------------------- byte strings

  function EncodeBytes(s: ByteSeq): ByteSeq
    requires Small(|s|)
  {
    EncodeVarint(|s|) + s
  }

  /** parseVarIntBytes, and the elements of parseTuple; they differ in the error for missing octets. */
  function ParseBytes(data: ByteSeq, short: Error): Parse<ByteSeq> {
    var (l, d) :- ParseVarint(data);
    if |d| < l then Err(short) else Ok((d[..l], d[l..]))
  }

  lemma BytesRoundTrip(s: ByteSeq, rest: ByteSeq, short: Error)
    requires Small(|s|)
    ensures ParseBytes(EncodeBytes(s) + rest, short) == Ok((s, rest))
  {
    hide EncodeVarint, ParseVarint;
    assert EncodeBytes(s) + rest == EncodeVarint(|s|) + (s + rest);
    VarintRoundTrip(|s|, s + rest);
    assert (s + rest)[..|s|] == s && (s + rest)[|s|..] == rest;
  }

  // ---------------------------------------------------------------- tuples

  predicate SmallItems(t: seq<ByteSeq>) {
    Small(|t|) && forall i :: 0 <= i < |t| ==> Small(|t[i]|)
  }

  function EncodeItems(t: seq<ByteSeq>): ByteSeq
    requires forall i :: 0 <= i < |t| ==> Small(|t[i]|)
  {
    if t == [] then [] else EncodeBytes(t[0]) + EncodeItems(t[1..])
  }

  function EncodeTuple(t: seq<ByteSeq>): ByteSeq
    requires SmallItems(t)
  {
    EncodeVarint(|t|) + EncodeItems(t)
  }

  /** The loop of parseTuple from the point where `t` has been read and `n` elements are missing. */
  function ParseItems(t: seq<ByteSeq>, n: nat, data: ByteSeq): Parse<seq<ByteSeq>>
    decreases n
  {
    if n == 0 then Ok((t, data))
    else
      var (s, d) :- ParseBytes(data, LengthMismatch);
      ParseItems(t + [s], n - 1, d)
  }

  function ParseTuple(data: ByteSeq): Parse<seq<ByteSeq>> {
    var (n, d) :- ParseVarint(data);
    ParseItems([], n, d)
  }

  lemma {:induction false} ItemsRoundTrip(done: seq<ByteSeq>, t: seq<ByteSeq>, rest: ByteSeq)
    requires forall i :: 0 <= i < |t| ==> Small(|t[i]|)
    ensures ParseItems(done, |t|, EncodeItems(t) + rest) == Ok((done + t, rest))
    decreases |t|
  {
    hide EncodeBytes, ParseBytes;
    if t == [] {
      assert EncodeItems(t) + rest == rest && done + t == done;
    } else {
      var tail := EncodeItems(t[1..]) + rest;
      assert EncodeItems(t) + rest == EncodeBytes(t[0]) + tail;
      BytesRoundTrip(t[0], tail, LengthMismatch);
      ItemsRoundTrip(done + [t[0]], t[1..], rest);
      assert (done + [t[0]]) + t[1..] == done + t;
    }
  }

  lemma TupleRoundTrip(t: seq<ByteSeq>, rest: ByteSeq)
    requires SmallItems(t)
    ensures ParseTuple(EncodeTuple(t) + rest) == Ok((t, rest))
  {
    hide EncodeVarint, ParseVarint, EncodeItems, ParseItems;
    assert EncodeTuple(t) + rest == EncodeVarint(|t|) + (EncodeItems(t) + rest);
    VarintRoundTrip(|t|, EncodeItems(t) + rest);
    ItemsRoundTrip([], t, rest);
    assert [] + t == t;
  }

  /** Tuple.append. */
  method AppendTuple(buf: ByteSeq, t: seq<ByteSeq>) returns (r: ByteSeq)
    requires SmallItems(t)
    ensures r == buf + EncodeTuple(t)
  {
    hide EncodeVarint, EncodeBytes;
    r := buf + EncodeVarint(|t|);
    for i := 0 to |t|
      invariant r + EncodeItems(t[i..]) == buf + EncodeTuple(t)
    {
      var tail := EncodeItems(t[i + 1..]);
      assert t[i..][1..] == t[i + 1..];
      assert r + (EncodeBytes(t[i]) + tail) == (r + EncodeBytes(t[i])) + tail;
      r := r + EncodeBytes(t[i]);
    }
    assert r + EncodeItems([]) == r;
  }

  /** parseTuple. */
  method ReadTuple(input: ByteSeq) returns (r: Parse<seq<ByteSeq>>)
    ensures r == ParseTuple(input)
  {
    hide ParseVarint, ParseBytes;
    var length := ParseVarint(input);
    if length.Err? {
      return Err(length.error);
    }
    var n, data := length.value.0, length.value.1;
    var tuple: seq<ByteSeq> := [];
    for i := 0 to n
      invariant ParseItems(tuple, n - i, data) == ParseTuple(input)
    {
      var s := ParseBytes(data, LengthMismatch);
      if s.Err? {
        return Err(s.error);
      }
      tuple, data := tuple + [s.value.0], s.value.1;
    }
    return Ok((tuple, data));
  }

  // ---------------------------------------------------------------- versions

  predicate SmallNumbers(v: seq<nat>) {
    Small(|v|) && forall i :: 0 <= i < |v| ==> Small(v[i])
  }

  function EncodeNumbers(v: seq<nat>): ByteSeq
    requires forall i :: 0 <= i < |v| ==> Small(v[i])
  {
    if v == [] then []
    else
      assert Small(v[0]);
      EncodeVarint(v[0]) + EncodeNumbers(v[1..])
  }

  function EncodeVersions(v: seq<nat>): ByteSeq
    requires SmallNumbers(v)
  {
    EncodeVarint(|v|) + EncodeNumbers(v)
  }

  function ParseNumbers(v: seq<nat>, n: nat, data: ByteSeq): Parse<seq<nat>>
    decreases n
  {
    if n == 0 then Ok((v, data))
    else
      var (x, d) :- ParseVarint(data);
      ParseNumbers(v + [x], n - 1, d)
  }

  function ParseVersions(data: ByteSeq): Parse<seq<nat>> {
    var (n, d) :- ParseVarint(data);
    ParseNumbers([], n, d)
  }

  lemma {:induction false} NumbersRoundTrip(done: seq<nat>, v: seq<nat>, rest: ByteSeq)
    requires forall i :: 0 <= i < |v| ==> Small(v[i])
    ensures ParseNumbers(done, |v|, EncodeNumbers(v) + rest) == Ok((done + v, rest))
    decreases |v|
  {
    hide EncodeVarint, ParseVarint;
    if v == [] {
      assert EncodeNumbers(v) + rest == rest && done + v == done;
    } else {
      var tail := EncodeNumbers(v[1..]) + rest;
      assert EncodeNumbers(v) + rest == EncodeVarint(v[0]) + tail;
      VarintRoundTrip(v[0], tail);
      NumbersRoundTrip(done + [v[0]], v[1..], rest);
      assert (done + [v[0]]) + v[1..] == done + v;
    }
  }

  lemma VersionsRoundTrip(v: seq<nat>, rest: ByteSeq)
    requires SmallNumbers(v)
    ensures ParseVersions(EncodeVersions(v) + rest) == Ok((v, rest))
  {
    hide EncodeVarint, ParseVarint, EncodeNumbers, ParseNumbers;
    assert EncodeVersions(v) + rest == EncodeVarint(|v|) + (EncodeNumbers(v) + rest);
    VarintRoundTrip(|v|, EncodeNumbers(v) + rest);
    NumbersRoundTrip([], v, rest);
    assert [] + v == v;
  }

  /** versions.parse. */
  method ReadVersions(input: ByteSeq) returns (r: Parse<seq<nat>>)
    ensures r == ParseVersions(input)
  {
    hide ParseVarint;
    var count := ParseVarint(input);
    if count.Err? {
      return Err(count.error);
    }
    var n, data := count.value.0, count.value.1;
    var vs: seq<nat> := [];
    for i := 0 to n
      invariant ParseNumbers(vs, n - i, data) == ParseVersions(input)
    {
      var x := ParseVarint(data);
      if x.Err? {
        return Err(x.error);
      }
      vs, data := vs + [x.value.0], x.value.1;
    }
    return Ok((vs, data));
  }

  // ---------------------------------------------------------------- key-value pairs

  /** An odd type carries octets, an even one a number. */
  datatype Pair = Pair(typ: nat, bytes: ByteSeq, num: nat)

  predicate SmallPair(p: Pair) {
    Small(p.typ) && Small(|p.bytes|) && Small(p.num)
  }

  predicate SmallPairs(ps: seq<Pair>) {
    Small(|ps|) && forall i :: 0 <= i < |ps| ==> SmallPair(ps[i])
  }

  function EncodePair(p: Pair): ByteSeq
    requires SmallPair(p)
  {
    EncodeVarint(p.typ) + (if p.typ % 2 == 1 then EncodeBytes(p.bytes) else EncodeVarint(p.num))
  }

  function ParsePair(data: ByteSeq): Parse<Pair> {
    var (typ, d) :- ParseVarint(data);
    if typ % 2 == 1 then
      var (s, rest) :- ParseBytes(d, LengthMismatch);
      Ok((Pair(typ, s, 0), rest))
    else
      var (v, rest) :- ParseVarint(d);
      Ok((Pair(typ, [], v), rest))
  }

  /** The half of a pair that its type does not use is not written. */
  function NormalPair(p: Pair): Pair {
    if p.typ % 2 == 1 then p.(num := 0) else p.(bytes := [])
  }

  function NormalPairs(ps: seq<Pair>): (r: seq<Pair>)
    ensures |r| == |ps|
  {
    seq(|ps|, i requires 0 <= i < |ps| => NormalPair(ps[i]))
  }

  lemma PairRoundTrip(p: Pair, rest: ByteSeq)
    requires SmallPair(p)
    ensures ParsePair(EncodePair(p) + rest) == Ok((NormalPair(p), rest))
  {
    hide EncodeVarint, ParseVarint, EncodeBytes, ParseBytes;
    var body := if p.typ % 2 == 1 then EncodeBytes(p.bytes) else EncodeVarint(p.num);
    assert EncodePair(p) + rest == EncodeVarint(p.typ) + (body + rest);
    VarintRoundTrip(p.typ, body + rest);
    if p.typ % 2 == 1 {
      BytesRoundTrip(p.bytes, rest, LengthMismatch);
    } else {
      VarintRoundTrip(p.num, rest);
    }
  }

  function EncodePairs(ps: seq<Pair>): ByteSeq
    requires forall i :: 0 <= i < |ps| ==> SmallPair(ps[i])
  {
    if ps == [] then [] else EncodePair(ps[0]) + EncodePairs(ps[1..])
  }

  /** KVPList.appendNum. */
  function EncodeParams(ps: seq<Pair>): ByteSeq
    requires SmallPairs(ps)
  {
    EncodeVarint(|ps|) + EncodePairs(ps)
  }

  function ParsePairs(ps: seq<Pair>, n: nat, data: ByteSeq): Parse<seq<Pair>>
    decreases n
  {
    if n == 0 then Ok((ps, data))
    else
      var (p, d) :- ParsePair(data);
      ParsePairs(ps + [p], n - 1, d)
  }

  /** KVPList.parseNum; what follows the announced pairs is left alone. */
  function ParseParams(data: ByteSeq): Parse<seq<Pair>> {
    var (n, d) :- ParseVarint(data);
    ParsePairs([], n, d)
  }

  lemma {:induction false} PairsRoundTrip(done: seq<Pair>, ps: seq<Pair>, rest: ByteSeq)
    requires forall i :: 0 <= i < |ps| ==> SmallPair(ps[i])
    ensures ParsePairs(done, |ps|, EncodePairs(ps) + rest) == Ok((done + NormalPairs(ps), rest))
    decreases |ps|
  {
    hide EncodePair, ParsePair, NormalPair;
    if ps == [] {
      assert EncodePairs(ps) + rest == rest && done + NormalPairs(ps) == done;
    } else {
      var tail := EncodePairs(ps[1..]) + rest;
      assert EncodePairs(ps) + rest == EncodePair(ps[0]) + tail;
      PairRoundTrip(ps[0], tail);
      var p := NormalPair(ps[0]);
      PairsRoundTrip(done + [p], ps[1..], rest);
      assert (done + [p]) + NormalPairs(ps[1..]) == done + NormalPairs(ps);
    }
  }

  lemma ParamsRoundTrip(ps: seq<Pair>, rest: ByteSeq)
    requires SmallPairs(ps)
    ensures ParseParams(EncodeParams(ps) + rest) == Ok((NormalPairs(ps), rest))
  {
    hide EncodeVarint, ParseVarint, EncodePairs, ParsePairs, NormalPairs;
    assert EncodeParams(ps) + rest == EncodeVarint(|ps|) + (EncodePairs(ps) + rest);
    VarintRoundTrip(|ps|, EncodePairs(ps) + rest);
    PairsRoundTrip([], ps, rest);
    assert [] + NormalPairs(ps) == NormalPairs(ps);
  }

  /** KVPList.appendNum with the loop of KVPList.append. */
  method AppendParams(buf: ByteSeq, ps: seq<Pair>) returns (r: ByteSeq)
    requires SmallPairs(ps)
    ensures r == buf + EncodeParams(ps)
  {
    hide EncodeVarint, EncodePair;
    r := buf + EncodeVarint(|ps|);
    for i := 0 to |ps|
      invariant r + EncodePairs(ps[i..]) == buf + EncodeParams(ps)
    {
      var tail := EncodePairs(ps[i + 1..]);
      assert ps[i..][1..] == ps[i + 1..];
      assert r + (EncodePair(ps[i]) + tail) == (r + EncodePair(ps[i])) + tail;
      r := r + EncodePair(ps[i]);
    }
    assert r + EncodePairs([]) == r;
  }

  /** KVPList.parseNum. */
  method ReadParams(input: ByteSeq) returns (r: Parse<seq<Pair>>)
    ensures r == ParseParams(input)
  {
    hide ParseVarint, ParsePair;
    var count := ParseVarint(input);
    if count.Err? {
      return Err(count.error);
    }
    var n, data := count.value.0, count.value.1;
    var pp: seq<Pair> := [];
    for i := 0 to n
      invariant ParsePairs(pp, n - i, data) == ParseParams(input)
    {
      var p := ParsePair(data);
      if p.Err? {
        return Err(p.error);
      }
      pp, data := pp + [p.value.0], p.value.1;
    }
    return Ok((pp, data));
  }
}
