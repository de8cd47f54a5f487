/** Exclusive or on octets, and its folds over packets of unequal length. */
module XorAlgebra {
  import opened Bytes

  /** Bitwise exclusive or, one binary digit at a time. */
  function XorBits(a: nat, b: nat): nat
    decreases a + b
  {
    if a == 0 && b == 0 then 0
    else Differ(a, b) + 2 * XorBits(a / 2, b / 2)
  }

  /** One when the lowest binary digits differ. */
  function Differ(a: nat, b: nat): nat {
    if a % 2 != b % 2 then 1 else 0
  }

  function Pow2(k: nat): nat {
    if k == 0 then 1 else 2 * Pow2(k - 1)
  }

  lemma {:induction false} XorBitsBound(a: nat, b: nat, k: nat)
    requires a < Pow2(k) && b < Pow2(k)
    ensures XorBits(a, b) < Pow2(k)
  {
    if k == 0 {
    } else {
      XorBitsBound(a / 2, b / 2, k - 1);
    }
  }

  /** The `^` operator of the source, on one octet. */
  function Xor(a: Byte, b: Byte): Byte {
    assert XorBits(a, b) < 256 by {
      assert Pow2(8) == 256;
      XorBitsBound(a, b, 8);
    }
    XorBits(a, b)
  }

  lemma {:induction false} XorBitsCommutes(a: nat, b: nat)
    ensures XorBits(a, b) == XorBits(b, a)
    decreases a + b
  {
    if a == 0 && b == 0 {
    } else {
      XorBitsCommutes(a / 2, b / 2);
    }
  }

  /** The lowest digit and the remaining digits of an exclusive or. */
  lemma {:induction false} XorBitsDigits(a: nat, b: nat)
    ensures XorBits(a, b) % 2 == Differ(a, b)
    ensures XorBits(a, b) / 2 == XorBits(a / 2, b / 2)
  {
  }

  /** Binary digit `k` of a number. */
  predicate Bit(a: nat, k: nat) {
    if k == 0 then a % 2 == 1 else Bit(a / 2, k - 1)
  }

  /** A binary digit of an exclusive or is set exactly when the two digits differ. */
  lemma {:induction false} XorBit(a: Byte, b: Byte, k: nat)
    ensures Bit(Xor(a, b), k) <==> Bit(a, k) != Bit(b, k)
  {
    XorBitsBit(a, b, k);
  }

  lemma {:induction false} XorBitsBit(a: nat, b: nat, k: nat)
    ensures Bit(XorBits(a, b), k) <==> Bit(a, k) != Bit(b, k)
    decreases k
  {
    XorBitsDigits(a, b);
    if k > 0 {
      XorBitsBit(a / 2, b / 2, k - 1);
    }
  }

  lemma {:induction false} XorBitsAssociates(a: nat, b: nat, c: nat)
    ensures XorBits(XorBits(a, b), c) == XorBits(a, XorBits(b, c))
    decreases a + b + c
  {
    if a == 0 && b == 0 && c == 0 {
    } else {
      XorBitsAssociates(a / 2, b / 2, c / 2);
      XorBitsDigits(a, b);
      XorBitsDigits(b, c);
      XorBitsDigits(XorBits(a, b), c);
      XorBitsDigits(a, XorBits(b, c));
    }
  }

  lemma {:induction false} XorBitsIdentity(a: nat)
    ensures XorBits(a, 0) == a && XorBits(a, a) == 0
  {
    if a == 0 {
    } else {
      XorBitsIdentity(a / 2);
    }
  }

  /** Octets form an abelian group of exponent two under exclusive or. */
  lemma XorGroup(a: Byte, b: Byte, c: Byte)
    ensures Xor(a, b) == Xor(b, a)
    ensures Xor(Xor(a, b), c) == Xor(a, Xor(b, c))
    ensures Xor(a, 0) == a
    ensures Xor(a, a) == 0
  {
    XorBitsCommutes(a, b);
    XorBitsAssociates(a, b, c);
    XorBitsIdentity(a);
  }

  /** Adding the same octet twice removes it. */
  lemma XorCancels(a: Byte, b: Byte)
    ensures Xor(Xor(a, b), b) == a
  {
    XorGroup(a, b, b);
    XorGroup(b, b, b);
  }

  /** Octet `i` of a packet, zero beyond its end. */
  function At(p: ByteSeq, i: nat): Byte {
    if i < |p| then p[i] else 0
  }

  /** A packet followed by zeros up to `n` octets. */
  function PadTo(p: ByteSeq, n: nat): (r: ByteSeq)
    requires |p| <= n
    ensures |r| == n && r[..|p|] == p
  {
    seq(n, i requires 0 <= i < n => At(p, i))
  }

  function MaxLen(ps: seq<ByteSeq>): (m: nat)
    ensures forall k :: 0 <= k < |ps| ==> |ps[k]| <= m
    ensures ps != [] ==> exists k :: 0 <= k < |ps| && |ps[k]| == m
  {
    if ps == [] then 0
    else
      var n := |ps| - 1;
      var m := MaxLen(ps[..n]);
      assert n > 0 && m >= |ps[n]| ==> exists k :: 0 <= k < n && |ps[..n][k]| == m && |ps[k]| == m;
      if |ps[n]| > m then |ps[n]| else m
  }

  /** Octet `i` of the exclusive or of a list of zero-padded packets. */
  function XorSeq(ps: seq<ByteSeq>, i: nat): Byte {
    if ps == [] then 0
    else Xor(XorSeq(ps[..|ps| - 1], i), At(ps[|ps| - 1], i))
  }

  /** The parity packet of a list of packets. */
  function ParityOf(ps: seq<ByteSeq>): ByteSeq {
    seq(MaxLen(ps), i requires 0 <= i => XorSeq(ps, i))
  }

  /** Octet `i` of the exclusive or of the packets of a map, in some unspecified order. */
  ghost function XorMap(m: map<int, ByteSeq>, i: nat): Byte
    decreases |m|
  {
    if !exists k :: k in m then 0
    else
      var k :| k in m;
      Xor(XorMap(m - {k}, i), At(m[k], i))
  }

  /** The order does not matter: any key may be taken out first. */
  lemma {:induction false} XorMapRemove(m: map<int, ByteSeq>, k: int, i: nat)
    requires k in m
    ensures XorMap(m, i) == Xor(XorMap(m - {k}, i), At(m[k], i))
    decreases |m|
  {
    var c :| c in m && XorMap(m, i) == Xor(XorMap(m - {c}, i), At(m[c], i));
    if c != k {
      var rest := XorMap(m - {c} - {k}, i);
      XorMapRemove(m - {c}, k, i);
      XorMapRemove(m - {k}, c, i);
      assert m - {c} - {k} == m - {k} - {c};
      XorGroup(rest, At(m[k], i), At(m[c], i));
      XorGroup(rest, At(m[c], i), At(m[k], i));
      XorGroup(At(m[k], i), At(m[c], i), 0);
    }
  }

  /** The fold of a map along an explicit enumeration of its keys. */
  function XorAlong(m: map<int, ByteSeq>, order: seq<int>, i: nat): Byte
    requires forall j :: 0 <= j < |order| ==> order[j] in m
  {
    if order == [] then 0
    else Xor(XorAlong(m, order[..|order| - 1], i), At(m[order[|order| - 1]], i))
  }

  predicate Enumerates(order: seq<int>, keys: set<int>) {
    && (forall j, k :: 0 <= j < k < |order| ==> order[j] != order[k])
    && (set k | k in order) == keys
  }

  /** Every enumeration of the keys gives the same fold. */
  lemma {:induction false} XorAnyOrder(m: map<int, ByteSeq>, order: seq<int>, i: nat)
    requires Enumerates(order, m.Keys)
    requires forall j :: 0 <= j < |order| ==> order[j] in m
    ensures XorAlong(m, order, i) == XorMap(m, i)
    decreases |order|
  {
    if order == [] {
      assert m.Keys == {};
    } else {
      var n := |order| - 1;
      var k, rest := order[n], order[..n];
      assert order == rest + [k];
      assert k in m.Keys;
      XorMapRemove(m, k, i);
      assert Enumerates(rest, (m - {k}).Keys) by {
        assert k !in rest;
        assert (set x | x in rest) == (set x | x in order) - {k};
      }
      XorAnyOrder(m - {k}, rest, i);
      XorAlongShrink(m, k, rest, i);
    }
  }

  lemma {:induction false} XorAlongShrink(m: map<int, ByteSeq>, k: int, order: seq<int>, i: nat)
    requires forall j :: 0 <= j < |order| ==> order[j] in m && order[j] != k
    ensures XorAlong(m, order, i) == XorAlong(m - {k}, order, i)
  {
    if order != [] {
      XorAlongShrink(m, k, order[..|order| - 1], i);
    }
  }

  /** Packets numbered from one, as the encoder numbers them. */
  function Numbered(ps: seq<ByteSeq>): map<int, ByteSeq> {
    map s: int | 1 <= s <= |ps| :: Nth(ps, s)
  }

  function Nth(ps: seq<ByteSeq>, s: int): ByteSeq
    requires 1 <= s <= |ps|
  {
    ps[s - 1]
  }

  lemma {:induction false} XorNumbered(ps: seq<ByteSeq>, i: nat)
    ensures XorMap(Numbered(ps), i) == XorSeq(ps, i)
  {
    var m := Numbered(ps);
    if ps == [] {
      assert m.Keys == {};
    } else {
      var n := |ps|;
      assert n in m;
      XorMapRemove(m, n, i);
      assert m - {n} == Numbered(ps[..n - 1]);
      XorNumbered(ps[..n - 1], i);
    }
  }

  /** Parity minus all packets but one leaves that one, padded to the longest packet. */
  lemma ParityRecovers(ps: seq<ByteSeq>, held: map<int, ByteSeq>, s: int)
    requires 1 <= s <= |ps|
    requires held == Numbered(ps) - {s}
    ensures |ParityOf(ps)| == MaxLen(ps)
    ensures forall i :: 0 <= i < MaxLen(ps) ==>
              Xor(ParityOf(ps)[i], XorMap(held, i)) == PadTo(ps[s - 1], MaxLen(ps))[i]
  {
    forall i | 0 <= i < MaxLen(ps)
      ensures Xor(ParityOf(ps)[i], XorMap(held, i)) == PadTo(ps[s - 1], MaxLen(ps))[i]
    {
      XorNumbered(ps, i);
      XorMapRemove(Numbered(ps), s, i);
      var rest, a := XorMap(held, i), At(ps[s - 1], i);
      XorGroup(rest, a, rest);
      XorCancels(a, rest);
    }
  }
}
