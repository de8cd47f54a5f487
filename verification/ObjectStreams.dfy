/**
 Object streams: a subgroup or fetch header followed by objects, written without extension headers
 as every sender of the library does, and read back through one cursor.
 */
module ObjectStreams {
  import opened Bytes
  import opened Varints

  const STREAM_FETCH: nat := 0x05
  const STREAM_SUBGROUP_FIRST: nat := 0x08
  const STREAM_SUBGROUP_SID: nat := 0x0c
  const STREAM_SUBGROUP_SID_EXT: nat := 0x0d

  /** An ObjectMessage. */
  datatype Object = Object(
    trackAlias: nat, groupID: nat, subgroupID: nat, objectID: nat, priority: Byte, status: nat, payload: ByteSeq)

  /** What a parser keeps from the stream header. */
  datatype Header = Header(typ: nat, identifier: nat, priority: Byte, groupID: nat, subgroupID: nat)

  // ---------------------------------------------------------------- writing

  predicate Writable(o: Object) {
    Small(o.groupID) && Small(o.subgroupID) && Small(o.objectID) && Small(o.status) && Small(|o.payload|)
  }

  /** A header that a sender produces: a fetch stream, or a subgroup stream that names its subgroup. */
  predicate Sendable(h: Header) {
    && Small(h.identifier) && Small(h.groupID) && Small(h.subgroupID)
    && (h.typ == STREAM_SUBGROUP_SID_EXT || h == Header(STREAM_FETCH, h.identifier, 0, 0, 0))
  }

  /** SubgroupHeaderMessage.Append and FetchHeaderMessage.Append. */
  function EncodeHeader(h: Header): ByteSeq
    requires Sendable(h)
  {
    if h.typ == STREAM_FETCH then EncodeVarint(STREAM_FETCH) + EncodeVarint(h.identifier)
    else
      EncodeVarint(STREAM_SUBGROUP_SID_EXT) + (EncodeVarint(h.identifier) +
      (EncodeVarint(h.groupID) + (EncodeVarint(h.subgroupID) + [h.priority])))
  }

  /** Payload length, then the payload or, if it is empty, the status. */
  function EncodePayload(o: Object): ByteSeq
    requires Writable(o)
  {
    EncodeVarint(|o.payload|) + (if o.payload == [] then EncodeVarint(o.status) else o.payload)
  }

  /** An empty extension list is its length, zero. */
  function EncodeTail(o: Object): ByteSeq
    requires Writable(o)
  {
    EncodeVarint(0) + EncodePayload(o)
  }

  /** AppendSubgroup and AppendFetch. */
  function EncodeObject(fetch: bool, o: Object): (r: ByteSeq)
    requires Writable(o)
    ensures |r| > 0
  {
    if fetch then
      EncodeVarint(o.groupID) +
      (EncodeVarint(o.subgroupID) + (EncodeVarint(o.objectID) + ([o.priority] + EncodeTail(o))))
    else EncodeVarint(o.objectID) + EncodeTail(o)
  }

  function EncodeObjects(fetch: bool, objs: seq<Object>): ByteSeq
    requires forall o :: o in objs ==> Writable(o)
  {
    if objs == [] then [] else EncodeObject(fetch, objs[0]) + EncodeObjects(fetch, objs[1..])
  }

  // ---------------------------------------------------------------- reading

  function ParseByte(data: ByteSeq): Parse<Byte> {
    if data == [] then Err(ShortInput) else Ok((data[0], data[1..]))
  }

  /** NewObjectStreamParser: the stream type, then the header it announces. */
  function ParseHeader(data: ByteSeq): Parse<Header> {
    var (typ, d0) :- ParseVarint(data);
    if typ == STREAM_FETCH then
      var (id, d1) :- ParseVarint(d0);
      Ok((Header(typ, id, 0, 0, 0), d1))
    else if STREAM_SUBGROUP_FIRST <= typ <= STREAM_SUBGROUP_SID_EXT then
      var (alias, d1) :- ParseVarint(d0);
      ParseSubgroupHeader(Header(typ, alias, 0, 0, 0), d1)
    else Err(InvalidStreamType)
  }

  /** The stream types whose header names the subgroup. */
  predicate NamesSubgroup(typ: nat) {
    typ == STREAM_SUBGROUP_SID || typ == STREAM_SUBGROUP_SID_EXT
  }

  function ParseSubgroupHeader(h: Header, data: ByteSeq): Parse<Header> {
    var (group, d2) :- ParseVarint(data);
    var (sid, d3) :- if NamesSubgroup(h.typ) then ParseVarint(d2) else Ok((h.subgroupID, d2));
    var (priority, d4) :- ParseByte(d3);
    Ok((h.(priority := priority, groupID := group, subgroupID := sid), d4))
  }

  /** parseLengthReader: a non-empty extension list is only ever left through an error. */
  function SkipExtensions(data: ByteSeq): Parse<()> {
    var (length, rest) :- ParseVarint(data);
    if length == 0 then Ok(((), rest)) else Err(ExtensionsEndInError)
  }

  function ParsePayload(o: Object, data: ByteSeq): (r: Parse<Object>)
    ensures r.Ok? ==> |r.value.1| < |data|
  {
    var (length, d1) :- ParseVarint(data);
    if length == 0 then
      var (status, d2) :- ParseVarint(d1);
      Ok((o.(status := status), d2))
    else if |d1| < length then Err(ShortInput)
    else Ok((o.(payload := d1[..length]), d1[length..]))
  }

  /** parseSubgroupObject with readSubgroup, and parseFetchObject with readFetch. */
  function ParseObject(h: Header, data: ByteSeq): (r: Parse<Object>)
    ensures r.Ok? ==> |r.value.1| < |data|
  {
    if h.typ == STREAM_FETCH then
      var (group, d1) :- ParseVarint(data);
      var (subgroup, d2) :- ParseVarint(d1);
      var (id, d3) :- ParseVarint(d2);
      var (priority, d4) :- ParseByte(d3);
      var (_, d5) :- SkipExtensions(d4);
      ParsePayload(Object(0, group, subgroup, id, priority, 0, []), d5)
    else if STREAM_SUBGROUP_FIRST <= h.typ <= STREAM_SUBGROUP_SID_EXT then
      var (id, d1) :- ParseVarint(data);
      var (_, d2) :- if h.typ % 2 == 1 then SkipExtensions(d1) else Ok(((), d1));
      ParsePayload(Object(h.identifier, h.groupID, h.subgroupID, id, h.priority, 0, []), d2)
    else Err(InvalidStreamType)
  }

  /** Every object that can be read before the first error, which includes the end of the input. */
  function ParseObjects(h: Header, data: ByteSeq): seq<Object>
    decreases |data|
  {
    var r := ParseObject(h, data);
    if r.Err? then [] else [r.value.0] + ParseObjects(h, r.value.1)
  }

  // ---------------------------------------------------------------- one object

  /** The object a reader sees: header fields for a subgroup, and a status only without payload. */
  function Seen(h: Header, o: Object): Object {
    var status := if o.payload == [] then o.status else 0;
    if h.typ == STREAM_FETCH then Object(0, o.groupID, o.subgroupID, o.objectID, o.priority, status, o.payload)
    else Object(h.identifier, h.groupID, h.subgroupID, o.objectID, h.priority, status, o.payload)
  }

  lemma PayloadRoundTrip(o: Object, p: Object, rest: ByteSeq)
    requires Writable(o) && p.status == 0 && p.payload == []
    ensures ParsePayload(p, EncodePayload(o) + rest) ==
            Ok((p.(payload := o.payload, status := if o.payload == [] then o.status else 0), rest))
  {
    hide EncodeVarint, ParseVarint;
    var body := if o.payload == [] then EncodeVarint(o.status) else o.payload;
    assert EncodePayload(o) + rest == EncodeVarint(|o.payload|) + (body + rest);
    VarintRoundTrip(|o.payload|, body + rest);
    if o.payload == [] {
      VarintRoundTrip(o.status, rest);
    } else {
      assert (body + rest)[..|body|] == body && (body + rest)[|body|..] == rest;
    }
  }

  lemma PayloadCut(o: Object, p: Object, n: nat)
    requires Writable(o) && n < |EncodePayload(o)|
    ensures ParsePayload(p, EncodePayload(o)[..n]).Err?
  {
    hide EncodeVarint, ParseVarint;
    var head := EncodeVarint(|o.payload|);
    var body := if o.payload == [] then EncodeVarint(o.status) else o.payload;
    CutConcat(head, body, n);
    if n < |head| {
      VarintCut(|o.payload|, n);
    } else {
      VarintRoundTrip(|o.payload|, body[..n - |head|]);
      if o.payload == [] {
        VarintCut(o.status, n - |head|);
      }
    }
  }

  lemma TailRoundTrip(o: Object, p: Object, rest: ByteSeq)
    requires Writable(o) && p.status == 0 && p.payload == []
    ensures
      var data := EncodeTail(o) + rest;
      && SkipExtensions(data) == Ok(((), EncodePayload(o) + rest))
      && ParsePayload(p, EncodePayload(o) + rest) ==
         Ok((p.(payload := o.payload, status := if o.payload == [] then o.status else 0), rest))
  {
    hide EncodeVarint, ParseVarint, EncodePayload, ParsePayload;
    assert EncodeTail(o) + rest == EncodeVarint(0) + (EncodePayload(o) + rest);
    VarintRoundTrip(0, EncodePayload(o) + rest);
    PayloadRoundTrip(o, p, rest);
  }

  predicate TailFails(p: Object, data: ByteSeq) {
    var s := SkipExtensions(data);
    s.Err? || ParsePayload(p, s.value.1).Err?
  }

  lemma TailCut(o: Object, p: Object, n: nat)
    requires Writable(o) && n < |EncodeTail(o)|
    ensures TailFails(p, EncodeTail(o)[..n])
  {
    hide EncodeVarint, ParseVarint, EncodePayload, ParsePayload;
    var head := EncodeVarint(0);
    CutConcat(head, EncodePayload(o), n);
    if n < |head| {
      VarintCut(0, n);
    } else {
      VarintRoundTrip(0, EncodePayload(o)[..n - |head|]);
      PayloadCut(o, p, n - |head|);
    }
  }

  lemma SubgroupObjectRoundTrip(h: Header, o: Object, rest: ByteSeq)
    requires Sendable(h) && h.typ != STREAM_FETCH && Writable(o)
    ensures ParseObject(h, EncodeObject(false, o) + rest) == Ok((Seen(h, o), rest))
  {
    hide EncodeVarint, ParseVarint, EncodePayload, ParsePayload, EncodeTail, SkipExtensions;
    assert EncodeObject(false, o) + rest == EncodeVarint(o.objectID) + (EncodeTail(o) + rest);
    VarintRoundTrip(o.objectID, EncodeTail(o) + rest);
    TailRoundTrip(o, Object(h.identifier, h.groupID, h.subgroupID, o.objectID, h.priority, 0, []), rest);
  }

  lemma SubgroupObjectCut(h: Header, o: Object, n: nat)
    requires Sendable(h) && h.typ != STREAM_FETCH && Writable(o) && n < |EncodeObject(false, o)|
    ensures ParseObject(h, EncodeObject(false, o)[..n]).Err?
  {
    hide EncodeVarint, ParseVarint, EncodePayload, ParsePayload;
    var a := EncodeVarint(o.objectID);
    CutConcat(a, EncodeTail(o), n);
    if n < |a| {
      VarintCut(o.objectID, n);
    } else {
      VarintRoundTrip(o.objectID, EncodeTail(o)[..n - |a|]);
      TailCut(o, Object(h.identifier, h.groupID, h.subgroupID, o.objectID, h.priority, 0, []), n - |a|);
    }
  }

  lemma FetchObjectRoundTrip(h: Header, o: Object, rest: ByteSeq)
    requires Sendable(h) && h.typ == STREAM_FETCH && Writable(o)
    ensures ParseObject(h, EncodeObject(true, o) + rest) == Ok((Seen(h, o), rest))
  {
    hide EncodeVarint, ParseVarint, EncodePayload, ParsePayload, EncodeTail, SkipExtensions;
    var e := [o.priority] + EncodeTail(o);
    var d := EncodeVarint(o.objectID) + e;
    FetchIdsRoundTrip(o, d, rest);
    FetchRestRoundTrip(o, e, rest);
    TailRoundTrip(o, Object(0, o.groupID, o.subgroupID, o.objectID, o.priority, 0, []), rest);
  }

  lemma FetchIdsRoundTrip(o: Object, d: ByteSeq, rest: ByteSeq)
    requires Writable(o)
    ensures
      var c := EncodeVarint(o.subgroupID) + d;
      && ParseVarint((EncodeVarint(o.groupID) + c) + rest) == Ok((o.groupID, c + rest))
      && ParseVarint(c + rest) == Ok((o.subgroupID, d + rest))
  {
    hide EncodeVarint, ParseVarint;
    var c := EncodeVarint(o.subgroupID) + d;
    assert (EncodeVarint(o.groupID) + c) + rest == EncodeVarint(o.groupID) + (c + rest);
    VarintRoundTrip(o.groupID, c + rest);
    assert c + rest == EncodeVarint(o.subgroupID) + (d + rest);
    VarintRoundTrip(o.subgroupID, d + rest);
  }

  lemma FetchRestRoundTrip(o: Object, e: ByteSeq, rest: ByteSeq)
    requires Writable(o) && e == [o.priority] + EncodeTail(o)
    ensures ParseVarint((EncodeVarint(o.objectID) + e) + rest) == Ok((o.objectID, e + rest))
    ensures ParseByte(e + rest) == Ok((o.priority, EncodeTail(o) + rest))
  {
    hide EncodeVarint, ParseVarint, EncodeTail;
    assert (EncodeVarint(o.objectID) + e) + rest == EncodeVarint(o.objectID) + (e + rest);
    VarintRoundTrip(o.objectID, e + rest);
    assert (e + rest)[1..] == EncodeTail(o) + rest;
  }

  lemma FetchObjectCut(h: Header, o: Object, n: nat)
    requires Sendable(h) && h.typ == STREAM_FETCH && Writable(o) && n < |EncodeObject(true, o)|
    ensures ParseObject(h, EncodeObject(true, o)[..n]).Err?
  {
    hide EncodeVarint, ParseVarint, EncodeTail, SkipExtensions, ParsePayload;
    var e := [o.priority] + EncodeTail(o);
    var d := EncodeVarint(o.objectID) + e;
    var c := EncodeVarint(o.subgroupID) + d;
    var n1 := n - |EncodeVarint(o.groupID)|;
    CutConcat(EncodeVarint(o.groupID), c, n);
    if n1 < 0 {
      VarintCut(o.groupID, n);
    } else {
      VarintRoundTrip(o.groupID, c[..n1]);
      var n2 := n1 - |EncodeVarint(o.subgroupID)|;
      CutConcat(EncodeVarint(o.subgroupID), d, n1);
      if n2 < 0 {
        VarintCut(o.subgroupID, n1);
      } else {
        VarintRoundTrip(o.subgroupID, d[..n2]);
        FetchRestCut(o, e, n2);
        var id := ParseVarint(d[..n2]);
        if id.Ok? && ParseByte(id.value.1).Ok? {
          var (priority, tail) := ParseByte(id.value.1).value;
          assert TailFails(Object(0, o.groupID, o.subgroupID, id.value.0, priority, 0, []), tail);
        }
      }
    }
  }

  lemma FetchRestCut(o: Object, e: ByteSeq, n: nat)
    requires Writable(o) && e == [o.priority] + EncodeTail(o) && n < |EncodeVarint(o.objectID) + e|
    ensures
      var d := (EncodeVarint(o.objectID) + e)[..n];
      || ParseVarint(d).Err?
      || ParseByte(ParseVarint(d).value.1).Err?
      || forall p :: TailFails(p, ParseByte(ParseVarint(d).value.1).value.1)
  {
    hide EncodeVarint, ParseVarint, EncodeTail, SkipExtensions, ParsePayload;
    var n1 := n - |EncodeVarint(o.objectID)|;
    CutConcat(EncodeVarint(o.objectID), e, n);
    if n1 < 0 {
      VarintCut(o.objectID, n);
    } else {
      VarintRoundTrip(o.objectID, e[..n1]);
      if n1 > 0 {
        assert e[..n1][1..] == EncodeTail(o)[..n1 - 1];
        forall p
          ensures TailFails(p, e[..n1][1..])
        {
          TailCut(o, p, n1 - 1);
        }
      }
    }
  }

  /** Either kind of object comes back as its reader sees it. */
  lemma ObjectRoundTrip(h: Header, o: Object, rest: ByteSeq)
    requires Sendable(h) && Writable(o)
    ensures ParseObject(h, EncodeObject(h.typ == STREAM_FETCH, o) + rest) == Ok((Seen(h, o), rest))
  {
    if h.typ == STREAM_FETCH {
      FetchObjectRoundTrip(h, o, rest);
    } else {
      SubgroupObjectRoundTrip(h, o, rest);
    }
  }

  /** An object whose bytes are not all there is an error, never another object. */
  lemma ObjectCut(h: Header, o: Object, n: nat)
    requires Sendable(h) && Writable(o) && n < |EncodeObject(h.typ == STREAM_FETCH, o)|
    ensures ParseObject(h, EncodeObject(h.typ == STREAM_FETCH, o)[..n]).Err?
  {
    if h.typ == STREAM_FETCH {
      FetchObjectCut(h, o, n);
    } else {
      SubgroupObjectCut(h, o, n);
    }
  }

  // ---------------------------------------------------------------- header

  lemma FetchHeaderRoundTrip(h: Header, rest: ByteSeq)
    requires Sendable(h) && h.typ == STREAM_FETCH
    ensures ParseHeader(EncodeHeader(h) + rest) == Ok((h, rest))
  {
    hide EncodeVarint, ParseVarint;
    var b := EncodeVarint(h.identifier);
    assert EncodeHeader(h) + rest == EncodeVarint(STREAM_FETCH) + (b + rest);
    VarintRoundTrip(STREAM_FETCH, b + rest);
    VarintRoundTrip(h.identifier, rest);
  }

  lemma SubgroupHeaderRoundTrip(h: Header, rest: ByteSeq)
    requires Sendable(h) && h.typ != STREAM_FETCH
    ensures ParseHeader(EncodeHeader(h) + rest) == Ok((h, rest))
  {
    hide EncodeVarint, ParseVarint;
    var d := EncodeVarint(h.subgroupID) + [h.priority];
    var c := EncodeVarint(h.groupID) + d;
    var b := EncodeVarint(h.identifier) + c;
    assert EncodeHeader(h) + rest == EncodeVarint(STREAM_SUBGROUP_SID_EXT) + (b + rest);
    VarintRoundTrip(STREAM_SUBGROUP_SID_EXT, b + rest);
    assert b + rest == EncodeVarint(h.identifier) + (c + rest);
    VarintRoundTrip(h.identifier, c + rest);
    GroupRoundTrip(h, d, rest);
  }

  lemma GroupRoundTrip(h: Header, d: ByteSeq, rest: ByteSeq)
    requires Sendable(h) && d == EncodeVarint(h.subgroupID) + [h.priority]
    ensures ParseVarint((EncodeVarint(h.groupID) + d) + rest) == Ok((h.groupID, d + rest))
    ensures ParseVarint(d + rest) == Ok((h.subgroupID, [h.priority] + rest))
    ensures ParseByte([h.priority] + rest) == Ok((h.priority, rest))
  {
    hide EncodeVarint, ParseVarint;
    assert (EncodeVarint(h.groupID) + d) + rest == EncodeVarint(h.groupID) + (d + rest);
    VarintRoundTrip(h.groupID, d + rest);
    assert d + rest == EncodeVarint(h.subgroupID) + ([h.priority] + rest);
    VarintRoundTrip(h.subgroupID, [h.priority] + rest);
    assert ([h.priority] + rest)[1..] == rest;
  }

  lemma HeaderRoundTrip(h: Header, rest: ByteSeq)
    requires Sendable(h)
    ensures ParseHeader(EncodeHeader(h) + rest) == Ok((h, rest))
  {
    if h.typ == STREAM_FETCH {
      FetchHeaderRoundTrip(h, rest);
    } else {
      SubgroupHeaderRoundTrip(h, rest);
    }
  }

  lemma FetchHeaderCut(h: Header, n: nat)
    requires Sendable(h) && h.typ == STREAM_FETCH && n < |EncodeHeader(h)|
    ensures ParseHeader(EncodeHeader(h)[..n]).Err?
  {
    hide EncodeVarint, ParseVarint;
    var a, b := EncodeVarint(STREAM_FETCH), EncodeVarint(h.identifier);
    CutConcat(a, b, n);
    if n < |a| {
      VarintCut(STREAM_FETCH, n);
    } else {
      VarintRoundTrip(STREAM_FETCH, b[..n - |a|]);
      VarintCut(h.identifier, n - |a|);
    }
  }

  lemma SubgroupHeaderCut(h: Header, n: nat)
    requires Sendable(h) && h.typ != STREAM_FETCH && n < |EncodeHeader(h)|
    ensures ParseHeader(EncodeHeader(h)[..n]).Err?
  {
    hide EncodeVarint, ParseVarint;
    var e := [h.priority];
    var d := EncodeVarint(h.subgroupID) + e;
    var c := EncodeVarint(h.groupID) + d;
    var b := EncodeVarint(h.identifier) + c;
    var n1 := n - |EncodeVarint(STREAM_SUBGROUP_SID_EXT)|;
    CutConcat(EncodeVarint(STREAM_SUBGROUP_SID_EXT), b, n);
    if n1 < 0 {
      VarintCut(STREAM_SUBGROUP_SID_EXT, n);
    } else {
      VarintRoundTrip(STREAM_SUBGROUP_SID_EXT, b[..n1]);
      var n2 := n1 - |EncodeVarint(h.identifier)|;
      CutConcat(EncodeVarint(h.identifier), c, n1);
      if n2 < 0 {
        VarintCut(h.identifier, n1);
      } else {
        VarintRoundTrip(h.identifier, c[..n2]);
        GroupCut(h, d, n2);
      }
    }
  }

  lemma GroupCut(h: Header, d: ByteSeq, n: nat)
    requires Sendable(h) && d == EncodeVarint(h.subgroupID) + [h.priority] && n < |EncodeVarint(h.groupID) + d|
    ensures
      var c := (EncodeVarint(h.groupID) + d)[..n];
      || ParseVarint(c).Err?
      || ParseVarint(ParseVarint(c).value.1).Err?
      || ParseByte(ParseVarint(ParseVarint(c).value.1).value.1).Err?
  {
  }

  // ---------------------------------------------------------------- whole streams

  /** How many leading objects fit completely into `n` octets. */
  function Complete(fetch: bool, objs: seq<Object>, n: nat): (k: nat)
    requires forall o :: o in objs ==> Writable(o)
    ensures k <= |objs|
  {
    if objs == [] || n < |EncodeObject(fetch, objs[0])| then 0
    else 1 + Complete(fetch, objs[1..], n - |EncodeObject(fetch, objs[0])|)
  }

  function SeenAll(h: Header, objs: seq<Object>): seq<Object> {
    if objs == [] then [] else [Seen(h, objs[0])] + SeenAll(h, objs[1..])
  }

  lemma {:induction false} ObjectsPrefix(h: Header, objs: seq<Object>, n: nat)
    requires Sendable(h) && forall o :: o in objs ==> Writable(o)
    requires n <= |EncodeObjects(h.typ == STREAM_FETCH, objs)|
    ensures
      var fetch := h.typ == STREAM_FETCH;
      ParseObjects(h, EncodeObjects(fetch, objs)[..n]) == SeenAll(h, objs[..Complete(fetch, objs, n)])
  {
    hide EncodeObject, ParseObject, Seen;
    var fetch := h.typ == STREAM_FETCH;
    var all := EncodeObjects(fetch, objs);
    if objs == [] {
      assert all[..n] == [];
    } else {
      var first, rest := EncodeObject(fetch, objs[0]), EncodeObjects(fetch, objs[1..]);
      CutConcat(first, rest, n);
      if n < |first| {
        ObjectCut(h, objs[0], n);
        assert objs[..0] == [];
      } else {
        var m := n - |first|;
        ObjectRoundTrip(h, objs[0], rest[..m]);
        ObjectsPrefix(h, objs[1..], m);
        var k := Complete(fetch, objs[1..], m);
        assert objs[..k + 1][1..] == objs[1..][..k];
      }
    }
  }

  lemma {:induction false} CompleteAll(fetch: bool, objs: seq<Object>)
    requires forall o :: o in objs ==> Writable(o)
    ensures Complete(fetch, objs, |EncodeObjects(fetch, objs)|) == |objs|
  {
    if objs != [] {
      CompleteAll(fetch, objs[1..]);
    }
  }

  /** A reader given the first `n` octets of a stream: the header or nothing, then objects until an error. */
  function ReadStream(data: ByteSeq): Option<(Header, seq<Object>)> {
    var r := ParseHeader(data);
    if r.Err? then None else Some((r.value.0, ParseObjects(r.value.0, r.value.1)))
  }

  /**
   For every stream a sender writes and every cut of it: the reader gets nothing without the whole
   header, and otherwise exactly the objects whose bytes are complete, in order.
   */
  lemma StreamPrefix(h: Header, objs: seq<Object>, n: nat)
    requires Sendable(h) && forall o :: o in objs ==> Writable(o)
    requires n <= |EncodeHeader(h) + EncodeObjects(h.typ == STREAM_FETCH, objs)|
    ensures
      var fetch := h.typ == STREAM_FETCH;
      var head := EncodeHeader(h);
      ReadStream((head + EncodeObjects(fetch, objs))[..n]) ==
        if n < |head| then None else Some((h, SeenAll(h, objs[..Complete(fetch, objs, n - |head|)])))
  {
    hide EncodeHeader, ParseHeader, EncodeObjects, ParseObjects;
    var fetch := h.typ == STREAM_FETCH;
    var head, body := EncodeHeader(h), EncodeObjects(fetch, objs);
    CutConcat(head, body, n);
    if n < |head| {
      if fetch {
        FetchHeaderCut(h, n);
      } else {
        SubgroupHeaderCut(h, n);
      }
    } else {
      HeaderRoundTrip(h, body[..n - |head|]);
      ObjectsPrefix(h, objs, n - |head|);
    }
  }

  /** The whole stream gives back the whole sequence. */
  lemma StreamRoundTrip(h: Header, objs: seq<Object>)
    requires Sendable(h) && forall o :: o in objs ==> Writable(o)
    ensures ReadStream(EncodeHeader(h) + EncodeObjects(h.typ == STREAM_FETCH, objs)) == Some((h, SeenAll(h, objs)))
  {
    hide EncodeHeader, ParseHeader, EncodeObjects, ParseObjects, ReadStream;
    var fetch := h.typ == STREAM_FETCH;
    var head, body := EncodeHeader(h), EncodeObjects(fetch, objs);
    StreamPrefix(h, objs, |head + body|);
    CompleteAll(fetch, objs);
    assert (head + body)[..|head + body|] == head + body && objs[..|objs|] == objs;
  }

  // ---------------------------------------------------------------- the parser object

  class ObjectStreamParser {
    const data: ByteSeq
    var pos: nat
    const header: Header

    ghost predicate Valid()
      reads this
    {
      pos <= |data|
    }

    /** The parser stands behind the header it was created from. */
    constructor (data: ByteSeq, pos: nat, header: Header)
      requires pos <= |data| && ParseHeader(data) == Ok((header, data[pos..]))
      ensures Valid() && this.data == data && this.pos == pos && this.header == header
    {
      this.data, this.pos, this.header := data, pos, header;
    }

    /** Reads one object and advances. After an error the stream is not read further. */
    method Parse() returns (r: Result<Object, Error>)
      requires Valid()
      modifies this
      ensures Valid()
      ensures match ParseObject(header, data[old(pos)..])
              case Ok((o, rest)) => r == Ok(o) && pos > old(pos) && data[pos..] == rest
              case Err(e) => r == Err(e)
    {
      var p := ParseObject(header, data[pos..]);
      if p.Err? {
        return Err(p.error);
      }
      ParseLeavesSuffix(header, data[pos..]);
      pos := |data| - |p.value.1|;
      return Ok(p.value.0);
    }

    /** readStream: the loop that pushes objects until the stream ends. */
    method ReadAll() returns (objs: seq<Object>)
      requires Valid()
      modifies this
      ensures objs == ParseObjects(header, old(data[pos..]))
    {
      hide ParseObject;
      objs := [];
      var open := true;
      ghost var all := ParseObjects(header, data[pos..]);
      while open
        invariant Valid()
        invariant open ==> objs + ParseObjects(header, data[pos..]) == all
        invariant !open ==> objs == all
        decreases open, |data| - pos
      {
        ghost var before := data[pos..];
        var r := Parse();
        if r.Err? {
          open := false;
          assert objs + [] == objs;
        } else {
          assert [r.value] + ParseObjects(header, data[pos..]) == ParseObjects(header, before);
          assert objs + ([r.value] + ParseObjects(header, data[pos..])) ==
                 (objs + [r.value]) + ParseObjects(header, data[pos..]);
          objs := objs + [r.value];
        }
      }
    }
  }

  /** Reads the stream type and the header it announces, and gives a parser that stands behind them. */
  method NewObjectStreamParser(data: ByteSeq) returns (r: Result<ObjectStreamParser, Error>)
    ensures match ParseHeader(data)
            case Ok((h, rest)) =>
              && r.Ok? && fresh(r.value) && r.value.Valid()
              && r.value.data == data && r.value.header == h && data[r.value.pos..] == rest
            case Err(e) => r == Err(e)
  {
    hide ParseVarint, ParseByte;
    HeaderLeavesSuffix(data);
    var st := ParseVarint(data);
    if st.Err? {
      return Err(st.error);
    }
    var (typ, d) := st.value;
    var header := Header(typ, 0, 0, 0, 0);
    if typ != STREAM_FETCH && !(STREAM_SUBGROUP_FIRST <= typ <= STREAM_SUBGROUP_SID_EXT) {
      return Err(InvalidStreamType);
    }
    var id := ParseVarint(d);
    if id.Err? {
      return Err(id.error);
    }
    header, d := header.(identifier := id.value.0), id.value.1;
    if typ != STREAM_FETCH {
      var h := ReadSubgroupHeader(header, d);
      if h.Err? {
        return Err(h.error);
      }
      header, d := h.value.0, h.value.1;
    }
    var p := new ObjectStreamParser(data, |data| - |d|, header);
    return Ok(p);
  }

  /** The rest of a subgroup header behind the track alias. */
  method ReadSubgroupHeader(header: Header, data: ByteSeq) returns (r: Parse<Header>)
    ensures r == ParseSubgroupHeader(header, data)
  {
    var group := ParseVarint(data);
    if group.Err? {
      return Err(group.error);
    }
    var h, d := header.(groupID := group.value.0), group.value.1;
    if NamesSubgroup(header.typ) {
      var sid := ParseVarint(d);
      if sid.Err? {
        return Err(sid.error);
      }
      h, d := h.(subgroupID := sid.value.0), sid.value.1;
    }
    var priority := ParseByte(d);
    if priority.Err? {
      return Err(priority.error);
    }
    return Ok((h.(priority := priority.value.0), priority.value.1));
  }

  /** A stream from its first octet on: the parser for its header, then every object it carries. */
  method ReceiveStream(data: ByteSeq) returns (r: Option<(Header, seq<Object>)>)
    ensures r == ReadStream(data)
  {
    hide ParseHeader, ParseObjects;
    var p := NewObjectStreamParser(data);
    if p.Err? {
      return None;
    }
    var objs := p.value.ReadAll();
    return Some((p.value.header, objs));
  }

  lemma HeaderLeavesSuffix(data: ByteSeq)
    ensures ParseHeader(data).Ok? ==> IsSuffix(ParseHeader(data).value.1, data)
  {
    hide ParseVarint, ParseByte, IsSuffix;
    if ParseHeader(data).Ok? {
      var d0 := ParseVarint(data).value.1;
      var d1 := ParseVarint(d0).value.1;
      VarintLeavesSuffix(data);
      VarintLeavesSuffix(d0);
      SuffixTrans(d1, d0, data);
      if ParseVarint(data).value.0 != STREAM_FETCH {
        var h := Header(ParseVarint(data).value.0, ParseVarint(d0).value.0, 0, 0, 0);
        SubgroupHeaderLeavesSuffix(h, d1);
        SuffixTrans(ParseSubgroupHeader(h, d1).value.1, d1, data);
      }
    }
  }

  lemma SubgroupHeaderLeavesSuffix(h: Header, data: ByteSeq)
    requires ParseSubgroupHeader(h, data).Ok?
    ensures IsSuffix(ParseSubgroupHeader(h, data).value.1, data)
  {
    hide ParseVarint, ParseByte, IsSuffix;
    var d2 := ParseVarint(data).value.1;
    var d3 := if NamesSubgroup(h.typ) then ParseVarint(d2).value.1 else d2;
    VarintLeavesSuffix(data);
    VarintLeavesSuffix(d2);
    VarintLeavesSuffix(d3);
    if NamesSubgroup(h.typ) {
      SuffixTrans(d3, d2, data);
    }
    SuffixTrans(ParseByte(d3).value.1, d3, data);
  }

  predicate IsSuffix(rest: ByteSeq, data: ByteSeq) {
    |rest| <= |data| && data[|data| - |rest|..] == rest
  }

  lemma SuffixTrans(a: ByteSeq, b: ByteSeq, c: ByteSeq)
    requires IsSuffix(a, b) && IsSuffix(b, c)
    ensures IsSuffix(a, c)
  {
  }

  lemma VarintLeavesSuffix(data: ByteSeq)
    ensures ParseVarint(data).Ok? ==> IsSuffix(ParseVarint(data).value.1, data)
    ensures ParseByte(data).Ok? ==> IsSuffix(ParseByte(data).value.1, data)
    ensures SkipExtensions(data).Ok? ==> IsSuffix(SkipExtensions(data).value.1, data)
  {
  }

  lemma PayloadLeavesSuffix(o: Object, data: ByteSeq)
    ensures ParsePayload(o, data).Ok? ==> IsSuffix(ParsePayload(o, data).value.1, data)
  {
  }

  lemma FetchLeavesSuffix(h: Header, data: ByteSeq)
    requires h.typ == STREAM_FETCH && ParseObject(h, data).Ok?
    ensures IsSuffix(ParseObject(h, data).value.1, data)
  {
    hide ParseVarint, ParseByte, SkipExtensions, ParsePayload, IsSuffix;
    var d1 := ParseVarint(data).value.1;
    var d2 := ParseVarint(d1).value.1;
    var d3 := ParseVarint(d2).value.1;
    var d4 := ParseByte(d3).value.1;
    var d5 := SkipExtensions(d4).value.1;
    var o := Object(0, ParseVarint(data).value.0, ParseVarint(d1).value.0, ParseVarint(d2).value.0,
                    ParseByte(d3).value.0, 0, []);
    VarintLeavesSuffix(data);
    VarintLeavesSuffix(d1);
    VarintLeavesSuffix(d2);
    VarintLeavesSuffix(d3);
    VarintLeavesSuffix(d4);
    PayloadLeavesSuffix(o, d5);
    SuffixTrans(d2, d1, data);
    SuffixTrans(d3, d2, data);
    SuffixTrans(d4, d3, data);
    SuffixTrans(d5, d4, data);
    SuffixTrans(ParsePayload(o, d5).value.1, d5, data);
  }

  lemma SubgroupLeavesSuffix(h: Header, data: ByteSeq)
    requires h.typ != STREAM_FETCH && ParseObject(h, data).Ok?
    ensures IsSuffix(ParseObject(h, data).value.1, data)
  {
    hide ParseVarint, ParseByte, SkipExtensions, ParsePayload, IsSuffix;
    var d1 := ParseVarint(data).value.1;
    var d2 := if h.typ % 2 == 1 then SkipExtensions(d1).value.1 else d1;
    var o := Object(h.identifier, h.groupID, h.subgroupID, ParseVarint(data).value.0, h.priority, 0, []);
    VarintLeavesSuffix(data);
    VarintLeavesSuffix(d1);
    PayloadLeavesSuffix(o, d2);
    if h.typ % 2 == 1 {
      SuffixTrans(d2, d1, data);
    }
    SuffixTrans(ParsePayload(o, d2).value.1, d2, data);
  }

  lemma ParseLeavesSuffix(h: Header, data: ByteSeq)
    ensures ParseObject(h, data).Ok? ==> IsSuffix(ParseObject(h, data).value.1, data)
  {
    hide ParseObject;
    if ParseObject(h, data).Ok? {
      if h.typ == STREAM_FETCH {
        FetchLeavesSuffix(h, data);
      } else {
        SubgroupLeavesSuffix(h, data);
      }
    }
  }
}
