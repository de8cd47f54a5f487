/**
 The octets on the wire, written out: which octet stands where in each message, header and object whose
 numbers fit one octet, and what the readers refuse. Longer numbers are those of section 16 of RFC 9000.
 */
module WireLayout {
  import opened Bytes
  import opened Varints
  import opened WireFields
  import ControlMessages
  import ObjectStreams

  /** A number that is its own varint. */
  type Digit = v: nat | v < 64

  predicate Short(s: ByteSeq) {
    |s| < 64
  }

  lemma OneOctet(v: Digit)
    ensures EncodeVarint(v) == [v]
  {
    assert BigEndian(0, 0) == [];
  }

  lemma ReadOctet(v: Digit, rest: ByteSeq)
    ensures ParseVarint([v] + rest) == Ok((v, rest))
  {
    hide EncodeVarint, ParseVarint;
    OneOctet(v);
    VarintRoundTrip(v, rest);
  }

  // ---------------------------------------------------------------- fields

  function BytesOctets(s: ByteSeq): ByteSeq
    requires Short(s)
  {
    [|s|] + s
  }

  lemma BytesLayout(s: ByteSeq)
    requires Short(s)
    ensures EncodeBytes(s) == BytesOctets(s)
  {
    OneOctet(|s|);
  }

  /** Number of elements, then each with its length. */
  function TupleOctets(t: (ByteSeq, ByteSeq)): ByteSeq
    requires Short(t.0) && Short(t.1)
  {
    [2, |t.0|] + t.0 + [|t.1|] + t.1
  }

  lemma TupleLayout(a: ByteSeq, b: ByteSeq)
    requires Short(a) && Short(b)
    ensures EncodeTuple([a, b]) == TupleOctets((a, b))
  {
    hide EncodeVarint, EncodeBytes;
    OneOctet(2);
    BytesLayout(a);
    BytesLayout(b);
    assert [a, b][1..] == [b] && [b][1..] == [];
    assert EncodeItems([b]) == EncodeBytes(b) + EncodeItems([]);
  }

  /** A number for an even type and octets for an odd one. */
  function TwoParams(num: Digit, s: ByteSeq): seq<Pair> {
    [Pair(2, [], num), Pair(3, s, 0)]
  }

  function ParamsOctets(num: Digit, s: ByteSeq): ByteSeq
    requires Short(s)
  {
    [2, 2, num, 3, |s|] + s
  }

  lemma PairLayouts(num: Digit, s: ByteSeq)
    requires Short(s)
    ensures EncodePair(Pair(2, [], num)) == [2, num]
    ensures EncodePair(Pair(3, s, 0)) == [3, |s|] + s
  {
    hide EncodeVarint, EncodeBytes;
    OneOctet(2);
    OneOctet(3);
    OneOctet(num);
    BytesLayout(s);
  }

  lemma ParamsLayout(num: Digit, s: ByteSeq)
    requires Short(s)
    ensures SmallPairs(TwoParams(num, s))
    ensures EncodeParams(TwoParams(num, s)) == ParamsOctets(num, s)
  {
    hide EncodeVarint, EncodePair;
    var ps := TwoParams(num, s);
    OneOctet(2);
    PairLayouts(num, s);
    assert ps[1..] == [ps[1]] && [ps[1]][1..] == [];
    assert EncodePairs([ps[1]]) == EncodePair(ps[1]) + EncodePairs([]);
    assert EncodePairs(ps) == [2, num] + EncodePairs([ps[1]]);
  }

  lemma VersionsLayout(v: Digit, w: Digit)
    ensures EncodeVersions([v, w]) == [2, v, w]
  {
    hide EncodeVarint;
    OneOctet(2);
    OneOctet(v);
    OneOctet(w);
    assert [v, w][1..] == [w] && [w][1..] == [];
    assert EncodeNumbers([w]) == EncodeVarint(w) + EncodeNumbers([]);
  }

  lemma LocationLayout(g: Digit, o: Digit)
    ensures ControlMessages.EncodeLocation(ControlMessages.Location(g, o)) == [g, o]
  {
    hide EncodeVarint;
    OneOctet(g);
    OneOctet(o);
  }

  /** What is said about fields that announce more octets than there are. */
  lemma FieldsCut(length: Digit, s: ByteSeq)
    requires |s| < length
    ensures forall short :: ParseBytes([length] + s, short) == Err(short)
    ensures ParseTuple([1] + ([length] + s)) == Err(LengthMismatch)
    ensures ParsePair([3] + ([length] + s)) == Err(LengthMismatch)
    ensures ParseVarint([]) == Err(ShortInput)
  {
    hide ParseVarint;
    ReadOctet(length, s);
    ReadOctet(1, [length] + s);
    ReadOctet(3, [length] + s);
    assert ParseVarint([]) == Err(ShortInput) by {
      NothingToRead();
    }
  }

  lemma NothingToRead()
    ensures ParseVarint([]) == Err(ShortInput)
  {
  }

  // ---------------------------------------------------------------- control messages

  /** Type, length in two octets, most significant first, then the body. */
  lemma FrameLayout(m: ControlMessages.Message)
    requires ControlMessages.Sendable(m)
    ensures
      var body := ControlMessages.EncodeBody(m);
      var typ := if m.Subscribe? then 0x03 else if m.SubscribeOk? then 0x04 else if m.Fetch? then 0x16 else 0x20;
      ControlMessages.FrameOf(m) == [typ, |body| / 0x100, |body| % 0x100] + body
  {
    hide EncodeVarint, ControlMessages.EncodeBody;
    OneOctet(ControlMessages.TypeOf(m));
  }

  /** The filter arguments: none for NextGroupStart (1) and LatestObject (2), a start for AbsoluteStart (3),
      a start and an end group for AbsoluteRange (4). Any other filter is written as NextGroupStart. */
  function FilterOctets(filter: nat, g: Digit, o: Digit, end: Digit): ByteSeq {
    if filter == 2 then [2]
    else if filter == 3 then [3, g, o]
    else if filter == 4 then [4, g, o, end]
    else [1]
  }

  function SubscribeOf(
    id: Digit, ns: (ByteSeq, ByteSeq), name: ByteSeq, flags: (Byte, Byte, Byte), filter: nat,
    start: (Digit, Digit), end: Digit, params: (Digit, ByteSeq)): ControlMessages.Message
  {
    ControlMessages.Subscribe(
      id, [ns.0, ns.1], name, flags.0, flags.1, flags.2, filter,
      ControlMessages.Location(start.0, start.1), end, TwoParams(params.0, params.1))
  }

  lemma FilterLayout(m: ControlMessages.Message, g: Digit, o: Digit, end: Digit, num: Digit, s: ByteSeq)
    requires m.Subscribe? && ControlMessages.Writable(m) && Short(s)
    requires m.start == ControlMessages.Location(g, o) && m.endGroup == end && m.params == TwoParams(num, s)
    ensures EncodeVarint(ControlMessages.NormalFilter(m.filter)) + ControlMessages.EncodeSubscribeRange(m) ==
            FilterOctets(m.filter, g, o, end) + ParamsOctets(num, s)
  {
    hide EncodeVarint, EncodeParams, ControlMessages.EncodeLocation;
    OneOctet(ControlMessages.NormalFilter(m.filter));
    OneOctet(end);
    LocationLayout(g, o);
    ParamsLayout(num, s);
  }

  lemma SubscribeLayout(
    id: Digit, ns: (ByteSeq, ByteSeq), name: ByteSeq, flags: (Byte, Byte, Byte), filter: nat,
    start: (Digit, Digit), end: Digit, params: (Digit, ByteSeq))
    requires Short(ns.0) && Short(ns.1) && Short(name) && Short(params.1) && flags.1 <= 2 && flags.2 <= 1
    ensures
      var m := SubscribeOf(id, ns, name, flags, filter, start, end, params);
      && ControlMessages.Writable(m)
      && ControlMessages.EncodeBody(m) ==
         [id] + (TupleOctets(ns) + (BytesOctets(name) + ([flags.0, flags.1, flags.2] +
         (FilterOctets(filter, start.0, start.1, end) + ParamsOctets(params.0, params.1)))))
  {
    hide EncodeVarint, EncodeTuple, EncodeBytes, ControlMessages.EncodeSubscribeRange;
    hide TupleOctets, BytesOctets, FilterOctets, ParamsOctets;
    var m := SubscribeOf(id, ns, name, flags, filter, start, end, params);
    ParamsLayout(params.0, params.1);
    OneOctet(id);
    TupleLayout(ns.0, ns.1);
    BytesLayout(name);
    FilterLayout(m, start.0, start.1, end, params.0, params.1);
  }

  lemma SubscribeOkLayout(
    id: Digit, alias: Digit, expires: Digit, order: Byte, content: bool, g: Digit, o: Digit, num: Digit, s: ByteSeq)
    requires Short(s) && order <= 2
    ensures
      var m := ControlMessages.SubscribeOk(
        id, alias, expires, order, content, ControlMessages.Location(g, o), TwoParams(num, s));
      && ControlMessages.Writable(m)
      && ControlMessages.EncodeBody(m) ==
         [id] + ([alias] + ([expires] + ([order, if content then 1 else 0] +
         (if content then [g, o] + ParamsOctets(num, s) else ParamsOctets(num, s)))))
  {
    hide ParamsOctets;
    hide EncodeVarint, EncodeParams, ControlMessages.EncodeLocation;
    OneOctet(id);
    OneOctet(alias);
    OneOctet(expires);
    LocationLayout(g, o);
    ParamsLayout(num, s);
  }

  lemma StandaloneFetchLayout(
    id: Digit, flags: (Byte, Byte), ns: (ByteSeq, ByteSeq), name: ByteSeq, start: (Digit, Digit),
    end: (Digit, Digit), joining: (Digit, Digit), num: Digit, s: ByteSeq)
    requires Short(ns.0) && Short(ns.1) && Short(name) && Short(s) && flags.1 <= 2
    ensures
      var m := ControlMessages.Fetch(
        id, flags.0, flags.1, 1, [ns.0, ns.1], name, ControlMessages.Location(start.0, start.1),
        ControlMessages.Location(end.0, end.1), joining.0, joining.1, TwoParams(num, s));
      && ControlMessages.Writable(m)
      && ControlMessages.EncodeBody(m) ==
         [id] + ([flags.0, flags.1] + ([1] + (TupleOctets(ns) + (BytesOctets(name) +
         ([start.0, start.1] + ([end.0, end.1] + ParamsOctets(num, s)))))))
  {
    hide EncodeVarint, EncodeTuple, EncodeBytes, EncodeParams, ControlMessages.EncodeLocation;
    hide TupleOctets, BytesOctets, ParamsOctets;
    OneOctet(id);
    OneOctet(1);
    TupleLayout(ns.0, ns.1);
    BytesLayout(name);
    LocationLayout(start.0, start.1);
    LocationLayout(end.0, end.1);
    ParamsLayout(num, s);
  }

  /** Relative (2) and absolute (3) joining fetches. */
  lemma JoiningFetchLayout(
    id: Digit, flags: (Byte, Byte), typ: Digit, ns: (ByteSeq, ByteSeq), name: ByteSeq, start: (Digit, Digit),
    end: (Digit, Digit), joining: (Digit, Digit), num: Digit, s: ByteSeq)
    requires Short(ns.0) && Short(ns.1) && Short(name) && Short(s) && flags.1 <= 2 && 2 <= typ <= 3
    ensures
      var m := ControlMessages.Fetch(
        id, flags.0, flags.1, typ, [ns.0, ns.1], name, ControlMessages.Location(start.0, start.1),
        ControlMessages.Location(end.0, end.1), joining.0, joining.1, TwoParams(num, s));
      && ControlMessages.Writable(m)
      && ControlMessages.EncodeBody(m) ==
         [id] + ([flags.0, flags.1] + ([typ] + ([joining.0] + ([joining.1] + ParamsOctets(num, s)))))
  {
    hide ParamsOctets;
    hide EncodeVarint, EncodeParams;
    OneOctet(id);
    OneOctet(typ);
    OneOctet(joining.0);
    OneOctet(joining.1);
    ParamsLayout(num, s);
  }

  lemma ClientSetupLayout(v: Digit, w: Digit, num: Digit, s: ByteSeq)
    requires Short(s)
    ensures
      var m := ControlMessages.ClientSetup([v, w], TwoParams(num, s));
      && ControlMessages.Writable(m)
      && ControlMessages.EncodeBody(m) == [2, v, w] + ParamsOctets(num, s)
  {
    hide EncodeVersions, EncodeParams;
    VersionsLayout(v, w);
    ParamsLayout(num, s);
  }

  // ---------------------------------------------------------------- what the control parser refuses

  /** A message type is dispatched exactly if it is one of the protocol's that the parser knows. */
  lemma TypesDispatched(typ: nat, body: ByteSeq)
    ensures
      var unknown := typ <= 0x01 || typ == 0x0f || 0x1b <= typ <= 0x1f || typ >= 0x22;
      && (unknown ==> ControlMessages.ParseBody(typ, body) == Err(InvalidMessageType))
      && (!unknown && typ != 0x03 && typ != 0x04 && typ != 0x16 && typ != 0x20 ==>
            ControlMessages.ParseBody(typ, body) == Ok(ControlMessages.Undecoded(typ, body)))
  {
  }

  /** The first thing wrong with the flags or the filter of a SUBSCRIBE is what it is refused for. */
  lemma SubscribeRefused(
    id: Digit, ns: (ByteSeq, ByteSeq), name: ByteSeq, priority: Byte, order: Byte, forward: Byte, filter: Digit,
    rest: ByteSeq)
    requires Short(ns.0) && Short(ns.1) && Short(name)
    ensures
      var data := [id] + (TupleOctets(ns) + (BytesOctets(name) + ([priority, order, forward, filter] + rest)));
      && (order > 2 ==> ControlMessages.ParseSubscribe(data) == Err(InvalidGroupOrder))
      && (order <= 2 && forward > 1 ==> ControlMessages.ParseSubscribe(data) == Err(InvalidForwardFlag))
      && (order <= 2 && forward <= 1 && (filter == 0 || filter > 4) ==>
            ControlMessages.ParseSubscribe(data) == Err(InvalidFilterType))
  {
    hide EncodeVarint, ParseVarint, EncodeTuple, ParseTuple, EncodeBytes, ParseBytes;
    hide ControlMessages.ParseSubscribeRange, TupleOctets, BytesOctets;
    var flags := [priority, order, forward, filter] + rest;
    var named := BytesOctets(name) + flags;
    TupleLayout(ns.0, ns.1);
    BytesLayout(name);
    ReadOctet(id, TupleOctets(ns) + named);
    TupleRoundTrip([ns.0, ns.1], named);
    BytesRoundTrip(name, flags, ShortInput);
    assert flags[3..] == [filter] + rest;
    ReadOctet(filter, rest);
  }

  lemma SubscribeOkRefused(id: Digit, alias: Digit, expires: Digit, order: Byte, content: Byte, rest: ByteSeq)
    ensures
      var data := [id, alias, expires, order, content] + rest;
      && (order > 2 ==> ControlMessages.ParseSubscribeOk(data) == Err(InvalidGroupOrder))
      && (order <= 2 && content > 1 ==> ControlMessages.ParseSubscribeOk(data) == Err(InvalidContentExists))
  {
    hide ParseVarint, ParseParams, ControlMessages.ParseLocation;
    var flags := [order, content] + rest;
    assert [id, alias, expires, order, content] + rest == [id] + ([alias] + ([expires] + flags));
    ReadOctet(id, [alias] + ([expires] + flags));
    ReadOctet(alias, [expires] + flags);
    ReadOctet(expires, flags);
  }

  lemma FetchRefused(id: Digit, priority: Byte, order: Byte, typ: Digit, rest: ByteSeq)
    ensures
      var data := [id, priority, order, typ] + rest;
      && (order > 2 ==> ControlMessages.ParseFetch(data) == Err(InvalidGroupOrder))
      && (order <= 2 && (typ == 0 || typ > 3) ==> ControlMessages.ParseFetch(data) == Err(InvalidFetchType))
  {
    hide ParseVarint, ControlMessages.ParseStandalone, ControlMessages.ParseJoining;
    var flags := [priority, order] + ([typ] + rest);
    assert [id, priority, order, typ] + rest == [id] + flags;
    ReadOctet(id, flags);
    assert flags[2..] == [typ] + rest;
    ReadOctet(typ, rest);
  }

  // ---------------------------------------------------------------- object streams

  lemma HeaderLayout(identifier: Digit, group: Digit, subgroup: Digit, priority: Byte)
    ensures ObjectStreams.EncodeHeader(ObjectStreams.Header(0x05, identifier, 0, 0, 0)) == [0x05, identifier]
    ensures ObjectStreams.EncodeHeader(ObjectStreams.Header(0x0d, identifier, priority, group, subgroup)) ==
            [0x0d, identifier, group, subgroup, priority]
  {
    hide EncodeVarint;
    OneOctet(0x05);
    OneOctet(0x0d);
    OneOctet(identifier);
    OneOctet(group);
    OneOctet(subgroup);
  }

  /** No extensions, then the payload with its length, or length zero and the status. */
  function ObjectEnd(o: ObjectStreams.Object): ByteSeq
    requires Short(o.payload) && o.status < 64
  {
    if o.payload == [] then [0, 0, o.status] else [0, |o.payload|] + o.payload
  }

  lemma ObjectLayout(o: ObjectStreams.Object)
    requires o.groupID < 64 && o.subgroupID < 64 && o.objectID < 64 && o.status < 64 && Short(o.payload)
    ensures ObjectStreams.EncodeObject(false, o) == [o.objectID] + ObjectEnd(o)
    ensures ObjectStreams.EncodeObject(true, o) == [o.groupID, o.subgroupID, o.objectID, o.priority] + ObjectEnd(o)
  {
    hide EncodeVarint;
    OneOctet(o.groupID);
    OneOctet(o.subgroupID);
    OneOctet(o.objectID);
    OneOctet(o.status);
    OneOctet(0);
    OneOctet(|o.payload|);
    assert ObjectStreams.EncodeTail(o) == ObjectEnd(o);
  }

  /** Types 0x08 to 0x0d carry subgroups, and 0x0c and 0x0d name theirs; 0x05 is a fetch, the rest is refused. */
  lemma HeaderRead(typ: Digit, identifier: Digit, group: Digit, subgroup: Digit, priority: Byte, rest: ByteSeq)
    ensures typ == 0x05 ==>
              ObjectStreams.ParseHeader([typ, identifier] + rest) ==
              Ok((ObjectStreams.Header(0x05, identifier, 0, 0, 0), rest))
    ensures 0x08 <= typ <= 0x0b ==>
              ObjectStreams.ParseHeader([typ, identifier, group] + ([priority] + rest)) ==
              Ok((ObjectStreams.Header(typ, identifier, priority, group, 0), rest))
    ensures 0x0c <= typ <= 0x0d ==>
              ObjectStreams.ParseHeader([typ, identifier, group, subgroup] + ([priority] + rest)) ==
              Ok((ObjectStreams.Header(typ, identifier, priority, group, subgroup), rest))
    ensures typ < 0x05 || typ == 0x06 || typ == 0x07 || typ > 0x0d ==>
              ObjectStreams.ParseHeader([typ] + rest) == Err(InvalidStreamType)
  {
    hide ObjectStreams.ParseHeader;
    FetchHeaderRead(typ, identifier, rest);
    if 0x08 <= typ <= 0x0d {
      SubgroupHeaderRead(typ, identifier, group, subgroup, priority, rest);
    }
  }

  lemma FetchHeaderRead(typ: Digit, identifier: Digit, rest: ByteSeq)
    ensures typ == 0x05 ==>
              ObjectStreams.ParseHeader([typ, identifier] + rest) ==
              Ok((ObjectStreams.Header(0x05, identifier, 0, 0, 0), rest))
    ensures typ < 0x05 || typ == 0x06 || typ == 0x07 || typ > 0x0d ==>
              ObjectStreams.ParseHeader([typ] + rest) == Err(InvalidStreamType)
  {
    hide ParseVarint;
    assert [typ, identifier] + rest == [typ] + ([identifier] + rest);
    ReadOctet(typ, rest);
    ReadOctet(typ, [identifier] + rest);
    ReadOctet(identifier, rest);
  }

  lemma SubgroupHeaderRead(
    typ: Digit, identifier: Digit, group: Digit, subgroup: Digit, priority: Byte, rest: ByteSeq)
    requires 0x08 <= typ <= 0x0d
    ensures
      var named := typ >= 0x0c;
      ObjectStreams.ParseHeader(
        (if named then [typ, identifier, group, subgroup] else [typ, identifier, group]) + ([priority] + rest)) ==
      Ok((ObjectStreams.Header(typ, identifier, priority, group, if named then subgroup else 0), rest))
  {
    hide ParseVarint;
    var end := [priority] + rest;
    assert ObjectStreams.ParseByte(end) == Ok((priority, rest)) by {
      assert end[1..] == rest;
    }
    hide ObjectStreams.ParseByte;
    if typ >= 0x0c {
      NamedHeader(typ, identifier, group, subgroup, end);
    } else {
      NamelessHeader(typ, identifier, group, end);
    }
  }

  lemma NamelessHeader(typ: Digit, identifier: Digit, group: Digit, end: ByteSeq)
    ensures ParseVarint([typ, identifier, group] + end) == Ok((typ, [identifier, group] + end))
    ensures ParseVarint([identifier, group] + end) == Ok((identifier, [group] + end))
    ensures ParseVarint([group] + end) == Ok((group, end))
  {
    hide ParseVarint;
    assert [typ, identifier, group] + end == [typ] + ([identifier, group] + end);
    assert [identifier, group] + end == [identifier] + ([group] + end);
    ReadOctet(typ, [identifier, group] + end);
    ReadOctet(identifier, [group] + end);
    ReadOctet(group, end);
  }

  lemma NamedHeader(typ: Digit, identifier: Digit, group: Digit, subgroup: Digit, end: ByteSeq)
    ensures ParseVarint([typ, identifier, group, subgroup] + end) == Ok((typ, [identifier, group, subgroup] + end))
    ensures ParseVarint([identifier, group, subgroup] + end) == Ok((identifier, [group, subgroup] + end))
    ensures ParseVarint([group, subgroup] + end) == Ok((group, [subgroup] + end))
    ensures ParseVarint([subgroup] + end) == Ok((subgroup, end))
  {
    hide ParseVarint;
    NamelessHeader(typ, identifier, group, [subgroup] + end);
    assert [typ, identifier, group] + ([subgroup] + end) == [typ, identifier, group, subgroup] + end;
    assert [identifier, group] + ([subgroup] + end) == [identifier, group, subgroup] + end;
    assert [group] + ([subgroup] + end) == [group, subgroup] + end;
    ReadOctet(subgroup, end);
  }

  /** Extension headers are read in the odd subgroup types and in fetches, and only an empty list is passed. */
  lemma ObjectRead(h: ObjectStreams.Header, id: Digit, extensions: Digit, rest: ByteSeq)
    requires 0x08 <= h.typ <= 0x0d
    ensures
      var o := ObjectStreams.Object(h.identifier, h.groupID, h.subgroupID, id, h.priority, 0, []);
      if h.typ == 0x09 || h.typ == 0x0b || h.typ == 0x0d then
        ObjectStreams.ParseObject(h, [id, extensions] + rest) ==
        if extensions == 0 then ObjectStreams.ParsePayload(o, rest) else Err(ExtensionsEndInError)
      else ObjectStreams.ParseObject(h, [id] + rest) == ObjectStreams.ParsePayload(o, rest)
  {
    hide ParseVarint, ObjectStreams.ParsePayload;
    assert [id, extensions] + rest == [id] + ([extensions] + rest);
    ReadOctet(id, [extensions] + rest);
    ReadOctet(extensions, rest);
    ReadOctet(id, rest);
  }
}
