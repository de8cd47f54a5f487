/**
 Control messages: the bodies of SUBSCRIBE, SUBSCRIBE_OK, FETCH and CLIENT_SETUP, the frame around
 them, and the reader that takes frames off the control stream.
 */
module ControlMessages {
  import opened Bytes
  import opened Varints
  import opened WireFields

  const TYPE_SUBSCRIBE: nat := 0x03
  const TYPE_SUBSCRIBE_OK: nat := 0x04
  const TYPE_FETCH: nat := 0x16
  const TYPE_CLIENT_SETUP: nat := 0x20

  /** The other message types that the parser dispatches on. */
  const OTHER_TYPES: set<nat> := {
    0x21, 0x10, 0x15, 0x1a, 0x05, 0x0a, 0x02, 0x0b, 0x18, 0x19, 0x17, 0x0d, 0x0e,
    0x06, 0x07, 0x08, 0x09, 0x0c, 0x11, 0x12, 0x13, 0x14
  }

  const FILTER_NEXT_GROUP_START: nat := 1
  const FILTER_ABSOLUTE_START: nat := 3
  const FILTER_ABSOLUTE_RANGE: nat := 4
  const FETCH_STANDALONE: nat := 1
  const FETCH_ABSOLUTE_JOINING: nat := 3

  datatype Location = Location(group: nat, obj: nat)

  const ORIGIN: Location := Location(0, 0)

  datatype Message =
    | Subscribe(
        requestID: nat, namespace: seq<ByteSeq>, name: ByteSeq, priority: Byte, groupOrder: Byte, forward: Byte,
        filter: nat, start: Location, endGroup: nat, params: seq<Pair>)
    | SubscribeOk(
        requestID: nat, alias: nat, expires: int, groupOrder: Byte, contentExists: bool, largest: Location,
        params: seq<Pair>)
    | Fetch(
        requestID: nat, priority: Byte, groupOrder: Byte, fetchType: nat, namespace: seq<ByteSeq>, name: ByteSeq,
        start: Location, end: Location, joiningID: nat, joiningStart: nat, params: seq<Pair>)
    | ClientSetup(versions: seq<nat>, params: seq<Pair>)
    | Undecoded(typ: nat, body: ByteSeq)   // a message of another dispatched type

  // ---------------------------------------------------------------- durations

  const MILLISECOND: int := 1_000_000
  const TWO63: int := 0x8000_0000_0000_0000
  const TWO64: int := 0x1_0000_0000_0000_0000

  /** The signed 64-bit value of an integer computed with wrap-around. */
  function Wrap64(v: int): int {
    var m := v % TWO64;
    if m >= TWO63 then m - TWO64 else m
  }

  /** The writer emits the raw duration; the reader takes it for milliseconds. */
  function ReadExpires(written: int): int {
    Wrap64(written * MILLISECOND)
  }

  /** 999999 has an inverse modulo two to the 64. */
  const INVERSE: int := 1672254362768354751

  lemma InverseOf999999()
    ensures 999_999 * INVERSE % TWO64 == 1
  {
  }

  /**
   SUBSCRIBE_OK preserves its expiry, over all durations that can be written and with 64-bit
   wrap-around, exactly when the expiry is zero.
   */
  lemma ExpiresPreservedOnlyZero(e: int)
    requires 0 <= e < VARINT_SIZE
    ensures ReadExpires(e) == e <==> e == 0
  {
    if ReadExpires(e) == e {
      var q := (e * MILLISECOND) / TWO64;
      assert e * MILLISECOND == q * TWO64 + e;
      var k := (999_999 * INVERSE) / TWO64;
      InverseOf999999();
      assert 999_999 * INVERSE == k * TWO64 + 1;
      assert e * 999_999 == q * TWO64;
      MultipleOfSize(e, q, k);
    }
  }

  /** Up to the range of 64-bit durations the reader sees a million times what was written. */
  lemma ExpiresScaled(e: int)
    requires 0 <= e <= 9_223_372_036_854
    ensures ReadExpires(e) == 1_000_000 * e
  {
  }

  lemma MultipleOfSize(e: int, q: int, k: int)
    requires e * 999_999 == q * TWO64 && 999_999 * INVERSE == k * TWO64 + 1
    requires 0 <= e < TWO64
    ensures e == 0
  {
    var u := q * INVERSE - k * e;
    assert e == u * TWO64 by {
      assert e * 999_999 * INVERSE == q * TWO64 * INVERSE;
      assert e * (999_999 * INVERSE) == e * (k * TWO64 + 1);
    }
  }

  // ---------------------------------------------------------------- bodies

  predicate SmallLocation(l: Location) {
    Small(l.group) && Small(l.obj)
  }

  /** What a sender may write: numbers that fit varints, and values the reader does not refuse. */
  predicate Writable(m: Message) {
    match m
    case Subscribe(id, ns, name, _, order, forward, _, start, endGroup, params) =>
      && Small(id) && SmallItems(ns) && Small(|name|) && order <= 2 && forward <= 1
      && SmallLocation(start) && Small(endGroup) && SmallPairs(params)
    case SubscribeOk(id, alias, expires, order, _, largest, params) =>
      && Small(id) && Small(alias) && 0 <= expires < VARINT_SIZE && order <= 2
      && SmallLocation(largest) && SmallPairs(params)
    case Fetch(id, _, order, typ, ns, name, start, end, joiningID, joiningStart, params) =>
      && Small(id) && order <= 2 && FETCH_STANDALONE <= typ <= FETCH_ABSOLUTE_JOINING && SmallItems(ns) && Small(|name|)
      && SmallLocation(start) && SmallLocation(end) && Small(joiningID) && Small(joiningStart) && SmallPairs(params)
    case ClientSetup(versions, params) => SmallNumbers(versions) && SmallPairs(params)
    case Undecoded(_, _) => false
  }

  function TypeOf(m: Message): nat
    requires Writable(m)
  {
    match m
    case Subscribe(_, _, _, _, _, _, _, _, _, _) => TYPE_SUBSCRIBE
    case SubscribeOk(_, _, _, _, _, _, _) => TYPE_SUBSCRIBE_OK
    case Fetch(_, _, _, _, _, _, _, _, _, _, _) => TYPE_FETCH
    case ClientSetup(_, _) => TYPE_CLIENT_SETUP
  }

  /** FilterType.append: an unknown filter is written as NextGroupStart. */
  function NormalFilter(f: nat): nat {
    if 1 <= f <= 4 then f else FILTER_NEXT_GROUP_START
  }

  predicate HasStart(filter: nat) {
    filter == FILTER_ABSOLUTE_START || filter == FILTER_ABSOLUTE_RANGE
  }

  function EncodeLocation(l: Location): ByteSeq
    requires SmallLocation(l)
  {
    EncodeVarint(l.group) + EncodeVarint(l.obj)
  }

  function ParseLocation(data: ByteSeq): Parse<Location> {
    var (g, d) :- ParseVarint(data);
    var (o, rest) :- ParseVarint(d);
    Ok((Location(g, o), rest))
  }

  lemma LocationRoundTrip(l: Location, rest: ByteSeq)
    requires SmallLocation(l)
    ensures ParseLocation(EncodeLocation(l) + rest) == Ok((l, rest))
  {
    hide EncodeVarint, ParseVarint;
    assert EncodeLocation(l) + rest == EncodeVarint(l.group) + (EncodeVarint(l.obj) + rest);
    VarintRoundTrip(l.group, EncodeVarint(l.obj) + rest);
    VarintRoundTrip(l.obj, rest);
  }

  // SUBSCRIBE

  function EncodeSubscribeEnd(m: Message): ByteSeq
    requires m.Subscribe? && Writable(m)
  {
    if m.filter == FILTER_ABSOLUTE_RANGE then EncodeVarint(m.endGroup) + EncodeParams(m.params)
    else EncodeParams(m.params)
  }

  function EncodeSubscribeRange(m: Message): ByteSeq
    requires m.Subscribe? && Writable(m)
  {
    if HasStart(m.filter) then EncodeLocation(m.start) + EncodeSubscribeEnd(m) else EncodeSubscribeEnd(m)
  }

  function EncodeSubscribeFlags(m: Message): ByteSeq
    requires m.Subscribe? && Writable(m)
  {
    [m.priority, m.groupOrder, m.forward] + (EncodeVarint(NormalFilter(m.filter)) + EncodeSubscribeRange(m))
  }

  function EncodeSubscribe(m: Message): ByteSeq
    requires m.Subscribe? && Writable(m)
  {
    EncodeVarint(m.requestID) + (EncodeTuple(m.namespace) + (EncodeBytes(m.name) + EncodeSubscribeFlags(m)))
  }

  /** From the filter arguments on. */
  function ParseSubscribeRange(m: Message, data: ByteSeq): Result<Message, Error>
    requires m.Subscribe?
  {
    var (start, d1) :- if HasStart(m.filter) then ParseLocation(data) else Ok((ORIGIN, data));
    var (end, d2) :- if m.filter == FILTER_ABSOLUTE_RANGE then ParseVarint(d1) else Ok((0, d1));
    var (params, _) :- ParseParams(d2);
    Ok(m.(start := start, endGroup := end, params := params))
  }

  function ParseSubscribe(data: ByteSeq): Result<Message, Error> {
    var (id, d1) :- ParseVarint(data);
    var (ns, d2) :- ParseTuple(d1);
    var (name, d3) :- ParseBytes(d2, ShortInput);
    if |d3| < 3 then Err(LengthMismatch)
    else if d3[1] > 2 then Err(InvalidGroupOrder)
    else if d3[2] > 1 then Err(InvalidForwardFlag)
    else
      var (filter, d4) :- ParseVarint(d3[3..]);
      if filter == 0 || filter > 4 then Err(InvalidFilterType)
      else ParseSubscribeRange(Subscribe(id, ns, name, d3[0], d3[1], d3[2], filter, ORIGIN, 0, []), d4)
  }

  /** The arguments of filters other than the one taken are not written. */
  function NormalSubscribe(m: Message): Message
    requires m.Subscribe?
  {
    m.(filter := NormalFilter(m.filter),
       start := if HasStart(m.filter) then m.start else ORIGIN,
       endGroup := if m.filter == FILTER_ABSOLUTE_RANGE then m.endGroup else 0,
       params := NormalPairs(m.params))
  }

  lemma ParamsAlone(ps: seq<Pair>)
    requires SmallPairs(ps)
    ensures ParseParams(EncodeParams(ps)) == Ok((NormalPairs(ps), []))
  {
    ParamsRoundTrip(ps, []);
    assert EncodeParams(ps) + [] == EncodeParams(ps);
  }

  lemma SubscribeRangeRoundTrip(m: Message, p: Message)
    requires m.Subscribe? && Writable(m) && p.Subscribe? && p.filter == NormalFilter(m.filter)
    ensures ParseSubscribeRange(p, EncodeSubscribeRange(m)) ==
            Ok(p.(start := NormalSubscribe(m).start, endGroup := NormalSubscribe(m).endGroup,
                  params := NormalPairs(m.params)))
  {
    hide EncodeVarint, ParseVarint, EncodeParams, ParseParams, EncodeLocation, ParseLocation, NormalPairs;
    if HasStart(m.filter) {
      LocationRoundTrip(m.start, EncodeSubscribeEnd(m));
    }
    if m.filter == FILTER_ABSOLUTE_RANGE {
      VarintRoundTrip(m.endGroup, EncodeParams(m.params));
    }
    ParamsAlone(m.params);
  }

  lemma SubscribeRoundTrip(m: Message)
    requires m.Subscribe? && Writable(m)
    ensures ParseSubscribe(EncodeSubscribe(m)) == Ok(NormalSubscribe(m))
  {
    hide EncodeVarint, ParseVarint, EncodeTuple, ParseTuple, EncodeBytes, ParseBytes,
         EncodeSubscribeRange, ParseSubscribeRange, NormalPairs;
    var flags := EncodeSubscribeFlags(m);
    var named := EncodeBytes(m.name) + flags;
    VarintRoundTrip(m.requestID, EncodeTuple(m.namespace) + named);
    TupleRoundTrip(m.namespace, named);
    BytesRoundTrip(m.name, flags, ShortInput);
    assert flags[3..] == EncodeVarint(NormalFilter(m.filter)) + EncodeSubscribeRange(m);
    VarintRoundTrip(NormalFilter(m.filter), EncodeSubscribeRange(m));
    SubscribeRangeRoundTrip(m, Subscribe(m.requestID, m.namespace, m.name, m.priority, m.groupOrder, m.forward,
                                         NormalFilter(m.filter), ORIGIN, 0, []));
  }

  // SUBSCRIBE_OK

  function EncodeOkContent(m: Message): ByteSeq
    requires m.SubscribeOk? && Writable(m)
  {
    if m.contentExists then EncodeLocation(m.largest) + EncodeParams(m.params) else EncodeParams(m.params)
  }

  function EncodeSubscribeOk(m: Message): ByteSeq
    requires m.SubscribeOk? && Writable(m)
  {
    EncodeVarint(m.requestID) + (EncodeVarint(m.alias) + (EncodeVarint(m.expires) +
    ([m.groupOrder, if m.contentExists then 1 else 0] + EncodeOkContent(m))))
  }

  function ParseSubscribeOk(data: ByteSeq): Result<Message, Error> {
    var (id, d1) :- ParseVarint(data);
    var (alias, d2) :- ParseVarint(d1);
    var (expires, d3) :- ParseVarint(d2);
    if |d3| < 2 then Err(LengthMismatch)
    else if d3[0] > 2 then Err(InvalidGroupOrder)
    else if d3[1] > 1 then Err(InvalidContentExists)
    else
      var (largest, d4) :- if d3[1] == 1 then ParseLocation(d3[2..]) else Ok((ORIGIN, d3[2..]));
      var (params, _) :- ParseParams(d4);
      Ok(SubscribeOk(id, alias, ReadExpires(expires), d3[0], d3[1] == 1, largest, params))
  }

  function NormalSubscribeOk(m: Message): Message
    requires m.SubscribeOk?
  {
    m.(expires := ReadExpires(m.expires), largest := if m.contentExists then m.largest else ORIGIN,
       params := NormalPairs(m.params))
  }

  lemma SubscribeOkRoundTrip(m: Message)
    requires m.SubscribeOk? && Writable(m)
    ensures ParseSubscribeOk(EncodeSubscribeOk(m)) == Ok(NormalSubscribeOk(m))
  {
    hide EncodeVarint, ParseVarint, EncodeParams, ParseParams, EncodeLocation, ParseLocation, NormalPairs, ReadExpires;
    var flags := [m.groupOrder, if m.contentExists then 1 else 0];
    var content := EncodeOkContent(m);
    VarintRoundTrip(m.requestID, EncodeVarint(m.alias) + (EncodeVarint(m.expires) + (flags + content)));
    VarintRoundTrip(m.alias, EncodeVarint(m.expires) + (flags + content));
    VarintRoundTrip(m.expires, flags + content);
    assert (flags + content)[2..] == content;
    if m.contentExists {
      LocationRoundTrip(m.largest, EncodeParams(m.params));
    }
    ParamsAlone(m.params);
  }

  // FETCH

  function EncodeStandalone(m: Message): ByteSeq
    requires m.Fetch? && Writable(m)
  {
    EncodeTuple(m.namespace) + (EncodeBytes(m.name) +
    (EncodeLocation(m.start) + (EncodeLocation(m.end) + EncodeParams(m.params))))
  }

  function EncodeJoining(m: Message): ByteSeq
    requires m.Fetch? && Writable(m)
  {
    EncodeVarint(m.joiningID) + (EncodeVarint(m.joiningStart) + EncodeParams(m.params))
  }

  function EncodeFetch(m: Message): ByteSeq
    requires m.Fetch? && Writable(m)
  {
    EncodeVarint(m.requestID) + ([m.priority, m.groupOrder] + (EncodeVarint(m.fetchType) +
    (if m.fetchType == FETCH_STANDALONE then EncodeStandalone(m) else EncodeJoining(m))))
  }

  function ParseStandalone(m: Message, data: ByteSeq): Result<Message, Error>
    requires m.Fetch?
  {
    var (ns, d1) :- ParseTuple(data);
    var (name, d2) :- ParseBytes(d1, ShortInput);
    var (start, d3) :- ParseLocation(d2);
    var (end, d4) :- ParseLocation(d3);
    var (params, _) :- ParseParams(d4);
    Ok(m.(namespace := ns, name := name, start := start, end := end, params := params))
  }

  function ParseJoining(m: Message, data: ByteSeq): Result<Message, Error>
    requires m.Fetch?
  {
    var (id, d1) :- ParseVarint(data);
    var (start, d2) :- ParseVarint(d1);
    var (params, _) :- ParseParams(d2);
    Ok(m.(joiningID := id, joiningStart := start, params := params))
  }

  function ParseFetch(data: ByteSeq): Result<Message, Error> {
    var (id, d1) :- ParseVarint(data);
    if |d1| < 2 then Err(LengthMismatch)
    else if d1[1] > 2 then Err(InvalidGroupOrder)
    else
      var (typ, d2) :- ParseVarint(d1[2..]);
      if typ < FETCH_STANDALONE || typ > FETCH_ABSOLUTE_JOINING then Err(InvalidFetchType)
      else
        var m := Fetch(id, d1[0], d1[1], typ, [], [], ORIGIN, ORIGIN, 0, 0, []);
        if typ == FETCH_STANDALONE then ParseStandalone(m, d2) else ParseJoining(m, d2)
  }

  /** The fields of the branch not taken are not written. */
  function NormalFetch(m: Message): Message
    requires m.Fetch?
  {
    if m.fetchType == FETCH_STANDALONE then m.(joiningID := 0, joiningStart := 0, params := NormalPairs(m.params))
    else m.(namespace := [], name := [], start := ORIGIN, end := ORIGIN, params := NormalPairs(m.params))
  }

  lemma StandaloneRoundTrip(m: Message, p: Message)
    requires m.Fetch? && Writable(m) && p.Fetch?
    ensures ParseStandalone(p, EncodeStandalone(m)) ==
            Ok(p.(namespace := m.namespace, name := m.name, start := m.start, end := m.end,
                  params := NormalPairs(m.params)))
  {
    hide EncodeTuple, ParseTuple, EncodeBytes, ParseBytes, EncodeLocation, ParseLocation;
    hide EncodeParams, ParseParams, NormalPairs;
    var ends := EncodeLocation(m.end) + EncodeParams(m.params);
    var range := EncodeLocation(m.start) + ends;
    TupleRoundTrip(m.namespace, EncodeBytes(m.name) + range);
    BytesRoundTrip(m.name, range, ShortInput);
    LocationRoundTrip(m.start, ends);
    LocationRoundTrip(m.end, EncodeParams(m.params));
    ParamsAlone(m.params);
  }

  lemma JoiningRoundTrip(m: Message, p: Message)
    requires m.Fetch? && Writable(m) && p.Fetch?
    ensures ParseJoining(p, EncodeJoining(m)) ==
            Ok(p.(joiningID := m.joiningID, joiningStart := m.joiningStart, params := NormalPairs(m.params)))
  {
    hide EncodeVarint, ParseVarint, EncodeParams, ParseParams, NormalPairs;
    VarintRoundTrip(m.joiningID, EncodeVarint(m.joiningStart) + EncodeParams(m.params));
    VarintRoundTrip(m.joiningStart, EncodeParams(m.params));
    ParamsAlone(m.params);
  }

  lemma FetchRoundTrip(m: Message)
    requires m.Fetch? && Writable(m)
    ensures ParseFetch(EncodeFetch(m)) == Ok(NormalFetch(m))
  {
    hide EncodeVarint, ParseVarint, EncodeStandalone, ParseStandalone, EncodeJoining, ParseJoining, NormalPairs;
    var branch := if m.fetchType == FETCH_STANDALONE then EncodeStandalone(m) else EncodeJoining(m);
    var flags := [m.priority, m.groupOrder];
    var typed := EncodeVarint(m.fetchType) + branch;
    VarintRoundTrip(m.requestID, flags + typed);
    assert (flags + typed)[2..] == typed;
    VarintRoundTrip(m.fetchType, branch);
    var p := Fetch(m.requestID, m.priority, m.groupOrder, m.fetchType, [], [], ORIGIN, ORIGIN, 0, 0, []);
    if m.fetchType == FETCH_STANDALONE {
      StandaloneRoundTrip(m, p);
    } else {
      JoiningRoundTrip(m, p);
    }
  }

  // CLIENT_SETUP

  function EncodeClientSetup(m: Message): ByteSeq
    requires m.ClientSetup? && Writable(m)
  {
    EncodeVersions(m.versions) + EncodeParams(m.params)
  }

  function ParseClientSetup(data: ByteSeq): Result<Message, Error> {
    var (versions, d1) :- ParseVersions(data);
    var (params, _) :- ParseParams(d1);
    Ok(ClientSetup(versions, params))
  }

  lemma ClientSetupRoundTrip(m: Message)
    requires m.ClientSetup? && Writable(m)
    ensures ParseClientSetup(EncodeClientSetup(m)) == Ok(m.(params := NormalPairs(m.params)))
  {
    hide EncodeVersions, ParseVersions, EncodeParams, ParseParams, NormalPairs;
    VersionsRoundTrip(m.versions, EncodeParams(m.params));
    ParamsAlone(m.params);
  }

  // ---------------------------------------------------------------- any message

  function EncodeBody(m: Message): ByteSeq
    requires Writable(m)
  {
    if m.Subscribe? then EncodeSubscribe(m)
    else if m.SubscribeOk? then EncodeSubscribeOk(m)
    else if m.Fetch? then EncodeFetch(m)
    else EncodeClientSetup(m)
  }

  /** The dispatch of ControlMessageParser.Parse. */
  function ParseBody(typ: nat, body: ByteSeq): Result<Message, Error> {
    if typ == TYPE_SUBSCRIBE then ParseSubscribe(body)
    else if typ == TYPE_SUBSCRIBE_OK then ParseSubscribeOk(body)
    else if typ == TYPE_FETCH then ParseFetch(body)
    else if typ == TYPE_CLIENT_SETUP then ParseClientSetup(body)
    else if typ in OTHER_TYPES then Ok(Undecoded(typ, body))
    else Err(InvalidMessageType)
  }

  function Normal(m: Message): Message {
    match m
    case Subscribe(_, _, _, _, _, _, _, _, _, _) => NormalSubscribe(m)
    case SubscribeOk(_, _, _, _, _, _, _) => NormalSubscribeOk(m)
    case Fetch(_, _, _, _, _, _, _, _, _, _, _) => NormalFetch(m)
    case ClientSetup(_, params) => m.(params := NormalPairs(params))
    case Undecoded(_, _) => m
  }

  lemma BodyRoundTrip(m: Message)
    requires Writable(m)
    ensures ParseBody(TypeOf(m), EncodeBody(m)) == Ok(Normal(m))
  {
    hide EncodeSubscribe, ParseSubscribe, EncodeSubscribeOk, ParseSubscribeOk, EncodeFetch, ParseFetch,
         EncodeClientSetup, ParseClientSetup, NormalSubscribe, NormalSubscribeOk, NormalFetch, NormalPairs;
    match m
    case Subscribe(_, _, _, _, _, _, _, _, _, _) => SubscribeRoundTrip(m);
    case SubscribeOk(_, _, _, _, _, _, _) => SubscribeOkRoundTrip(m);
    case Fetch(_, _, _, _, _, _, _, _, _, _, _) => FetchRoundTrip(m);
    case ClientSetup(_, _) => ClientSetupRoundTrip(m);
  }

  // ---------------------------------------------------------------- frames

  const MAX_BODY: nat := 0xffff

  /** Type, 16-bit length, body. */
  function EncodeFrame(typ: nat, body: ByteSeq): ByteSeq
    requires Small(typ) && |body| <= MAX_BODY
  {
    EncodeVarint(typ) + ([|body| / 256, |body| % 256] + body)
  }

  lemma TypeOctet(m: Message)
    requires Writable(m)
    ensures EncodeVarint(TypeOf(m)) ==
            [if m.Subscribe? then 0x03 else if m.SubscribeOk? then 0x04 else if m.Fetch? then 0x16 else 0x20]
  {
    assert BigEndian(0, 0) == [];
  }

  lemma PatchLength(head: ByteSeq, hi: Byte, lo: Byte, body: ByteSeq)
    ensures (head + [0, 0] + body)[|head| := hi][|head| + 1 := lo] == head + ([hi, lo] + body)
    ensures head + ([hi, lo] + body) == (head + [hi, lo]) + body
  {
  }

  /** compileMessage: the length is patched over a placeholder once the body is known. */
  method CompileMessage(m: Message) returns (r: Result<ByteSeq, Error>)
    requires Writable(m)
    ensures r.Ok? <==> |EncodeBody(m)| <= 65535
    ensures r.Ok? ==> r.value == EncodeFrame(TypeOf(m), EncodeBody(m))
    ensures
      var length := |EncodeBody(m)|;
      var typ := if m.Subscribe? then 0x03 else if m.SubscribeOk? then 0x04 else if m.Fetch? then 0x16 else 0x20;
      r.Ok? ==> r.value == ([typ] + [length / 0x100, length % 0x100]) + EncodeBody(m)
    ensures r.Err? ==> r.error == MessageTooLarge
  {
    TypeOctet(m);
    hide EncodeBody, EncodeVarint, Writable, TypeOf;
    r := FillFrame(EncodeVarint(TypeOf(m)), EncodeBody(m));
  }

  /** The buffer of compileMessage behind the message type. */
  method FillFrame(head: ByteSeq, body: ByteSeq) returns (r: Result<ByteSeq, Error>)
    ensures r.Ok? <==> |body| <= 65535
    ensures r.Ok? ==> r.value == head + ([|body| / 256, |body| % 256] + body)
    ensures r.Ok? ==> r.value == (head + [|body| / 256, |body| % 256]) + body
    ensures r.Err? ==> r.error == MessageTooLarge
  {
    var buf := head;
    var tl := |buf|;
    buf := buf + [0, 0];
    buf := buf + body;
    var length := |buf| - (tl + 2);
    if length > MAX_BODY {
      return Err(MessageTooLarge);
    }
    buf := buf[tl := length / 256];
    buf := buf[tl + 1 := length % 256];
    PatchLength(head, length / 256, length % 256, body);
    return Ok(buf);
  }

  /** One frame off the stream; the body must be complete before it is looked at. */
  function ParseFrame(data: ByteSeq): (r: Parse<Message>)
    ensures r.Ok? ==> |r.value.1| < |data|
  {
    var (typ, d) :- ParseVarint(data);
    if |d| < 2 then Err(ShortInput)
    else
      var length := 256 * (d[0] as nat) + d[1];
      if |d| < 2 + length then Err(ShortInput)
      else
        var m :- ParseBody(typ, d[2..2 + length]);
        Ok((m, d[2 + length..]))
  }

  lemma FrameRoundTrip(typ: nat, body: ByteSeq, m: Message, rest: ByteSeq)
    requires Small(typ) && |body| <= MAX_BODY && ParseBody(typ, body) == Ok(m)
    ensures ParseFrame(EncodeFrame(typ, body) + rest) == Ok((m, rest))
  {
    hide EncodeVarint, ParseVarint, ParseBody;
    var n := |body|;
    var tail := ([n / 256, n % 256] + body) + rest;
    assert EncodeFrame(typ, body) + rest == EncodeVarint(typ) + tail;
    VarintRoundTrip(typ, tail);
    assert tail[2..2 + n] == body && tail[2 + n..] == rest;
  }

  lemma FrameCut(typ: nat, body: ByteSeq, n: nat)
    requires Small(typ) && |body| <= MAX_BODY && n < |EncodeFrame(typ, body)|
    ensures ParseFrame(EncodeFrame(typ, body)[..n]).Err?
  {
  }

  // ---------------------------------------------------------------- the control stream

  predicate Sendable(m: Message) {
    Writable(m) && |EncodeBody(m)| <= MAX_BODY
  }

  function FrameOf(m: Message): (r: ByteSeq)
    requires Sendable(m)
    ensures |r| > 0
  {
    EncodeFrame(TypeOf(m), EncodeBody(m))
  }

  function Frames(ms: seq<Message>): ByteSeq
    requires forall i :: 0 <= i < |ms| ==> Sendable(ms[i])
  {
    if ms == [] then [] else FrameOf(ms[0]) + Frames(ms[1..])
  }

  /** The messages read until the first error, and the input left over at that point. */
  function ReadMessages(data: ByteSeq): (seq<Message>, ByteSeq)
    decreases |data|
  {
    var r := ParseFrame(data);
    if r.Err? then ([], data)
    else
      var (ms, rest) := ReadMessages(r.value.1);
      ([r.value.0] + ms, rest)
  }

  function Complete(ms: seq<Message>, n: nat): (k: nat)
    requires forall i :: 0 <= i < |ms| ==> Sendable(ms[i])
    ensures k <= |ms|
  {
    if ms == [] || n < |FrameOf(ms[0])| then 0 else 1 + Complete(ms[1..], n - |FrameOf(ms[0])|)
  }

  function NormalAll(ms: seq<Message>): seq<Message> {
    if ms == [] then [] else [Normal(ms[0])] + NormalAll(ms[1..])
  }

  lemma OneFrame(m: Message, rest: ByteSeq)
    requires Sendable(m)
    ensures ParseFrame(FrameOf(m) + rest) == Ok((Normal(m), rest))
  {
    BodyRoundTrip(m);
    FrameRoundTrip(TypeOf(m), EncodeBody(m), Normal(m), rest);
  }

  /**
   For every sequence of messages and every cut of the bytes that carry them: the reader gets back,
   up to normal form, exactly the messages whose frames are complete.
   */
  lemma {:induction false} MessagesPrefix(ms: seq<Message>, n: nat)
    requires (forall i :: 0 <= i < |ms| ==> Sendable(ms[i])) && n <= |Frames(ms)|
    ensures ReadMessages(Frames(ms)[..n]).0 == NormalAll(ms[..Complete(ms, n)])
  {
    hide FrameOf, ParseFrame, Normal, Sendable;
    if ms == [] {
      assert Frames(ms)[..n] == [];
      EmptyInput();
    } else {
      var first, rest := FrameOf(ms[0]), Frames(ms[1..]);
      CutConcat(first, rest, n);
      if n < |first| {
        CutFrame(ms[0], n);
        assert ms[..0] == [];
      } else {
        var m := n - |first|;
        OneFrame(ms[0], rest[..m]);
        MessagesPrefix(ms[1..], m);
        var k := Complete(ms[1..], m);
        assert ms[..k + 1][1..] == ms[1..][..k];
      }
    }
  }

  lemma EmptyInput()
    ensures ParseFrame([]).Err?
  {
  }

  lemma CutFrame(m: Message, n: nat)
    requires Sendable(m) && n < |FrameOf(m)|
    ensures ParseFrame(FrameOf(m)[..n]).Err?
  {
    FrameCut(TypeOf(m), EncodeBody(m), n);
  }

  /** The whole stream gives back every message in normal form and leaves no byte. */
  lemma {:induction false} MessagesRoundTrip(ms: seq<Message>)
    requires forall i :: 0 <= i < |ms| ==> Sendable(ms[i])
    ensures ReadMessages(Frames(ms)) == (NormalAll(ms), [])
  {
    hide FrameOf, ParseFrame, Normal, Sendable;
    if ms == [] {
      EmptyInput();
    } else {
      OneFrame(ms[0], Frames(ms[1..]));
      MessagesRoundTrip(ms[1..]);
    }
  }

  class ControlMessageParser {
    const data: ByteSeq
    var pos: nat

    ghost predicate Valid()
      reads this
    {
      pos <= |data|
    }

    constructor (data: ByteSeq)
      ensures Valid() && this.data == data && pos == 0
    {
      this.data, pos := data, 0;
    }

    /** Takes one frame off the stream. After an error the session stops reading. */
    method Parse() returns (r: Result<Message, Error>)
      requires Valid()
      modifies this
      ensures Valid()
      ensures match ParseFrame(data[old(pos)..])
              case Ok((m, rest)) => r == Ok(m) && pos > old(pos) && data[pos..] == rest
              case Err(e) => r == Err(e)
    {
      hide ParseVarint, ParseBody;
      var input := data[pos..];
      var typ := ParseVarint(input);
      if typ.Err? {
        return Err(typ.error);
      }
      var d := typ.value.1;
      if |d| < 2 {
        return Err(ShortInput);
      }
      var hi, lo := d[0], d[1];
      var length := 256 * (hi as nat) + lo;
      if |d| - 2 < length {
        return Err(ShortInput);
      }
      var m := ParseBody(typ.value.0, d[2..2 + length]);
      if m.Err? {
        return Err(m.error);
      }
      pos := |data| - |d| + 2 + length;
      assert data[pos..] == d[2 + length..];
      return m;
    }
  }
}
