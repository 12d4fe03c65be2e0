/** The RC frame codec of package `remotecall`.

    Every frame starts with a 4-byte header ("RC", a version byte, the spacer 0xFF),
    followed by a packet-type byte and the variant's fields. Each variant's `Marshal`
    reads only the packet's fields, so it is a function on a value datatype
    (`Header`, `Handshake`, ...). Each variant's `Unmarshal` is a pointer-receiver method
    that overwrites the receiver's fields one by one and can stop half-way; it is
    modelled twice: as a class (`RCHeader`, `RCHandshake`, ...) whose method assigns
    the fields in the source's order, and as a function on the value datatype that
    gives the receiver's fields and the error after the call, which the method is
    proved to agree with. */
module RemoteCall {
  import opened Types

  /** "RC". */
  const Magic: seq<byte> := [0x52, 0x43]
  const ProtocolVersion: byte := 0x01
  const Spacer: byte := 0xFF

  const HandshakeType: byte := 0x00
  const HandshakeResponseType: byte := 0x01
  const QueryContentLengthType: byte := 0x10
  const ContentLengthResponseType: byte := 0x11
  const QueryType: byte := 0x12
  const QueryResponseType: byte := 0x13
  const QueryResultResponseType: byte := 0x14

  /** The errors the codec returns; the argument is the number the message prints. */
  datatype Error =
    | HeaderLengthMismatch(length: int)   // "invalid packet header: packet length mismatch"
    | HeaderMagicBytes(magic: seq<byte>)  // "invalid packet header: magic bytes"
    | HeaderSpacer(spacer: byte)          // "invalid packet header: spacer"
    | PacketLengthMismatch(length: int)   // "invalid packet: packet length mismatch"
    | PacketLengthTooSmall(length: int)   // "invalid packet: packet length too small"

  /** The receiver's fields after an in-place `Unmarshal`, and the error it returned. */
  datatype Decoded<T> = Decoded(state: T, err: Option<Error>)

  /** The 4-byte strings that header `Unmarshal` accepts. */
  predicate AcceptedHeader(raw: seq<byte>) {
    |raw| == 4 && raw[..2] == Magic && raw[3] == Spacer
  }

  /** The inputs on which a variant whose fixed part ends at offset `width` can be
      unmarshalled without slicing past the end: the header slice `raw[:4]` needs four
      bytes, and the field slices are reached only once the header was accepted. */
  predicate Decodable(raw: seq<byte>, width: nat) {
    |raw| >= 4 && (AcceptedHeader(raw[..4]) ==> |raw| >= width)
  }

  /** binary.LittleEndian.PutUint16 */
  function LittleEndian16(x: uint16): (b: seq<byte>)
    ensures |b| == 2 && b[0] as int + 0x100 * b[1] as int == x as int
  {
    [(x as int % 0x100) as byte, (x as int / 0x100) as byte]
  }

  /** binary.LittleEndian.Uint16 */
  function FromLittleEndian16(b: seq<byte>): (x: uint16)
    requires |b| == 2
    ensures LittleEndian16(x) == b
    ensures x as int == b[0] as int + 0x100 * b[1] as int
  {
    (b[0] as int + 0x100 * b[1] as int) as uint16
  }

  lemma LittleEndian16RoundTrip(x: uint16, b: seq<byte>)
    requires |b| == 2
    ensures FromLittleEndian16(LittleEndian16(x)) == x
    ensures LittleEndian16(FromLittleEndian16(b)) == b
  {
    var y := FromLittleEndian16(b);
    assert LittleEndian16(y)[0] == b[0];
  }

  // ---------------------------------------------------------------- header

  datatype Header = Header(magicBytes: seq<byte>, version: byte, spacer: byte) {

    /** (*RCHeader).Marshal: the magic bytes, the version and the spacer, refused unless
        they add up to four bytes. */
    function Marshal(): (r: Result<seq<byte>, Error>)
      ensures r.Success? <==> |magicBytes| == 2
      ensures r.Success? ==> |r.value| == 4 && r.value[..2] == magicBytes
                             && r.value[2] == version && r.value[3] == spacer
      ensures r.Failure? ==> r.error == HeaderLengthMismatch(|magicBytes| + 2)
    {
      var length := |magicBytes| + 1 + 1;
      if length != 4 then Failure(HeaderLengthMismatch(length))
      else Success(magicBytes + [version, spacer])
    }

    /** (*RCHeader).Unmarshal: the header's fields after the call and its error. */
    function Unmarshal(raw: seq<byte>): (d: Decoded<Header>)
      ensures d.err.None? <==> AcceptedHeader(raw)
      ensures |raw| != 4 ==> d == Decoded(this, Some(HeaderLengthMismatch(|raw|)))
      ensures |raw| == 4 && raw[..2] != Magic ==>
                d == Decoded(this.(magicBytes := raw[..2]), Some(HeaderMagicBytes(raw[..2])))
      ensures |raw| == 4 && raw[..2] == Magic ==> d.state == Header(Magic, raw[2], raw[3])
      ensures |raw| == 4 && raw[..2] == Magic && raw[3] != Spacer ==>
                d.err == Some(HeaderSpacer(raw[3]))
    {
      if |raw| != 4 then Decoded(this, Some(HeaderLengthMismatch(|raw|)))
      else
        var withMagic := this.(magicBytes := raw[..2]);
        if withMagic.magicBytes != Magic then Decoded(withMagic, Some(HeaderMagicBytes(raw[..2])))
        else
          var full := withMagic.(version := raw[2], spacer := raw[3]);
          if full.spacer != Spacer then Decoded(full, Some(HeaderSpacer(full.spacer)))
          else Decoded(full, None)
    }
  }

  /** NewRCHeader */
  const NewHeader := Header(Magic, ProtocolVersion, Spacer)

  /** The default header encodes to 52 43 01 FF. */
  lemma NewHeaderBytes()
    ensures NewHeader.Marshal() == Success([0x52, 0x43, 0x01, 0xFF])
  {
    assert Magic + [ProtocolVersion, Spacer] == [0x52, 0x43, 0x01, 0xFF];
  }

  /** A header with the right magic and spacer survives a round trip whatever its version,
      and whatever the receiver held before. */
  lemma HeaderRoundTrip(h: Header, prior: Header)
    requires h.magicBytes == Magic && h.spacer == Spacer
    ensures h.Marshal().Success?
    ensures prior.Unmarshal(h.Marshal().value) == Decoded(h, None)
  {
  }

  /** Only the header's own shape is checked on decoding: every version byte is accepted. */
  lemma HeaderVersionUnchecked(v: byte, prior: Header)
    ensures prior.Unmarshal(Magic + [v, Spacer]) == Decoded(Header(Magic, v, Spacer), None)
  {
    assert (Magic + [v, Spacer])[..2] == Magic;
  }

  // ---------------------------------------------------------------- handshake (0x00)

  datatype Handshake = Handshake(header: Header, packetType: byte, password: seq<byte>) {

    /** (*RCHandshake).Marshal */
    function Marshal(): (r: Result<seq<byte>, Error>)
      ensures r.Success? <==> header.Marshal().Success?
      ensures r.Failure? ==> r.error == header.Marshal().error
      ensures r.Success? ==> |r.value| == 5 + |password| && r.value[..4] == header.Marshal().value
                             && r.value[4] == packetType && r.value[5..] == password
    {
      var wb :- header.Marshal();
      var length := |wb| + 1 + |password|;
      if length != 5 + |password| then Failure(PacketLengthMismatch(length))
      else Success(wb + [packetType] + password)
    }

    /** (*RCHandshake).Unmarshal: the packet's fields after the call and its error. */
    function Unmarshal(raw: seq<byte>): (d: Decoded<Handshake>)
      requires Decodable(raw, 5)
      ensures d.err.None? <==> AcceptedHeader(raw[..4])
      ensures d.err.Some? ==> d.err == header.Unmarshal(raw[..4]).err
                              && d.state == this.(header := header.Unmarshal(raw[..4]).state)
      ensures d.err.None? ==> d.state == Handshake(Header(Magic, raw[2], Spacer), raw[4], raw[5..])
    {
      var h := header.Unmarshal(raw[..4]);
      if h.err.Some? then Decoded(this.(header := h.state), h.err)
      else Decoded(Handshake(h.state, raw[4], raw[5..]), None)
    }
  }

  /** NewRCHandshake (the client handshake) */
  const NewHandshake := Handshake(NewHeader, HandshakeType, [])

  lemma {:induction false} HandshakeRoundTrip(p: Handshake, prior: Handshake)
    requires p.header.magicBytes == Magic && p.header.spacer == Spacer
    ensures p.Marshal().Success? && |p.Marshal().value| == 5 + |p.password|
    ensures prior.Unmarshal(p.Marshal().value) == Decoded(p, None)
  {
    var raw := p.Marshal().value;
    assert raw[..4] == Magic + [p.header.version, Spacer];
    HeaderRoundTrip(p.header, prior.header);
  }

  // ---------------------------------------------------------------- handshake response (0x01)

  datatype HandshakeResponse = HandshakeResponse(header: Header, packetType: byte, result: byte) {

    /** (*RCHandshakeResponse).Marshal */
    function Marshal(): (r: Result<seq<byte>, Error>)
      ensures r.Success? <==> header.Marshal().Success?
      ensures r.Failure? ==> r.error == header.Marshal().error
      ensures r.Success? ==> |r.value| == 6 && r.value[..4] == header.Marshal().value
                             && r.value[4] == packetType && r.value[5] == result
    {
      var wb :- header.Marshal();
      var length := |wb| + 1 + 1;
      if length != 6 then Failure(PacketLengthTooSmall(length))
      else Success(wb + [packetType, result])
    }

    /** (*RCHandshakeResponse).Unmarshal */
    function Unmarshal(raw: seq<byte>): (d: Decoded<HandshakeResponse>)
      requires Decodable(raw, 6)
      ensures d.err.None? <==> AcceptedHeader(raw[..4])
      ensures d.err.Some? ==> d.err == header.Unmarshal(raw[..4]).err
                              && d.state == this.(header := header.Unmarshal(raw[..4]).state)
      ensures d.err.None? ==> d.state == HandshakeResponse(Header(Magic, raw[2], Spacer), raw[4], raw[5])
    {
      var h := header.Unmarshal(raw[..4]);
      if h.err.Some? then Decoded(this.(header := h.state), h.err)
      else Decoded(HandshakeResponse(h.state, raw[4], raw[5]), None)
    }
  }

  /** NewRCHandshakeResponse (the server handshake) */
  const NewHandshakeResponse := HandshakeResponse(NewHeader, HandshakeResponseType, 0x00)

  lemma {:induction false} HandshakeResponseRoundTrip(p: HandshakeResponse, prior: HandshakeResponse)
    requires p.header.magicBytes == Magic && p.header.spacer == Spacer
    ensures p.Marshal().Success? && |p.Marshal().value| == 6
    ensures prior.Unmarshal(p.Marshal().value) == Decoded(p, None)
  {
    var raw := p.Marshal().value;
    assert raw[..4] == Magic + [p.header.version, Spacer];
    HeaderRoundTrip(p.header, prior.header);
  }

  /** Bytes after offset 5 are ignored. */
  lemma HandshakeResponseIgnoresTrailingBytes(p: HandshakeResponse, raw: seq<byte>, extra: seq<byte>)
    requires |raw| == 6
    ensures p.Unmarshal(raw + extra) == p.Unmarshal(raw)
  {
    assert (raw + extra)[..4] == raw[..4];
  }

  // ---------------------------------------------------------------- query content length (0x10)

  datatype QueryContentLength = QueryContentLength(header: Header, packetType: byte, contentLength: uint16) {

    /** (*RCQueryContentLength).Marshal */
    function Marshal(): (r: Result<seq<byte>, Error>)
      ensures r.Success? <==> header.Marshal().Success?
      ensures r.Failure? ==> r.error == header.Marshal().error
      ensures r.Success? ==> |r.value| == 7 && r.value[..4] == header.Marshal().value
                             && r.value[4] == packetType
                             && r.value[5] as int + 0x100 * r.value[6] as int == contentLength as int
    {
      var wb :- header.Marshal();
      var length := |wb| + 1;
      var tmp := LittleEndian16(contentLength);
      var length := length + |tmp|;
      if length != 7 then Failure(PacketLengthMismatch(length))
      else Success(wb + [packetType] + tmp)
    }

    /** (*RCQueryContentLength).Unmarshal */
    function Unmarshal(raw: seq<byte>): (d: Decoded<QueryContentLength>)
      requires Decodable(raw, 7)
      ensures d.err.None? <==> AcceptedHeader(raw[..4])
      ensures d.err.Some? ==> d.err == header.Unmarshal(raw[..4]).err
                              && d.state == this.(header := header.Unmarshal(raw[..4]).state)
      ensures d.err.None? ==> d.state.header == Header(Magic, raw[2], Spacer) && d.state.packetType == raw[4]
                              && d.state.contentLength as int == raw[5] as int + 0x100 * raw[6] as int
    {
      var h := header.Unmarshal(raw[..4]);
      if h.err.Some? then Decoded(this.(header := h.state), h.err)
      else Decoded(QueryContentLength(h.state, raw[4], FromLittleEndian16(raw[5..7])), None)
    }
  }

  /** NewRCQueryContentLength */
  const NewQueryContentLength := QueryContentLength(NewHeader, QueryContentLengthType, 0)

  /** Round trip for every content length 0..65535. */
  lemma {:induction false} QueryContentLengthRoundTrip(p: QueryContentLength, prior: QueryContentLength)
    requires p.header.magicBytes == Magic && p.header.spacer == Spacer
    ensures p.Marshal().Success? && |p.Marshal().value| == 7
    ensures prior.Unmarshal(p.Marshal().value) == Decoded(p, None)
  {
    var raw := p.Marshal().value;
    assert raw[..4] == Magic + [p.header.version, Spacer];
    assert raw[5..7] == LittleEndian16(p.contentLength);
    LittleEndian16RoundTrip(p.contentLength, raw[5..7]);
    HeaderRoundTrip(p.header, prior.header);
  }

  /** Bytes after offset 6 are ignored. */
  lemma QueryContentLengthIgnoresTrailingBytes(p: QueryContentLength, raw: seq<byte>, extra: seq<byte>)
    requires |raw| == 7
    ensures p.Unmarshal(raw + extra) == p.Unmarshal(raw)
  {
    assert (raw + extra)[..4] == raw[..4];
    assert (raw + extra)[5..7] == raw[5..7];
  }

  // ---------------------------------------------------------------- content length response (0x11)

  datatype ContentLengthResponse = ContentLengthResponse(header: Header, packetType: byte, result: byte) {

    /** (*RCContentLengthResponse).Marshal */
    function Marshal(): (r: Result<seq<byte>, Error>)
      ensures r.Success? <==> header.Marshal().Success?
      ensures r.Failure? ==> r.error == header.Marshal().error
      ensures r.Success? ==> |r.value| == 6 && r.value[..4] == header.Marshal().value
                             && r.value[4] == packetType && r.value[5] == result
    {
      var wb :- header.Marshal();
      var length := |wb| + 1 + 1;
      if length != 6 then Failure(PacketLengthTooSmall(length))
      else Success(wb + [packetType, result])
    }

    /** (*RCContentLengthResponse).Unmarshal */
    function Unmarshal(raw: seq<byte>): (d: Decoded<ContentLengthResponse>)
      requires Decodable(raw, 6)
      ensures d.err.None? <==> AcceptedHeader(raw[..4])
      ensures d.err.Some? ==> d.err == header.Unmarshal(raw[..4]).err
                              && d.state == this.(header := header.Unmarshal(raw[..4]).state)
      ensures d.err.None? ==> d.state == ContentLengthResponse(Header(Magic, raw[2], Spacer), raw[4], raw[5])
    {
      var h := header.Unmarshal(raw[..4]);
      if h.err.Some? then Decoded(this.(header := h.state), h.err)
      else Decoded(ContentLengthResponse(h.state, raw[4], raw[5]), None)
    }
  }

  /** NewRCContentLengthResponse */
  const NewContentLengthResponse := ContentLengthResponse(NewHeader, ContentLengthResponseType, 0x00)

  lemma {:induction false} ContentLengthResponseRoundTrip(p: ContentLengthResponse, prior: ContentLengthResponse)
    requires p.header.magicBytes == Magic && p.header.spacer == Spacer
    ensures p.Marshal().Success? && |p.Marshal().value| == 6
    ensures prior.Unmarshal(p.Marshal().value) == Decoded(p, None)
  {
    var raw := p.Marshal().value;
    assert raw[..4] == Magic + [p.header.version, Spacer];
    HeaderRoundTrip(p.header, prior.header);
  }

  /** Bytes after offset 5 are ignored. */
  lemma ContentLengthResponseIgnoresTrailingBytes(p: ContentLengthResponse, raw: seq<byte>, extra: seq<byte>)
    requires |raw| == 6
    ensures p.Unmarshal(raw + extra) == p.Unmarshal(raw)
  {
    assert (raw + extra)[..4] == raw[..4];
  }

  // ---------------------------------------------------------------- query (0x12)

  datatype Query = Query(header: Header, packetType: byte, content: seq<byte>) {

    /** (*RCQuery).Marshal */
    function Marshal(): (r: Result<seq<byte>, Error>)
      ensures r.Success? <==> header.Marshal().Success?
      ensures r.Failure? ==> r.error == header.Marshal().error
      ensures r.Success? ==> |r.value| == 5 + |content| && r.value[..4] == header.Marshal().value
                             && r.value[4] == packetType && r.value[5..] == content
    {
      var wb :- header.Marshal();
      var length := |wb| + 1 + |content|;
      if length != 5 + |content| then Failure(PacketLengthMismatch(length))
      else Success(wb + [packetType] + content)
    }

    /** (*RCQuery).Unmarshal */
    function Unmarshal(raw: seq<byte>): (d: Decoded<Query>)
      requires Decodable(raw, 5)
      ensures d.err.None? <==> AcceptedHeader(raw[..4])
      ensures d.err.Some? ==> d.err == header.Unmarshal(raw[..4]).err
                              && d.state == this.(header := header.Unmarshal(raw[..4]).state)
      ensures d.err.None? ==> d.state == Query(Header(Magic, raw[2], Spacer), raw[4], raw[5..])
    {
      var h := header.Unmarshal(raw[..4]);
      if h.err.Some? then Decoded(this.(header := h.state), h.err)
      else Decoded(Query(h.state, raw[4], raw[5..]), None)
    }
  }

  /** NewRCQuery */
  const NewQuery := Query(NewHeader, QueryType, [])

  lemma {:induction false} QueryRoundTrip(p: Query, prior: Query)
    requires p.header.magicBytes == Magic && p.header.spacer == Spacer
    ensures p.Marshal().Success? && |p.Marshal().value| == 5 + |p.content|
    ensures prior.Unmarshal(p.Marshal().value) == Decoded(p, None)
  {
    var raw := p.Marshal().value;
    assert raw[..4] == Magic + [p.header.version, Spacer];
    HeaderRoundTrip(p.header, prior.header);
  }

  // ---------------------------------------------------------------- query response (0x13)

  datatype QueryResponse = QueryResponse(header: Header, packetType: byte, queryId: uint16) {

    /** (*RCQueryResponse).Marshal as written: the query id is encoded into a scratch
        slice that is never written to the buffer, and the counter is bumped by the
        header's byte count a second time, so the check against 7 can never pass. */
    function Marshal(): (r: Result<seq<byte>, Error>)
      ensures header.Marshal().Failure? ==> r == Failure(header.Marshal().error)
      ensures header.Marshal().Success? ==> r == Failure(PacketLengthTooSmall(9))
    {
      var wb :- header.Marshal();
      var n := |wb|;
      var length := n + 1;
      var tmp := LittleEndian16(queryId);
      var length := length + n;
      if length != 7 then Failure(PacketLengthTooSmall(length))
      else Success(wb + [packetType])
    }

    /** What the length check and the field list of (*RCQueryResponse).Marshal call for:
        header, type byte, then the query id little-endian, 7 bytes in all. */
    function MarshalCorrected(): (r: Result<seq<byte>, Error>)
      ensures r.Success? <==> header.Marshal().Success?
      ensures r.Failure? ==> r.error == header.Marshal().error
      ensures r.Success? ==> |r.value| == 7 && r.value[..4] == header.Marshal().value
                             && r.value[4] == packetType
                             && r.value[5] as int + 0x100 * r.value[6] as int == queryId as int
    {
      var wb :- header.Marshal();
      var tmp := LittleEndian16(queryId);
      var length := |wb| + 1 + |tmp|;
      if length != 7 then Failure(PacketLengthTooSmall(length))
      else Success(wb + [packetType] + tmp)
    }

    /** (*RCQueryResponse).Unmarshal */
    function Unmarshal(raw: seq<byte>): (d: Decoded<QueryResponse>)
      requires Decodable(raw, 7)
      ensures d.err.None? <==> AcceptedHeader(raw[..4])
      ensures d.err.Some? ==> d.err == header.Unmarshal(raw[..4]).err
                              && d.state == this.(header := header.Unmarshal(raw[..4]).state)
      ensures d.err.None? ==> d.state.header == Header(Magic, raw[2], Spacer) && d.state.packetType == raw[4]
                              && d.state.queryId as int == raw[5] as int + 0x100 * raw[6] as int
    {
      var h := header.Unmarshal(raw[..4]);
      if h.err.Some? then Decoded(this.(header := h.state), h.err)
      else Decoded(QueryResponse(h.state, raw[4], FromLittleEndian16(raw[5..7])), None)
    }
  }

  /** NewRCQueryResponse */
  const NewQueryResponse := QueryResponse(NewHeader, QueryResponseType, 0)

  /** The shipped encoder fails on the default packet, which Unmarshal would accept. */
  lemma QueryResponseMarshalNeverSucceeds(p: QueryResponse)
    ensures NewQueryResponse.Marshal() == Failure(PacketLengthTooSmall(9))
    ensures p.Marshal().Success? == false
  {
  }

  lemma {:induction false} QueryResponseRoundTrip(p: QueryResponse, prior: QueryResponse)
    requires p.header.magicBytes == Magic && p.header.spacer == Spacer
    ensures p.MarshalCorrected().Success? && |p.MarshalCorrected().value| == 7
    ensures prior.Unmarshal(p.MarshalCorrected().value) == Decoded(p, None)
  {
    var raw := p.MarshalCorrected().value;
    assert raw[..4] == Magic + [p.header.version, Spacer];
    assert raw[5..7] == LittleEndian16(p.queryId);
    LittleEndian16RoundTrip(p.queryId, raw[5..7]);
    HeaderRoundTrip(p.header, prior.header);
  }

  /** Bytes after offset 6 are ignored. */
  lemma QueryResponseIgnoresTrailingBytes(p: QueryResponse, raw: seq<byte>, extra: seq<byte>)
    requires |raw| == 7
    ensures p.Unmarshal(raw + extra) == p.Unmarshal(raw)
  {
    assert (raw + extra)[..4] == raw[..4];
    assert (raw + extra)[5..7] == raw[5..7];
  }

  // ---------------------------------------------------------------- query result response (0x14)

  datatype QueryResultResponse = QueryResultResponse(header: Header, packetType: byte, queryId: uint16, content: seq<byte>) {

    /** (*RCQueryResultResponse).Marshal as written: the query id never reaches the buffer
        and the header's byte count is added in its place, so the counter is always
        two more than the 7 + len(Content) it is checked against. */
    function Marshal(): (r: Result<seq<byte>, Error>)
      ensures header.Marshal().Failure? ==> r == Failure(header.Marshal().error)
      ensures header.Marshal().Success? ==> r == Failure(PacketLengthTooSmall(9 + |content|))
    {
      var wb :- header.Marshal();
      var n := |wb|;
      var length := n + 1;
      var tmp := LittleEndian16(queryId);
      var length := length + n;
      var length := length + |content|;
      if length != 7 + |content| then Failure(PacketLengthTooSmall(length))
      else Success(wb + [packetType] + content)
    }

    /** What the length check of (*RCQueryResultResponse).Marshal and its Unmarshal call
        for: header, type byte, the query id little-endian, then the content. */
    function MarshalCorrected(): (r: Result<seq<byte>, Error>)
      ensures r.Success? <==> header.Marshal().Success?
      ensures r.Failure? ==> r.error == header.Marshal().error
      ensures r.Success? ==> |r.value| == 7 + |content| && r.value[..4] == header.Marshal().value
                             && r.value[4] == packetType
                             && r.value[5] as int + 0x100 * r.value[6] as int == queryId as int
                             && r.value[7..] == content
    {
      var wb :- header.Marshal();
      var tmp := LittleEndian16(queryId);
      var length := |wb| + 1 + |tmp| + |content|;
      if length != 7 + |content| then Failure(PacketLengthTooSmall(length))
      else Success(wb + [packetType] + tmp + content)
    }

    /** (*RCQueryResultResponse).Unmarshal */
    function Unmarshal(raw: seq<byte>): (d: Decoded<QueryResultResponse>)
      requires Decodable(raw, 7)
      ensures d.err.None? <==> AcceptedHeader(raw[..4])
      ensures d.err.Some? ==> d.err == header.Unmarshal(raw[..4]).err
                              && d.state == this.(header := header.Unmarshal(raw[..4]).state)
      ensures d.err.None? ==> d.state.header == Header(Magic, raw[2], Spacer) && d.state.packetType == raw[4]
                              && d.state.queryId as int == raw[5] as int + 0x100 * raw[6] as int
                              && d.state.content == raw[7..]
    {
      var h := header.Unmarshal(raw[..4]);
      if h.err.Some? then Decoded(this.(header := h.state), h.err)
      else Decoded(QueryResultResponse(h.state, raw[4], FromLittleEndian16(raw[5..7]), raw[7..]), None)
    }
  }

  /** NewRCQueryResultResponse */
  const NewQueryResultResponse := QueryResultResponse(NewHeader, QueryResultResponseType, 0, [])

  /** The shipped encoder fails on every packet whose header encodes, including the
      default one with empty content, which Unmarshal would accept. */
  lemma QueryResultResponseMarshalNeverSucceeds(p: QueryResultResponse)
    ensures NewQueryResultResponse.Marshal() == Failure(PacketLengthTooSmall(9))
    ensures p.Marshal().Success? == false
  {
  }

  lemma {:induction false} QueryResultResponseRoundTrip(p: QueryResultResponse, prior: QueryResultResponse)
    requires p.header.magicBytes == Magic && p.header.spacer == Spacer
    ensures p.MarshalCorrected().Success? && |p.MarshalCorrected().value| == 7 + |p.content|
    ensures prior.Unmarshal(p.MarshalCorrected().value) == Decoded(p, None)
  {
    var raw := p.MarshalCorrected().value;
    assert raw[..4] == Magic + [p.header.version, Spacer];
    assert raw[5..7] == LittleEndian16(p.queryId);
    LittleEndian16RoundTrip(p.queryId, raw[5..7]);
    HeaderRoundTrip(p.header, prior.header);
  }

  // ---------------------------------------------------------------- the RCPacket interface

  /** A value of the RCPacket interface: one of the seven variants. */
  datatype Packet =
    | HandshakePacket(handshake: Handshake)
    | HandshakeResponsePacket(handshakeResponse: HandshakeResponse)
    | QueryContentLengthPacket(queryContentLength: QueryContentLength)
    | ContentLengthResponsePacket(contentLengthResponse: ContentLengthResponse)
    | QueryPacket(query: Query)
    | QueryResponsePacket(queryResponse: QueryResponse)
    | QueryResultResponsePacket(queryResultResponse: QueryResultResponse)
  {
    function FrameHeader(): Header {
      match this
      case HandshakePacket(p) => p.header
      case HandshakeResponsePacket(p) => p.header
      case QueryContentLengthPacket(p) => p.header
      case ContentLengthResponsePacket(p) => p.header
      case QueryPacket(p) => p.header
      case QueryResponsePacket(p) => p.header
      case QueryResultResponsePacket(p) => p.header
    }

    /** RCPacket.Marshal, dispatched to the variant (the two server-side responses use
        their corrected encoders). Every packet encodes exactly when its header does,
        and then starts with the header's four bytes. */
    function Marshal(): (r: Result<seq<byte>, Error>)
      ensures r.Success? <==> FrameHeader().Marshal().Success?
      ensures r.Failure? ==> r.error == FrameHeader().Marshal().error
      ensures r.Success? ==> |r.value| >= 5 && r.value[..4] == FrameHeader().Marshal().value
    {
      match this
      case HandshakePacket(p) => p.Marshal()
      case HandshakeResponsePacket(p) => p.Marshal()
      case QueryContentLengthPacket(p) => p.Marshal()
      case ContentLengthResponsePacket(p) => p.Marshal()
      case QueryPacket(p) => p.Marshal()
      case QueryResponsePacket(p) => p.MarshalCorrected()
      case QueryResultResponsePacket(p) => p.MarshalCorrected()
    }
  }

  // ---------------------------------------------------------------- the structs behind pointers

  /** An RCHeader struct whose fields Unmarshal overwrites. */
  class RCHeader {
    var magicBytes: seq<byte>
    var version: byte
    var spacer: byte

    function Value(): Header
      reads this
    {
      Header(magicBytes, version, spacer)
    }

    /** NewRCHeader */
    constructor ()
      ensures Value() == NewHeader
    {
      magicBytes := Magic;
      version := ProtocolVersion;
      spacer := Spacer;
    }

    /** The zero value of a declared `var header RCHeader`. */
    constructor Zero()
      ensures Value() == Header([], 0, 0)
    {
      magicBytes := [];
      version := 0;
      spacer := 0;
    }

    /** (*RCHeader).Unmarshal */
    method Unmarshal(raw: seq<byte>) returns (err: Option<Error>)
      modifies this
      ensures Value() == old(Value()).Unmarshal(raw).state
      ensures err == old(Value()).Unmarshal(raw).err
    {
      var length := |raw|;
      if length != 4 {
        return Some(HeaderLengthMismatch(length));
      }
      magicBytes := raw[..2];
      if magicBytes != Magic {
        return Some(HeaderMagicBytes(magicBytes));
      }
      version := raw[2];
      spacer := raw[3];
      if spacer != Spacer {
        return Some(HeaderSpacer(spacer));
      }
      return None;
    }
  }

  /** An RCHandshake struct; its embedded header is the object `header`. */
  class RCHandshake {
    const header: RCHeader
    var packetType: byte
    var password: seq<byte>

    function Value(): Handshake
      reads this, header
    {
      Handshake(header.Value(), packetType, password)
    }

    /** NewRCHandshake */
    constructor ()
      ensures Value() == NewHandshake && fresh(header)
    {
      header := new RCHeader();
      packetType := HandshakeType;
      password := [];
    }

    /** (*RCHandshake).Unmarshal */
    method Unmarshal(raw: seq<byte>) returns (err: Option<Error>)
      requires Decodable(raw, 5)
      modifies this, header
      ensures Value() == old(Value()).Unmarshal(raw).state
      ensures err == old(Value()).Unmarshal(raw).err
    {
      err := header.Unmarshal(raw[..4]);
      if err.Some? {
        return;
      }
      packetType := raw[4];
      password := raw[5..];
    }
  }

  /** An RCHandshakeResponse struct. */
  class RCHandshakeResponse {
    const header: RCHeader
    var packetType: byte
    var result: byte

    function Value(): HandshakeResponse
      reads this, header
    {
      HandshakeResponse(header.Value(), packetType, result)
    }

    /** NewRCHandshakeResponse */
    constructor ()
      ensures Value() == NewHandshakeResponse && fresh(header)
    {
      header := new RCHeader();
      packetType := HandshakeResponseType;
      result := 0x00;
    }

    /** (*RCHandshakeResponse).Unmarshal */
    method Unmarshal(raw: seq<byte>) returns (err: Option<Error>)
      requires Decodable(raw, 6)
      modifies this, header
      ensures Value() == old(Value()).Unmarshal(raw).state
      ensures err == old(Value()).Unmarshal(raw).err
    {
      err := header.Unmarshal(raw[..4]);
      if err.Some? {
        return;
      }
      packetType := raw[4];
      result := raw[5];
    }
  }

  /** An RCQueryContentLength struct. */
  class RCQueryContentLength {
    const header: RCHeader
    var packetType: byte
    var contentLength: uint16

    function Value(): QueryContentLength
      reads this, header
    {
      QueryContentLength(header.Value(), packetType, contentLength)
    }

    /** NewRCQueryContentLength */
    constructor ()
      ensures Value() == NewQueryContentLength && fresh(header)
    {
      header := new RCHeader();
      packetType := QueryContentLengthType;
      contentLength := 0;
    }

    /** (*RCQueryContentLength).Unmarshal */
    method Unmarshal(raw: seq<byte>) returns (err: Option<Error>)
      requires Decodable(raw, 7)
      modifies this, header
      ensures Value() == old(Value()).Unmarshal(raw).state
      ensures err == old(Value()).Unmarshal(raw).err
    {
      err := header.Unmarshal(raw[..4]);
      if err.Some? {
        return;
      }
      packetType := raw[4];
      contentLength := FromLittleEndian16(raw[5..7]);
    }
  }

  /** An RCContentLengthResponse struct. */
  class RCContentLengthResponse {
    const header: RCHeader
    var packetType: byte
    var result: byte

    function Value(): ContentLengthResponse
      reads this, header
    {
      ContentLengthResponse(header.Value(), packetType, result)
    }

    /** NewRCContentLengthResponse */
    constructor ()
      ensures Value() == NewContentLengthResponse && fresh(header)
    {
      header := new RCHeader();
      packetType := ContentLengthResponseType;
      result := 0x00;
    }

    /** (*RCContentLengthResponse).Unmarshal */
    method Unmarshal(raw: seq<byte>) returns (err: Option<Error>)
      requires Decodable(raw, 6)
      modifies this, header
      ensures Value() == old(Value()).Unmarshal(raw).state
      ensures err == old(Value()).Unmarshal(raw).err
    {
      err := header.Unmarshal(raw[..4]);
      if err.Some? {
        return;
      }
      packetType := raw[4];
      result := raw[5];
    }
  }

  /** An RCQuery struct. */
  class RCQuery {
    const header: RCHeader
    var packetType: byte
    var content: seq<byte>

    function Value(): Query
      reads this, header
    {
      Query(header.Value(), packetType, content)
    }

    /** NewRCQuery */
    constructor ()
      ensures Value() == NewQuery && fresh(header)
    {
      header := new RCHeader();
      packetType := QueryType;
      content := [];
    }

    /** (*RCQuery).Unmarshal */
    method Unmarshal(raw: seq<byte>) returns (err: Option<Error>)
      requires Decodable(raw, 5)
      modifies this, header
      ensures Value() == old(Value()).Unmarshal(raw).state
      ensures err == old(Value()).Unmarshal(raw).err
    {
      err := header.Unmarshal(raw[..4]);
      if err.Some? {
        return;
      }
      packetType := raw[4];
      content := raw[5..];
    }
  }

  /** An RCQueryResponse struct. */
  class RCQueryResponse {
    const header: RCHeader
    var packetType: byte
    var queryId: uint16

    function Value(): QueryResponse
      reads this, header
    {
      QueryResponse(header.Value(), packetType, queryId)
    }

    /** NewRCQueryResponse */
    constructor ()
      ensures Value() == NewQueryResponse && fresh(header)
    {
      header := new RCHeader();
      packetType := QueryResponseType;
      queryId := 0;
    }

    /** (*RCQueryResponse).Unmarshal */
    method Unmarshal(raw: seq<byte>) returns (err: Option<Error>)
      requires Decodable(raw, 7)
      modifies this, header
      ensures Value() == old(Value()).Unmarshal(raw).state
      ensures err == old(Value()).Unmarshal(raw).err
    {
      err := header.Unmarshal(raw[..4]);
      if err.Some? {
        return;
      }
      packetType := raw[4];
      queryId := FromLittleEndian16(raw[5..7]);
    }
  }

  /** An RCQueryResultResponse struct. */
  class RCQueryResultResponse {
    const header: RCHeader
    var packetType: byte
    var queryId: uint16
    var content: seq<byte>

    function Value(): QueryResultResponse
      reads this, header
    {
      QueryResultResponse(header.Value(), packetType, queryId, content)
    }

    /** NewRCQueryResultResponse */
    constructor ()
      ensures Value() == NewQueryResultResponse && fresh(header)
    {
      header := new RCHeader();
      packetType := QueryResultResponseType;
      queryId := 0;
      content := [];
    }

    /** (*RCQueryResultResponse).Unmarshal */
    method Unmarshal(raw: seq<byte>) returns (err: Option<Error>)
      requires Decodable(raw, 7)
      modifies this, header
      ensures Value() == old(Value()).Unmarshal(raw).state
      ensures err == old(Value()).Unmarshal(raw).err
    {
      err := header.Unmarshal(raw[..4]);
      if err.Some? {
        return;
      }
      packetType := raw[4];
      queryId := FromLittleEndian16(raw[5..7]);
      content := raw[7..];
    }
  }
}
