# go-remotecall in Dafny

This project models the core of go-remotecall, a small TCP client for a binary
"remote call" (RC) protocol:

- the RC frame codec of package `remotecall` (`remotecall.dfy`). Every frame has a
  4-byte header (`"RC"`, a version byte and the spacer `0xFF`), then a packet-type
  byte, then the fields of one of seven variants: client handshake (0x00), handshake
  response (0x01), query content length (0x10), content length response (0x11),
  query (0x12), query response (0x13) and query result response (0x14).
  - `Marshal` only reads the packet's fields, so it is a function on a value datatype
    per variant.
  - `Unmarshal` overwrites the receiver's fields in place and can stop half-way. It is
    a class per struct (`RCHeader`, `RCHandshake`, ...) whose method assigns fields in
    the source's order. The method is proved equal to a function on the value datatype
    that gives the receiver's fields and the error after the call.
  - The `RCPacket` interface is the sum type `Packet`.
- the TCP client of package `tcp` (`tcp.dfy`). The class `TCPClient` has:
  - `Listen`, a labelled reconnect loop that resolves, dials, queues a login
    handshake and reads. It is proved equal to the transition functions
    `ListenFrom`/`ReadFrom`.
  - `ProcessPendingPackets`, the writer that drains the `Out` queue in order. It is
    proved equal to the function `Drain`.
  - The `Out` and `Err` channels are the fields `out` and `errs`. The bytes written to
    the connection are the field `wire`.
  - Every network call takes its outcome from a sequence given to the method. A method
    stops with `Blocked` when the outcome of its next call is not given.
- the packet-sending branches of the interactive console in `main.go`
  (`console.dfy`): `ql`, `qc` and `qb`. `qb` sends a file as one content-length
  packet followed by 507-byte query chunks. It is specified by `Chunks`/`ChunkedSend`
  and proved end to end through the writer.

Machine integers are newtypes (`byte`, `uint16`). Go's `uint16(i)` truncation is
`Types.ToUint16`. Go strings used as payloads are byte sequences.

Three behaviours of the code that a reader of the protocol might expect otherwise, modelled as the code has them:
- The console never waits for a content-length response before sending chunks.
- Listen's dispatch of inbound packets is unreachable. The header decoder accepts
  exactly 4 bytes, while the dispatch needs at least 5.
- The two server-side encoders always fail. See "## Findings".

## Model

| member | source | states |
|---|---|---|
| Types.ToUint16 | main.go:75 | Go's `uint16(i)`: the result is congruent to i modulo 2^16, and equals i when i is in 0..65535 |
| RemoteCall.LittleEndian16 | remotecall/remotecall.go:177-178 | PutUint16: two bytes, low byte first, whose little-endian value is x |
| RemoteCall.FromLittleEndian16 | remotecall/remotecall.go:162 | Uint16 is the inverse of PutUint16: re-encoding the result gives the two bytes back, and its value is low + 256 * high |
| RemoteCall.LittleEndian16RoundTrip | remotecall/remotecall.go:162-178 | decoding an encoded uint16 gives it back, and encoding a decoded pair of bytes gives the pair back |
| RemoteCall.Header.Marshal | remotecall/remotecall.go:41-54 | succeeds iff the magic bytes are 2 long; the result is magic, version, spacer; otherwise the length mismatch reports len(magic)+2 |
| RemoteCall.Header.Unmarshal | remotecall/remotecall.go:24-39 | succeeds iff raw is 4 bytes "RC"?FF; a wrong length changes nothing; a wrong magic changes only the magic bytes; otherwise version and spacer are taken from raw even when the spacer is refused |
| RemoteCall.NewHeaderBytes | remotecall/remotecall.go:20-22 | the default header encodes to 52 43 01 FF |
| RemoteCall.HeaderRoundTrip | remotecall/remotecall.go:24-54 | every header with the right magic and spacer decodes back to itself, over any prior receiver |
| RemoteCall.HeaderVersionUnchecked | remotecall/remotecall.go:33-38 | every version byte is accepted on decoding |
| RemoteCall.Handshake.Marshal | remotecall/remotecall.go:80-97 | succeeds iff the header encodes; the result is header, type byte, then the password |
| RemoteCall.Handshake.Unmarshal | remotecall/remotecall.go:70-78 | succeeds iff the first 4 bytes are an accepted header; on a header error only the header changes; on success the type is raw[4] and the password raw[5:] |
| RemoteCall.HandshakeRoundTrip | remotecall/remotecall.go:70-97 | every handshake with a valid header encodes to 5+len(password) bytes and decodes back to itself |
| RemoteCall.HandshakeResponse.Marshal | remotecall/remotecall.go:123-140 | succeeds iff the header encodes; the result is 6 bytes: header, type byte, result byte |
| RemoteCall.HandshakeResponse.Unmarshal | remotecall/remotecall.go:113-121 | succeeds iff the header is accepted; on a header error only the header changes; on success type and result are raw[4] and raw[5] |
| RemoteCall.HandshakeResponseRoundTrip | remotecall/remotecall.go:113-140 | every handshake response with a valid header encodes to 6 bytes and decodes back to itself |
| RemoteCall.HandshakeResponseIgnoresTrailingBytes | remotecall/remotecall.go:113-121 | bytes after offset 5 do not change the result of decoding |
| RemoteCall.QueryContentLength.Marshal | remotecall/remotecall.go:166-185 | succeeds iff the header encodes; the result is 7 bytes: header, type byte, content length little-endian |
| RemoteCall.QueryContentLength.Unmarshal | remotecall/remotecall.go:156-164 | succeeds iff the header is accepted; on a header error only the header changes; on success the content length is the little-endian value of raw[5:7] |
| RemoteCall.QueryContentLengthRoundTrip | remotecall/remotecall.go:156-185 | every content length 0..65535 with a valid header survives encode then decode |
| RemoteCall.QueryContentLengthIgnoresTrailingBytes | remotecall/remotecall.go:156-164 | bytes after offset 6 do not change the result of decoding |
| RemoteCall.ContentLengthResponse.Marshal | remotecall/remotecall.go:211-228 | succeeds iff the header encodes; the result is 6 bytes: header, type byte, result byte |
| RemoteCall.ContentLengthResponse.Unmarshal | remotecall/remotecall.go:201-209 | succeeds iff the header is accepted; on a header error only the header changes; on success type and result are raw[4] and raw[5] |
| RemoteCall.ContentLengthResponseRoundTrip | remotecall/remotecall.go:201-228 | every content length response with a valid header encodes to 6 bytes and decodes back to itself |
| RemoteCall.ContentLengthResponseIgnoresTrailingBytes | remotecall/remotecall.go:201-209 | bytes after offset 5 do not change the result of decoding |
| RemoteCall.Query.Marshal | remotecall/remotecall.go:254-271 | succeeds iff the header encodes; the result is header, type byte, then the content |
| RemoteCall.Query.Unmarshal | remotecall/remotecall.go:244-252 | succeeds iff the header is accepted; on a header error only the header changes; on success the content is raw[5:] |
| RemoteCall.QueryRoundTrip | remotecall/remotecall.go:244-271 | every query with a valid header encodes to 5+len(content) bytes and decodes back to itself |
| RemoteCall.QueryResponse.Marshal | remotecall/remotecall.go:297-315 | as written: fails with the header's error, or else always with "length too small (9)" |
| RemoteCall.QueryResponse.MarshalCorrected | remotecall/remotecall.go:297-315 | succeeds iff the header encodes; the result is 7 bytes: header, type byte, query id little-endian |
| RemoteCall.QueryResponse.Unmarshal | remotecall/remotecall.go:287-295 | succeeds iff the header is accepted; on a header error only the header changes; on success the query id is the little-endian value of raw[5:7] |
| RemoteCall.QueryResponseMarshalNeverSucceeds | remotecall/remotecall.go:297-315 | the encoder as written fails on every packet, including the default one |
| RemoteCall.QueryResponseRoundTrip | remotecall/remotecall.go:287-315 | the corrected encoding of every query response with a valid header decodes back to it |
| RemoteCall.QueryResponseIgnoresTrailingBytes | remotecall/remotecall.go:287-295 | bytes after offset 6 do not change the result of decoding |
| RemoteCall.QueryResultResponse.Marshal | remotecall/remotecall.go:344-364 | as written: fails with the header's error, or else always with "length too small (9+len(content))" |
| RemoteCall.QueryResultResponse.MarshalCorrected | remotecall/remotecall.go:344-364 | succeeds iff the header encodes; the result is header, type byte, query id little-endian, then the content |
| RemoteCall.QueryResultResponse.Unmarshal | remotecall/remotecall.go:333-342 | succeeds iff the header is accepted; on a header error only the header changes; on success the query id is raw[5:7] little-endian and the content raw[7:] |
| RemoteCall.QueryResultResponseMarshalNeverSucceeds | remotecall/remotecall.go:344-364 | the encoder as written fails on every packet, including the default one |
| RemoteCall.QueryResultResponseRoundTrip | remotecall/remotecall.go:333-364 | the corrected encoding of every query result response with a valid header decodes back to it |
| RemoteCall.Packet.Marshal | remotecall/remotecall.go:9-12 | every RCPacket encodes iff its header does, to at least 5 bytes that start with the header's encoding |
| RemoteCall.RCHeader.constructor | remotecall/remotecall.go:20-22 | NewRCHeader gives magic "RC", version 0x01, spacer 0xFF |
| RemoteCall.RCHeader.Zero | tcp/tcp.go:38 | a declared RCHeader starts with empty magic and zero version and spacer |
| RemoteCall.RCHeader.Unmarshal | remotecall/remotecall.go:24-39 | the in-place decoder leaves the fields and returns the error given by Header.Unmarshal |
| RemoteCall.RCHandshake.constructor | remotecall/remotecall.go:62-68 | NewRCHandshake (and its alias NewRCClientHandshake): default header, type 0x00, empty password |
| RemoteCall.RCHandshake.Unmarshal | remotecall/remotecall.go:70-78 | the in-place decoder agrees with Handshake.Unmarshal |
| RemoteCall.RCHandshakeResponse.constructor | remotecall/remotecall.go:105-111 | NewRCHandshakeResponse (and its alias NewRCServerHandshake): default header, type 0x01, result 0 |
| RemoteCall.RCHandshakeResponse.Unmarshal | remotecall/remotecall.go:113-121 | the in-place decoder agrees with HandshakeResponse.Unmarshal |
| RemoteCall.RCQueryContentLength.constructor | remotecall/remotecall.go:148-154 | NewRCQueryContentLength: default header, type 0x10, length 0 |
| RemoteCall.RCQueryContentLength.Unmarshal | remotecall/remotecall.go:156-164 | the in-place decoder agrees with QueryContentLength.Unmarshal |
| RemoteCall.RCContentLengthResponse.constructor | remotecall/remotecall.go:193-199 | NewRCContentLengthResponse: default header, type 0x11, result 0 |
| RemoteCall.RCContentLengthResponse.Unmarshal | remotecall/remotecall.go:201-209 | the in-place decoder agrees with ContentLengthResponse.Unmarshal |
| RemoteCall.RCQuery.constructor | remotecall/remotecall.go:236-242 | NewRCQuery: default header, type 0x12, empty content |
| RemoteCall.RCQuery.Unmarshal | remotecall/remotecall.go:244-252 | the in-place decoder agrees with Query.Unmarshal |
| RemoteCall.RCQueryResponse.constructor | remotecall/remotecall.go:279-285 | NewRCQueryResponse: default header, type 0x13, query id 0 |
| RemoteCall.RCQueryResponse.Unmarshal | remotecall/remotecall.go:287-295 | the in-place decoder agrees with QueryResponse.Unmarshal |
| RemoteCall.RCQueryResultResponse.constructor | remotecall/remotecall.go:324-331 | NewRCQueryResultResponse: default header, type 0x14, query id 0, empty content |
| RemoteCall.RCQueryResultResponse.Unmarshal | remotecall/remotecall.go:333-342 | the in-place decoder agrees with QueryResultResponse.Unmarshal |
| Tcp.TCPClient.constructor | tcp/tcp.go:27-34 | NewTCPClient: offline, no address, no connection, empty queue and channels |
| Tcp.LoginPacket | tcp/tcp.go:64-65 | reference function, no ensures: the client handshake carrying the configured password; Tcp.DialSuccessLogsIn and Tcp.ListenSendsOnlyLoginsAndIoErrors state where and only where it is queued |
| Tcp.ListenFrom | tcp/tcp.go:40-67 | reference function, no ensures: one pass of the `Reconnect` loop (set online, resolve, dial, queue the login) and what follows, over the given outcomes; its properties are Tcp.ListenLeavesOnline, Tcp.ListenSendsOnlyLoginsAndIoErrors, Tcp.ListenReturnsOnlyOnResolveFailure, Tcp.ResolveFailureIsFinal, Tcp.DialFailureRetries, Tcp.DialSuccessLogsIn and Tcp.DialFailuresThenSuccess |
| Tcp.ReadFrom | tcp/tcp.go:69-107 | reference function, no ensures: the read loop (a read error or a lost online flag reports, closes and reconnects; a frame changes nothing); its properties are Tcp.ReadLeavesOnline, Tcp.ReadSendsOnlyLoginsAndIoErrors, Tcp.ReadReturnsOnlyOnResolveFailure, Tcp.ReadFailureReconnects and Tcp.ReadFrameIsInert |
| Tcp.TCPClient.Listen | tcp/tcp.go:36-110 | the new state and exit are those of ListenFrom over the given resolve, dial and read outcomes |
| Tcp.DispatchGuardNeverHolds | tcp/tcp.go:83-84 | no frame is both accepted by the 4-byte header decoder and 5 bytes or longer |
| Tcp.ListenLeavesOnline | tcp/tcp.go:42-44 | Listen always leaves `online` set |
| Tcp.ReadLeavesOnline | tcp/tcp.go:69-81 | the read loop started online leaves `online` set |
| Tcp.ListenSendsOnlyLoginsAndIoErrors | tcp/tcp.go:36-110 | Listen only queues login handshakes with the configured password, only reports network errors, and writes nothing |
| Tcp.ReadSendsOnlyLoginsAndIoErrors | tcp/tcp.go:69-107 | the same for the read loop |
| Tcp.ListenReturnsOnlyOnResolveFailure | tcp/tcp.go:47-51 | when every resolution succeeds, Listen never returns |
| Tcp.ReadReturnsOnlyOnResolveFailure | tcp/tcp.go:69-107 | the same for the read loop |
| Tcp.ResolveFailureIsFinal | tcp/tcp.go:47-51 | a failed resolution is reported once and Listen returns |
| Tcp.DialFailureRetries | tcp/tcp.go:54-59 | a failed dial is reported, leaves no connection, and restarts the loop |
| Tcp.DialSuccessLogsIn | tcp/tcp.go:54-66 | a successful dial queues exactly one login handshake, then reads |
| Tcp.ReadFailureReconnects | tcp/tcp.go:70-81 | a read error is reported, the connection is closed, and the loop restarts |
| Tcp.ReadFrameIsInert | tcp/tcp.go:82-106 | a frame read while online changes nothing |
| Tcp.DialFailuresThenSuccess | tcp/tcp.go:47-66 | N failed dials then a good one give N reports in order and a single login on the new connection |
| Tcp.Dispatch | tcp/tcp.go:84-104 | the dispatch if it were reached, for every frame of 5 or more bytes: type 0x00 decoded as a handshake response whose result is byte 5, or for a 5-byte frame the leftover buffer byte; result 0 sets online and reports "logged in"; 1 and 2 report and return; anything else, and any other type, does nothing |
| Tcp.Drain | tcp/tcp.go:112-128 | the writer never touches online, address or connection; the queue only loses its head; reports and wire only grow (what exactly they gain is Tcp.DrainInQueueOrder) |
| Tcp.DrainIsFifo | tcp/tcp.go:112-128 | with every write succeeding, the queue empties, the encodings go on the wire in queue order, and the encoding errors are reported in queue order |
| Tcp.DrainSkipsUnencodable | tcp/tcp.go:117-126 | a packet that does not encode is reported and skipped, and the rest still drains in order |
| Tcp.DrainWritesEncodable | tcp/tcp.go:117-123 | a packet that encodes is written, and the rest drains in order |
| Tcp.DrainWriteFailure | tcp/tcp.go:120-123 | a failed write is reported as a network error, its packet is dropped, and the queue drains on |
| Tcp.DrainInQueueOrder | tcp/tcp.go:112-128 | for any write outcomes, one per packet that encodes: the queue empties, the wire gets the encodings whose write succeeded in queue order, the codec errors reported are those of the unencodable packets in queue order, the network errors reported are those of the failed writes in queue order, and nothing else is reported |
| Tcp.DrainInQueueOrderSkip | tcp/tcp.go:117-126 | the same when the head of the queue does not encode: it is reported as a codec error and skipped |
| Tcp.DrainInQueueOrderWrite | tcp/tcp.go:117-123 | the same when the head encodes and its write succeeds or fails |
| Tcp.DrainInQueueOrderFailedWrite | tcp/tcp.go:120-123 | the same when the head encodes and its write fails: the write error is reported and the frame is not on the wire |
| Tcp.TCPClient.ProcessPendingPackets | tcp/tcp.go:112-128 | the new state is Drain of the old one over the given write outcomes |
| Console.Chunks | main.go:106-119 | reference function, no ensures: the content cut into consecutive 507-byte pieces, the last holding the rest; its properties are Console.ChunksCount, Console.ChunksConcat, Console.ChunkAt and Console.ChunkSizes |
| Console.QueryPackets | main.go:107-125 | one Query packet per chunk, as many packets as chunks; Console.ChunkedSendShape states that packet k carries chunk k |
| Console.ChunkedSend | main.go:96-126 | reference function, no ensures: what `qb` queues, the content length then the query chunks; its properties are Console.ChunkedSendShape and Console.WireCarriesContent, and Console.Qb is proved to queue exactly it |
| Console.CeilDiv | main.go:97-100 | ceil(n/d): the least q with q*d >= n |
| Console.ChunksCount | main.go:97-107 | there are ceil(len/507) chunks |
| Console.ChunksConcat | main.go:107-119 | the chunks concatenated in order give the content back |
| Console.ChunkAt | main.go:110-117 | chunk k is content[k*507:(k+1)*507], except the last, which is content[k*507:] |
| Console.ChunkSizes | main.go:110-117 | every chunk but the last has 507 bytes; the last has 1 to 507 |
| Console.ChunkedSendShape | main.go:96-125 | `qb` queues one content length equal to len mod 2^16, then one query per chunk in order; an empty file queues only a zero length |
| Console.TwelveHundredBytes | main.go:96-125 | a 1200-byte file is sent as chunks of 507, 507 and 186 bytes |
| Console.QueryFramesCarryChunks | main.go:107-125 | every query frame encodes, with type byte 0x12, and the payloads of the frames concatenate to the chunks |
| Console.WireCarriesContent | main.go:100-125 | after the writer drains `qb`'s packets, the wire holds the length frame and then the chunk frames, whose payloads concatenate to the file content |
| Console.Ql | main.go:67-78 | with two fields: a parse error is reported, or one content length (truncated to 16 bits) is queued; otherwise nothing changes |
| Console.Qc | main.go:79-85 | with two fields, one query carrying the second field is queued; otherwise nothing changes |
| Console.Qb | main.go:86-127 | with two fields: a file error is reported and the console stops, or ChunkedSend of the content is queued; otherwise nothing changes |

## Left out

- Sockets, read deadlines and the 15-second sleep after a failed dial: the network is replaced by outcome sequences given to the methods, and time is not modelled.
- Goroutines, the unbuffered channels and the mutex around `online`: the channels are sequences, and each method runs alone.
- The blocking of the source's endless loops: when no outcome is given for the next network call, `Listen` returns `Blocked` and `ProcessPendingPackets` stops and leaves the packet at the head of the queue.
- A write on the nil connection before the first dial: the writer's outcome sequence decides every write.
- The JSON config file, command-line flags, reading stdin, the line-prefix tests and `strings.Fields`: the console branches take the split fields.
- `strconv.Atoi` and `ioutil.ReadFile`: their results are parameters of `Ql` and `Qb`.
- The `login` branch of the console: its body is commented out in the source.
- Logging, colours and error message texts: an error keeps only its kind and the number or bytes the message prints.
- `math.Ceil` on floats: `CeilDiv` is exact integer division, which agrees for every file length.
- Go slice aliasing: `RCHeader.Unmarshal` keeps a slice of the read buffer as its magic bytes, and the model copies the values.
- Packets on the `Out` queue are values, not shared pointers.
- Decoding input shorter than the variant's fixed part: Go slices up to the capacity, so the source either panics or reads leftover bytes past the end (as with `buf[:n]` at tcp/tcp.go:90). The `Unmarshal` members require `Decodable` instead; `Tcp.Dispatch` takes the one leftover byte a 5-byte frame can reach as a parameter.
- `NewRCClientHandshake` and `NewRCServerHandshake` are not in these files: they are modelled as `NewRCHandshake` and `NewRCHandshakeResponse`.
- Tcp.TCPClient.Listen: the header decode of each frame is modelled, but the dispatch after it is unreachable (`Tcp.DispatchGuardNeverHolds`), so it is stated separately as `Tcp.Dispatch`.
- RemoteCall.Packet.Marshal: uses the corrected encoders for the two server-side responses, which the client never queues.

## Findings

| source | as written | input that shows it | evidently intended | confidence | as-written member | corrected member |
|---|---|---|---|---|---|---|
| remotecall/remotecall.go:308-313 | the query id goes into a scratch slice that is never written, and the header's byte count is added a second time, so the counter is 9 and the check against 7 always fails | `NewRCQueryResponse().Marshal()` fails with "length too small (9)" | write the two little-endian query-id bytes and count them, giving a 7-byte frame that Unmarshal decodes back | not executed | RemoteCall.QueryResponseMarshalNeverSucceeds | RemoteCall.QueryResponseRoundTrip |
| remotecall/remotecall.go:355-361 | the same for the query result response: the counter is 9 + len(Content), checked against 7 + len(Content) | `NewRCQueryResultResponse().Marshal()` fails with "length too small (9)" | write the query id bytes, giving header, type, id, content, which Unmarshal decodes back | not executed | RemoteCall.QueryResultResponseMarshalNeverSucceeds | RemoteCall.QueryResultResponseRoundTrip |
