/** The TCP client of package `tcp`: `Listen`, the reconnect loop that logs in and reads
    inbound frames, and `ProcessPendingPackets`, the writer that drains the `Out` queue.

    The network is not modelled: every call into it (address resolution, dial, read,
    write) takes its outcome from a sequence given to the method, and a method stops
    with `Blocked` when the outcome of its next call is not given. The `Out` and `Err`
    channels are the fields `out` (packets sent and not yet taken by the writer) and
    `errs` (every report sent, in order); `wire` holds the byte strings written to the
    connection, in order. */
module Tcp {
  import opened Types
  import opened RemoteCall

  /** Config: the server's "host:port" and the password sent on login. */
  datatype Config = Config(server: string, rconpw: seq<byte>)

  /** A resolved *net.TCPAddr and a dialled *net.TCPConn, by identity. */
  datatype Addr = Addr(id: nat)
  datatype Conn = Conn(id: nat)

  /** An error returned by the network or the file system. */
  datatype IoError = IoError(code: nat)

  /** One `con.Read(buf[:])` into the 4096-byte buffer: an error, or the bytes buf[:n]. */
  datatype ReadOutcome = ReadFailed(error: IoError) | ReadFrame(frame: seq<byte>)

  /** An error sent on the Err channel. */
  datatype Report =
    | Io(ioError: IoError)
    | Codec(codecError: Error)
    | Parse(field: seq<byte>)  // strconv.Atoi refused the console's argument
    | NotOnlineAnymore
    | LoggedIn
    | InvalidPassword
    | WrongVersion

  /** How a method of the model ended: the source's method returned, or the model has no
      outcome for the next network call (the source would still be running). */
  datatype Exit = Returned | Blocked

  /** The fields of a TCPClient that the methods change. */
  datatype Session = Session(
    online: bool,
    server: Option<Addr>,
    con: Option<Conn>,
    closed: seq<Conn>,
    out: seq<Packet>,
    errs: seq<Report>,
    wire: seq<seq<byte>>)

  /** The client handshake carrying the configured password (tcp.go:64-65). */
  function LoginPacket(password: seq<byte>): Packet {
    HandshakePacket(NewHandshake.(password := password))
  }

  // ---------------------------------------------------------------- Listen, as a transition system

  /** The state and exit of Listen run from the top of its `Reconnect` loop in state `s`,
      given the outcomes of the resolves, dials and reads still to come. */
  function ListenFrom(cfg: Config, s: Session, resolves: seq<Result<Addr, IoError>>,
                      dials: seq<Result<Conn, IoError>>, inbound: seq<ReadOutcome>): (Session, Exit)
    decreases |resolves| + |inbound|
  {
    var s := s.(online := true);
    if |resolves| == 0 then (s, Blocked)
    else if resolves[0].Failure? then (s.(errs := s.errs + [Io(resolves[0].error)]), Returned)
    else
      var s := s.(server := Some(resolves[0].value));
      if |dials| == 0 then (s, Blocked)
      else if dials[0].Failure? then
        ListenFrom(cfg, s.(con := None, errs := s.errs + [Io(dials[0].error)]), resolves[1..], dials[1..], inbound)
      else
        ReadFrom(cfg, s.(con := Some(dials[0].value), out := s.out + [LoginPacket(cfg.rconpw)]),
                 resolves[1..], dials[1..], inbound)
  }

  /** The state and exit of Listen run from the top of its read loop. A frame read while
      online changes nothing: the dispatch guard cannot hold (DispatchGuardNeverHolds). */
  function ReadFrom(cfg: Config, s: Session, resolves: seq<Result<Addr, IoError>>,
                    dials: seq<Result<Conn, IoError>>, inbound: seq<ReadOutcome>): (Session, Exit)
    requires s.con.Some?
    decreases |resolves| + |inbound|
  {
    if |inbound| == 0 then (s, Blocked)
    else if inbound[0].ReadFailed? || !s.online then
      var report := if !s.online then NotOnlineAnymore else Io(inbound[0].error);
      ListenFrom(cfg, s.(errs := s.errs + [report], closed := s.closed + [s.con.value]),
                 resolves, dials, inbound[1..])
    else
      ReadFrom(cfg, s, resolves, dials, inbound[1..])
  }

  /** `header.Unmarshal(buf[:n])` succeeds only for n == 4, while the dispatch needs
      n >= 5: no inbound frame is ever dispatched. */
  lemma DispatchGuardNeverHolds(h: Header, frame: seq<byte>)
    ensures !(h.Unmarshal(frame).err.None? && |frame| >= 5)
  {
  }

  /** Every pass through the Reconnect loop sets `online`, and nothing clears it. */
  lemma {:induction false} ListenLeavesOnline(cfg: Config, s: Session, resolves: seq<Result<Addr, IoError>>,
                                              dials: seq<Result<Conn, IoError>>, inbound: seq<ReadOutcome>)
    ensures ListenFrom(cfg, s, resolves, dials, inbound).0.online
    decreases |resolves| + |inbound|, 1
  {
    var s1 := s.(online := true);
    if |resolves| > 0 && resolves[0].Success? && |dials| > 0 {
      var s2 := s1.(server := Some(resolves[0].value));
      if dials[0].Failure? {
        ListenLeavesOnline(cfg, s2.(con := None, errs := s2.errs + [Io(dials[0].error)]), resolves[1..], dials[1..], inbound);
      } else {
        ReadLeavesOnline(cfg, s2.(con := Some(dials[0].value), out := s2.out + [LoginPacket(cfg.rconpw)]),
                         resolves[1..], dials[1..], inbound);
      }
    }
  }

  lemma {:induction false} ReadLeavesOnline(cfg: Config, s: Session, resolves: seq<Result<Addr, IoError>>,
                                            dials: seq<Result<Conn, IoError>>, inbound: seq<ReadOutcome>)
    requires s.con.Some? && s.online
    ensures ReadFrom(cfg, s, resolves, dials, inbound).0.online
    decreases |resolves| + |inbound|, 0
  {
    if |inbound| > 0 {
      if inbound[0].ReadFailed? {
        ListenLeavesOnline(cfg, s.(errs := s.errs + [Io(inbound[0].error)], closed := s.closed + [s.con.value]),
                           resolves, dials, inbound[1..]);
      } else {
        ReadLeavesOnline(cfg, s, resolves, dials, inbound[1..]);
      }
    }
  }

  /** What Listen adds to the Out queue are login handshakes carrying the configured
      password, and what it adds to the Err channel are network errors only: no "logged
      in", "invalid password", "wrong version" or "not online anymore" is ever sent.
      Nothing is written to the wire. */
  ghost predicate OnlyLoginsAndIoErrors(cfg: Config, s: Session, r: Session) {
    && s.out <= r.out
    && (forall k :: |s.out| <= k < |r.out| ==> r.out[k] == LoginPacket(cfg.rconpw))
    && s.errs <= r.errs
    && (forall k :: |s.errs| <= k < |r.errs| ==> r.errs[k].Io?)
    && r.wire == s.wire
  }

  lemma {:induction false} ListenSendsOnlyLoginsAndIoErrors(cfg: Config, s: Session, resolves: seq<Result<Addr, IoError>>,
                                                            dials: seq<Result<Conn, IoError>>, inbound: seq<ReadOutcome>)
    ensures OnlyLoginsAndIoErrors(cfg, s, ListenFrom(cfg, s, resolves, dials, inbound).0)
    decreases |resolves| + |inbound|, 1
  {
    var s1 := s.(online := true);
    if |resolves| > 0 && resolves[0].Success? && |dials| > 0 {
      var s2 := s1.(server := Some(resolves[0].value));
      if dials[0].Failure? {
        var s3 := s2.(con := None, errs := s2.errs + [Io(dials[0].error)]);
        ListenSendsOnlyLoginsAndIoErrors(cfg, s3, resolves[1..], dials[1..], inbound);
      } else {
        var s3 := s2.(con := Some(dials[0].value), out := s2.out + [LoginPacket(cfg.rconpw)]);
        ReadSendsOnlyLoginsAndIoErrors(cfg, s3, resolves[1..], dials[1..], inbound);
      }
    }
  }

  lemma {:induction false} ReadSendsOnlyLoginsAndIoErrors(cfg: Config, s: Session, resolves: seq<Result<Addr, IoError>>,
                                                          dials: seq<Result<Conn, IoError>>, inbound: seq<ReadOutcome>)
    requires s.con.Some? && s.online
    ensures OnlyLoginsAndIoErrors(cfg, s, ReadFrom(cfg, s, resolves, dials, inbound).0)
    decreases |resolves| + |inbound|, 0
  {
    if |inbound| > 0 {
      if inbound[0].ReadFailed? {
        var s1 := s.(errs := s.errs + [Io(inbound[0].error)], closed := s.closed + [s.con.value]);
        ListenSendsOnlyLoginsAndIoErrors(cfg, s1, resolves, dials, inbound[1..]);
      } else {
        ReadSendsOnlyLoginsAndIoErrors(cfg, s, resolves, dials, inbound[1..]);
      }
    }
  }

  /** Listen returns only when an address resolution fails. */
  lemma {:induction false} ListenReturnsOnlyOnResolveFailure(cfg: Config, s: Session, resolves: seq<Result<Addr, IoError>>,
                                                             dials: seq<Result<Conn, IoError>>, inbound: seq<ReadOutcome>)
    requires forall i :: 0 <= i < |resolves| ==> resolves[i].Success?
    ensures ListenFrom(cfg, s, resolves, dials, inbound).1 == Blocked
    decreases |resolves| + |inbound|, 1
  {
    var s1 := s.(online := true);
    if |resolves| > 0 && |dials| > 0 {
      var s2 := s1.(server := Some(resolves[0].value));
      if dials[0].Failure? {
        ListenReturnsOnlyOnResolveFailure(cfg, s2.(con := None, errs := s2.errs + [Io(dials[0].error)]),
                                          resolves[1..], dials[1..], inbound);
      } else {
        ReadReturnsOnlyOnResolveFailure(cfg, s2.(con := Some(dials[0].value), out := s2.out + [LoginPacket(cfg.rconpw)]),
                                        resolves[1..], dials[1..], inbound);
      }
    }
  }

  lemma {:induction false} ReadReturnsOnlyOnResolveFailure(cfg: Config, s: Session, resolves: seq<Result<Addr, IoError>>,
                                                           dials: seq<Result<Conn, IoError>>, inbound: seq<ReadOutcome>)
    requires s.con.Some?
    requires forall i :: 0 <= i < |resolves| ==> resolves[i].Success?
    ensures ReadFrom(cfg, s, resolves, dials, inbound).1 == Blocked
    decreases |resolves| + |inbound|, 0
  {
    if |inbound| > 0 {
      if inbound[0].ReadFailed? || !s.online {
        var report := if !s.online then NotOnlineAnymore else Io(inbound[0].error);
        ListenReturnsOnlyOnResolveFailure(cfg, s.(errs := s.errs + [report], closed := s.closed + [s.con.value]),
                                          resolves, dials, inbound[1..]);
      } else {
        ReadReturnsOnlyOnResolveFailure(cfg, s, resolves, dials, inbound[1..]);
      }
    }
  }

  /** A failed resolution is reported and ends Listen; nothing is retried. */
  lemma ResolveFailureIsFinal(cfg: Config, s: Session, e: IoError, resolves: seq<Result<Addr, IoError>>,
                              dials: seq<Result<Conn, IoError>>, inbound: seq<ReadOutcome>)
    ensures ListenFrom(cfg, s, [Failure(e)] + resolves, dials, inbound)
            == (s.(online := true, errs := s.errs + [Io(e)]), Returned)
  {
  }

  /** A failed dial is reported, leaves no connection, and starts the loop over. */
  lemma DialFailureRetries(cfg: Config, s: Session, a: Addr, e: IoError, resolves: seq<Result<Addr, IoError>>,
                           dials: seq<Result<Conn, IoError>>, inbound: seq<ReadOutcome>)
    ensures ListenFrom(cfg, s, [Success(a)] + resolves, [Failure(e)] + dials, inbound)
            == ListenFrom(cfg, s.(online := true, server := Some(a), con := None, errs := s.errs + [Io(e)]),
                          resolves, dials, inbound)
  {
    assert ([Success(a)] + resolves)[1..] == resolves;
    assert ([Failure(e)] + dials)[1..] == dials;
  }

  /** A successful dial sends exactly one login handshake before the first read. */
  lemma DialSuccessLogsIn(cfg: Config, s: Session, a: Addr, c: Conn, resolves: seq<Result<Addr, IoError>>,
                          dials: seq<Result<Conn, IoError>>, inbound: seq<ReadOutcome>)
    ensures ListenFrom(cfg, s, [Success(a)] + resolves, [Success(c)] + dials, inbound)
            == ReadFrom(cfg, s.(online := true, server := Some(a), con := Some(c), out := s.out + [LoginPacket(cfg.rconpw)]),
                        resolves, dials, inbound)
  {
    assert ([Success(a)] + resolves)[1..] == resolves;
    assert ([Success(c)] + dials)[1..] == dials;
  }

  /** A read error is reported, the connection is closed, and the loop starts over. */
  lemma ReadFailureReconnects(cfg: Config, s: Session, e: IoError, resolves: seq<Result<Addr, IoError>>,
                              dials: seq<Result<Conn, IoError>>, inbound: seq<ReadOutcome>)
    requires s.con.Some? && s.online
    ensures ReadFrom(cfg, s, resolves, dials, [ReadFailed(e)] + inbound)
            == ListenFrom(cfg, s.(errs := s.errs + [Io(e)], closed := s.closed + [s.con.value]), resolves, dials, inbound)
  {
    assert ([ReadFailed(e)] + inbound)[1..] == inbound;
  }

  /** A frame read while online changes nothing. */
  lemma ReadFrameIsInert(cfg: Config, s: Session, frame: seq<byte>, resolves: seq<Result<Addr, IoError>>,
                         dials: seq<Result<Conn, IoError>>, inbound: seq<ReadOutcome>)
    requires s.con.Some? && s.online
    ensures ReadFrom(cfg, s, resolves, dials, [ReadFrame(frame)] + inbound) == ReadFrom(cfg, s, resolves, dials, inbound)
  {
    assert ([ReadFrame(frame)] + inbound)[1..] == inbound;
  }

  function DialFailures(errors: seq<IoError>): (r: seq<Result<Conn, IoError>>)
    ensures |r| == |errors|
    ensures forall i :: 0 <= i < |r| ==> r[i] == Failure(errors[i])
  {
    seq(|errors|, i requires 0 <= i < |errors| => Failure(errors[i]))
  }

  function IoReports(errors: seq<IoError>): (r: seq<Report>)
    ensures |r| == |errors|
    ensures forall i :: 0 <= i < |r| ==> r[i] == Io(errors[i])
  {
    seq(|errors|, i requires 0 <= i < |errors| => Io(errors[i]))
  }

  /** N failed dials followed by a good one: N + 1 connection attempts, N reports in
      order, and a single login handshake on the connection that was made. */
  lemma {:induction false} DialFailuresThenSuccess(cfg: Config, s: Session, a: Addr, errors: seq<IoError>, c: Conn)
    ensures ListenFrom(cfg, s, seq(|errors| + 1, _ => Success(a)), DialFailures(errors) + [Success(c)], [])
            == (s.(online := true, server := Some(a), con := Some(c), errs := s.errs + IoReports(errors),
                   out := s.out + [LoginPacket(cfg.rconpw)]), Blocked)
    decreases |errors|
  {
    var resolves: seq<Result<Addr, IoError>> := seq(|errors| + 1, _ => Success(a));
    if errors == [] {
      assert DialFailures(errors) + [Success(c)] == [Success(c)];
      assert resolves == [Success(a)];
      assert s.errs + IoReports(errors) == s.errs;
    } else {
      var s1 := s.(online := true, server := Some(a), con := None, errs := s.errs + [Io(errors[0])]);
      assert (DialFailures(errors) + [Success(c)])[1..] == DialFailures(errors[1..]) + [Success(c)];
      assert resolves[1..] == seq(|errors[1..]| + 1, _ => Success(a));
      DialFailuresThenSuccess(cfg, s1, a, errors[1..], c);
      assert s1.errs + IoReports(errors[1..]) == s.errs + IoReports(errors);
    }
  }

  // ---------------------------------------------------------------- the inbound dispatch, if reached

  /** The effect of the dispatch of tcp.go:85-104 on `online`: the reports it sends and
      whether Listen returns. */
  datatype Dispatched = Dispatched(online: bool, reports: seq<Report>, stops: bool)

  /** The dispatch as written. `frame` is buf[:n] with n >= 5, as the guard demands; the
      handshake response's Unmarshal reads its result at offset 5, which for n == 5 is
      the byte `leftover` still in the 4096-byte buffer from an earlier read (Go slices
      up to the capacity). Only type byte 0x00 is handled, decoded as a server handshake. */
  function Dispatch(online: bool, frame: seq<byte>, leftover: byte): (r: Dispatched)
    requires |frame| >= 5
    ensures frame[4] != HandshakeType || !AcceptedHeader(frame[..4]) ==> r == Dispatched(online, [], false)
    ensures frame[4] == HandshakeType && AcceptedHeader(frame[..4]) ==>
              var result := if |frame| >= 6 then frame[5] else leftover;
              r == (if result == 0 then Dispatched(true, [LoggedIn], false)
                    else if result == 1 then Dispatched(online, [InvalidPassword], true)
                    else if result == 2 then Dispatched(online, [WrongVersion], true)
                    else Dispatched(online, [], false))
  {
    var packetType := frame[4];
    var visible := if |frame| >= 6 then frame else frame + [leftover];
    assert visible[..4] == frame[..4];
    if packetType == HandshakeType then
      var packet := NewHandshakeResponse.Unmarshal(visible);
      if packet.err.None? then
        if packet.state.result == 0x00 then Dispatched(true, [LoggedIn], false)
        else if packet.state.result == 0x01 then Dispatched(online, [InvalidPassword], true)
        else if packet.state.result == 0x02 then Dispatched(online, [WrongVersion], true)
        else Dispatched(online, [], false)
      else Dispatched(online, [], false)
    else Dispatched(online, [], false)
  }

  // ---------------------------------------------------------------- ProcessPendingPackets

  /** What the writer may change: it takes packets from the head of the queue and adds
      reports and writes; the connection, `online` and the address stay as they are. */
  predicate WriterStep(s: Session, r: Session) {
    && r.online == s.online && r.server == s.server && r.con == s.con && r.closed == s.closed
    && |r.out| <= |s.out| && r.out == s.out[|s.out| - |r.out|..]
    && s.errs <= r.errs && s.wire <= r.wire
  }

  /** The state after ProcessPendingPackets has taken packets from the Out queue in order,
      given the outcomes (None: success) of the writes still to come. A packet that does
      not encode is reported and skipped; a write error is reported; neither stops the
      loop. The connection, `online` and the address are never touched. */
  function Drain(s: Session, writes: seq<Option<IoError>>): (r: Session)
    ensures WriterStep(s, r)
    decreases |s.out|
  {
    if |s.out| == 0 then s
    else
      match s.out[0].Marshal()
      case Failure(e) => Drain(s.(out := s.out[1..], errs := s.errs + [Codec(e)]), writes)
      case Success(bytes) =>
        if |writes| == 0 then s
        else if writes[0].Some? then Drain(s.(out := s.out[1..], errs := s.errs + [Io(writes[0].value)]), writes[1..])
        else Drain(s.(out := s.out[1..], wire := s.wire + [bytes]), writes[1..])
  }

  /** The encodings of the packets that encode, in queue order. */
  function Encodings(packets: seq<Packet>): seq<seq<byte>> {
    if packets == [] then []
    else
      match packets[0].Marshal()
      case Success(bytes) => [bytes] + Encodings(packets[1..])
      case Failure(_) => Encodings(packets[1..])
  }

  /** The errors of the packets that do not encode, in queue order. */
  function EncodingErrors(packets: seq<Packet>): seq<Report> {
    if packets == [] then []
    else
      match packets[0].Marshal()
      case Success(_) => EncodingErrors(packets[1..])
      case Failure(e) => [Codec(e)] + EncodingErrors(packets[1..])
  }

  /** With every write succeeding, the writer empties the queue and puts each packet's
      encoding on the wire in the order the packets were queued (strict FIFO). */
  lemma {:induction false} DrainIsFifo(s: Session, writes: seq<Option<IoError>>)
    requires |writes| >= |s.out|
    requires forall i :: 0 <= i < |writes| ==> writes[i].None?
    ensures Drain(s, writes).out == []
    ensures Drain(s, writes).wire == s.wire + Encodings(s.out)
    ensures Drain(s, writes).errs == s.errs + EncodingErrors(s.out)
    decreases |s.out|, 1
  {
    if |s.out| > 0 {
      var m := s.out[0].Marshal();
      if m.Failure? {
        DrainSkipsUnencodable(s, writes);
      } else {
        DrainWritesEncodable(s, writes);
      }
    }
  }

  lemma {:induction false} DrainSkipsUnencodable(s: Session, writes: seq<Option<IoError>>)
    requires |writes| >= |s.out| > 0
    requires forall i :: 0 <= i < |writes| ==> writes[i].None?
    requires s.out[0].Marshal().Failure?
    ensures Drain(s, writes).out == []
    ensures Drain(s, writes).wire == s.wire + Encodings(s.out)
    ensures Drain(s, writes).errs == s.errs + EncodingErrors(s.out)
    decreases |s.out|, 0
  {
    var e := s.out[0].Marshal().error;
    var next := s.(out := s.out[1..], errs := s.errs + [Codec(e)]);
    DrainIsFifo(next, writes);
    assert EncodingErrors(s.out) == [Codec(e)] + EncodingErrors(s.out[1..]);
  }

  lemma {:induction false} DrainWritesEncodable(s: Session, writes: seq<Option<IoError>>)
    requires |writes| >= |s.out| > 0
    requires forall i :: 0 <= i < |writes| ==> writes[i].None?
    requires s.out[0].Marshal().Success?
    ensures Drain(s, writes).out == []
    ensures Drain(s, writes).wire == s.wire + Encodings(s.out)
    ensures Drain(s, writes).errs == s.errs + EncodingErrors(s.out)
    decreases |s.out|, 0
  {
    var bytes := s.out[0].Marshal().value;
    var next := s.(out := s.out[1..], wire := s.wire + [bytes]);
    DrainIsFifo(next, writes[1..]);
    assert Encodings(s.out) == [bytes] + Encodings(s.out[1..]);
  }

  /** A failed write is reported, its packet is dropped, and the queue drains on. */
  lemma DrainWriteFailure(s: Session, e: IoError, writes: seq<Option<IoError>>)
    requires |s.out| > 0 && s.out[0].Marshal().Success?
    ensures Drain(s, [Some(e)] + writes) == Drain(s.(out := s.out[1..], errs := s.errs + [Io(e)]), writes)
  {
    assert ([Some(e)] + writes)[1..] == writes;
  }

  /** The frames whose write succeeded, given one write outcome per frame, in order. */
  function Delivered(frames: seq<seq<byte>>, writes: seq<Option<IoError>>): (r: seq<seq<byte>>)
    requires |writes| >= |frames|
    ensures |r| <= |frames|
  {
    if frames == [] then []
    else (if writes[0].None? then [frames[0]] else []) + Delivered(frames[1..], writes[1..])
  }

  /** The reports of the writes that failed, given one write outcome per frame, in order. */
  function WriteErrors(frames: seq<seq<byte>>, writes: seq<Option<IoError>>): (r: seq<Report>)
    requires |writes| >= |frames|
    ensures |r| + |Delivered(frames, writes)| == |frames|
  {
    if frames == [] then []
    else (if writes[0].Some? then [Io(writes[0].value)] else []) + WriteErrors(frames[1..], writes[1..])
  }

  /** The network errors among some reports, in order. */
  function IoErrorsIn(rs: seq<Report>): seq<Report> {
    if rs == [] then [] else (if rs[0].Io? then [rs[0]] else []) + IoErrorsIn(rs[1..])
  }

  /** The codec errors among some reports, in order. */
  function CodecErrorsIn(rs: seq<Report>): seq<Report> {
    if rs == [] then [] else (if rs[0].Codec? then [rs[0]] else []) + CodecErrorsIn(rs[1..])
  }

  lemma {:induction false} ErrorsInAppend(a: seq<Report>, b: seq<Report>)
    ensures IoErrorsIn(a + b) == IoErrorsIn(a) + IoErrorsIn(b)
    ensures CodecErrorsIn(a + b) == CodecErrorsIn(a) + CodecErrorsIn(b)
    decreases |a|
  {
    if a != [] {
      assert (a + b)[1..] == a[1..] + b;
      ErrorsInAppend(a[1..], b);
    } else {
      assert a + b == b;
    }
  }

  /** Whatever the write outcomes, as long as there is one per packet that encodes: the
      queue empties; the wire gets, in queue order, the encodings whose write succeeded;
      the codec errors reported are those of the packets that do not encode, in queue
      order; the network errors reported are those of the failed writes, in queue order;
      and nothing else is reported. */
  lemma {:induction false} DrainInQueueOrder(s: Session, writes: seq<Option<IoError>>)
    requires |writes| >= |Encodings(s.out)|
    ensures Drain(s, writes).out == []
    ensures Drain(s, writes).wire == s.wire + Delivered(Encodings(s.out), writes)
    ensures CodecErrorsIn(Drain(s, writes).errs) == CodecErrorsIn(s.errs) + EncodingErrors(s.out)
    ensures IoErrorsIn(Drain(s, writes).errs) == IoErrorsIn(s.errs) + WriteErrors(Encodings(s.out), writes)
    ensures |Drain(s, writes).errs| == |s.errs| + |EncodingErrors(s.out)| + |WriteErrors(Encodings(s.out), writes)|
    decreases |s.out|, 2
  {
    if |s.out| > 0 {
      if s.out[0].Marshal().Failure? {
        DrainInQueueOrderSkip(s, writes);
      } else {
        DrainInQueueOrderWrite(s, writes);
      }
    }
  }

  lemma {:induction false} DrainInQueueOrderSkip(s: Session, writes: seq<Option<IoError>>)
    requires |s.out| > 0 && s.out[0].Marshal().Failure?
    requires |writes| >= |Encodings(s.out)|
    ensures Drain(s, writes).out == []
    ensures Drain(s, writes).wire == s.wire + Delivered(Encodings(s.out), writes)
    ensures CodecErrorsIn(Drain(s, writes).errs) == CodecErrorsIn(s.errs) + EncodingErrors(s.out)
    ensures IoErrorsIn(Drain(s, writes).errs) == IoErrorsIn(s.errs) + WriteErrors(Encodings(s.out), writes)
    ensures |Drain(s, writes).errs| == |s.errs| + |EncodingErrors(s.out)| + |WriteErrors(Encodings(s.out), writes)|
    decreases |s.out|, 1
  {
    var e := s.out[0].Marshal().error;
    var next := s.(out := s.out[1..], errs := s.errs + [Codec(e)]);
    assert Encodings(s.out) == Encodings(s.out[1..]);
    assert EncodingErrors(s.out) == [Codec(e)] + EncodingErrors(s.out[1..]);
    DrainInQueueOrder(next, writes);
    ErrorsInAppend(s.errs, [Codec(e)]);
    assert IoErrorsIn([Codec(e)]) == [] && CodecErrorsIn([Codec(e)]) == [Codec(e)];
  }

  lemma {:induction false} DrainInQueueOrderWrite(s: Session, writes: seq<Option<IoError>>)
    requires |s.out| > 0 && s.out[0].Marshal().Success?
    requires |writes| >= |Encodings(s.out)|
    ensures Drain(s, writes).out == []
    ensures Drain(s, writes).wire == s.wire + Delivered(Encodings(s.out), writes)
    ensures CodecErrorsIn(Drain(s, writes).errs) == CodecErrorsIn(s.errs) + EncodingErrors(s.out)
    ensures IoErrorsIn(Drain(s, writes).errs) == IoErrorsIn(s.errs) + WriteErrors(Encodings(s.out), writes)
    ensures |Drain(s, writes).errs| == |s.errs| + |EncodingErrors(s.out)| + |WriteErrors(Encodings(s.out), writes)|
    decreases |s.out|, 1
  {
    var bytes := s.out[0].Marshal().value;
    assert Encodings(s.out) == [bytes] + Encodings(s.out[1..]);
    if writes[0].Some? {
      DrainInQueueOrderFailedWrite(s, writes);
    } else {
      var frames := Encodings(s.out);
      assert frames[1..] == Encodings(s.out[1..]);
      assert EncodingErrors(s.out) == EncodingErrors(s.out[1..]);
      assert Delivered(frames, writes) == [bytes] + Delivered(frames[1..], writes[1..]);
      assert WriteErrors(frames, writes) == WriteErrors(frames[1..], writes[1..]);
      var next := s.(out := s.out[1..], wire := s.wire + [bytes]);
      assert Drain(s, writes) == Drain(next, writes[1..]);
      DrainInQueueOrder(next, writes[1..]);
    }
  }

  lemma {:induction false} DrainInQueueOrderFailedWrite(s: Session, writes: seq<Option<IoError>>)
    requires |s.out| > 0 && s.out[0].Marshal().Success?
    requires |writes| >= |Encodings(s.out)| && |writes| > 0 && writes[0].Some?
    ensures Drain(s, writes).out == []
    ensures Drain(s, writes).wire == s.wire + Delivered(Encodings(s.out), writes)
    ensures CodecErrorsIn(Drain(s, writes).errs) == CodecErrorsIn(s.errs) + EncodingErrors(s.out)
    ensures IoErrorsIn(Drain(s, writes).errs) == IoErrorsIn(s.errs) + WriteErrors(Encodings(s.out), writes)
    ensures |Drain(s, writes).errs| == |s.errs| + |EncodingErrors(s.out)| + |WriteErrors(Encodings(s.out), writes)|
    decreases |s.out|, 0
  {
    var bytes := s.out[0].Marshal().value;
    var frames := Encodings(s.out);
    assert frames == [bytes] + Encodings(s.out[1..]);
    assert frames[1..] == Encodings(s.out[1..]);
    assert EncodingErrors(s.out) == EncodingErrors(s.out[1..]);
    var e := writes[0].value;
    assert Delivered(frames, writes) == Delivered(frames[1..], writes[1..]);
    assert WriteErrors(frames, writes) == [Io(e)] + WriteErrors(frames[1..], writes[1..]);
    var next := s.(out := s.out[1..], errs := s.errs + [Io(e)]);
    assert Drain(s, writes) == Drain(next, writes[1..]);
    DrainInQueueOrder(next, writes[1..]);
    ErrorsInAppend(s.errs, [Io(e)]);
    assert IoErrorsIn([Io(e)]) == [Io(e)] && CodecErrorsIn([Io(e)]) == [];
  }

  // ---------------------------------------------------------------- the client object

  class TCPClient {
    const cfg: Config
    var online: bool
    var server: Option<Addr>
    var con: Option<Conn>
    var closed: seq<Conn>
    var out: seq<Packet>
    var errs: seq<Report>
    var wire: seq<seq<byte>>

    function State(): Session
      reads this
    {
      Session(online, server, con, closed, out, errs, wire)
    }

    /** NewTCPClient */
    constructor (cfg: Config)
      ensures this.cfg == cfg && State() == Session(false, None, None, [], [], [], [])
    {
      this.cfg := cfg;
      online := false;
      server := None;
      con := None;
      closed := [];
      out := [];
      errs := [];
      wire := [];
    }

    /** (*TCPClient).Listen */
    method Listen(resolves: seq<Result<Addr, IoError>>, dials: seq<Result<Conn, IoError>>,
                  inbound: seq<ReadOutcome>) returns (exit: Exit)
      modifies this
      ensures (State(), exit) == ListenFrom(cfg, old(State()), resolves, dials, inbound)
    {
      var header := new RCHeader.Zero();
      var ri, di, rd := 0, 0, 0;
      label Reconnect:
      while true
        invariant ri <= |resolves| && di <= |dials| && rd <= |inbound|
        invariant ListenFrom(cfg, old(State()), resolves, dials, inbound)
                  == ListenFrom(cfg, State(), resolves[ri..], dials[di..], inbound[rd..])
        decreases |resolves| - ri
      {
        online := true;
        if ri == |resolves| {
          return Blocked;
        }
        var resolved := resolves[ri];
        ri := ri + 1;
        if resolved.Failure? {
          errs := errs + [Io(resolved.error)];
          return Returned;
        }
        server := Some(resolved.value);
        if di == |dials| {
          return Blocked;
        }
        var dialed := dials[di];
        di := di + 1;
        if dialed.Failure? {
          con := None;
          errs := errs + [Io(dialed.error)];
          continue;
        }
        con := Some(dialed.value);
        out := out + [LoginPacket(cfg.rconpw)];
        while true
          invariant ri <= |resolves| && di <= |dials| && rd <= |inbound|
          invariant con.Some?
          invariant ListenFrom(cfg, old(State()), resolves, dials, inbound)
                    == ReadFrom(cfg, State(), resolves[ri..], dials[di..], inbound[rd..])
          decreases |inbound| - rd
        {
          if rd == |inbound| {
            return Blocked;
          }
          var read := inbound[rd];
          rd := rd + 1;
          var err := if read.ReadFailed? then Some(Io(read.error)) else None;
          if !online {
            err := Some(NotOnlineAnymore);
          }
          if err.Some? {
            errs := errs + [err.value];
            closed := closed + [con.value];
            continue Reconnect;
          }
          var headerErr := header.Unmarshal(read.frame);
          if headerErr.None? && |read.frame| >= 5 {
            // the dispatch of tcp.go:85-104 (Dispatch) is unreachable
            assert false;
          }
        }
      }
    }

    /** (*TCPClient).ProcessPendingPackets */
    method ProcessPendingPackets(writes: seq<Option<IoError>>)
      modifies this
      ensures State() == Drain(old(State()), writes)
    {
      var wi := 0;
      while out != []
        invariant wi <= |writes|
        invariant Drain(old(State()), writes) == Drain(State(), writes[wi..])
        decreases |out|
      {
        var p := out[0];
        var bytes := p.Marshal();
        if bytes.Success? {
          if wi == |writes| {
            return;
          }
          var writeErr := writes[wi];
          wi := wi + 1;
          out := out[1..];
          if writeErr.Some? {
            errs := errs + [Io(writeErr.value)];
          } else {
            wire := wire + [bytes.value];
          }
        } else {
          out := out[1..];
          errs := errs + [Codec(bytes.error)];
        }
      }
    }
  }
}
