/** The packet-sending branches of `console` in main.go: `ql` (a content length), `qc` (one
    query) and `qb` (a file's content as a content-length packet followed by 507-byte
    query chunks). Reading the line from stdin, splitting it into fields, running
    strconv.Atoi and reading the file are not modelled: their results are parameters. */
module Console {
  import opened Types
  import opened RemoteCall
  import opened Tcp

  /** The number of content bytes `qb` puts in one Query packet. */
  const ChunkSize: nat := 507

  /** `int(math.Ceil(float64(n) / float64(d)))`, which is exact for every n a file can have. */
  function CeilDiv(n: nat, d: nat): (q: nat)
    requires d > 0
    ensures q * d >= n && (q == 0 || (q - 1) * d < n)
  {
    (n + d - 1) / d
  }

  /** The payload cut into consecutive pieces of ChunkSize bytes, the last one holding
      what is left (the reference for what `qb` sends). */
  function Chunks(content: seq<byte>): seq<seq<byte>>
    decreases |content|
  {
    if |content| == 0 then []
    else if |content| <= ChunkSize then [content]
    else [content[..ChunkSize]] + Chunks(content[ChunkSize..])
  }

  function Concat(pieces: seq<seq<byte>>): seq<byte> {
    if pieces == [] then [] else pieces[0] + Concat(pieces[1..])
  }

  /** One Query packet per chunk, in order. */
  function QueryPackets(chunks: seq<seq<byte>>): (ps: seq<Packet>)
    ensures |ps| == |chunks|
  {
    seq(|chunks|, i requires 0 <= i < |chunks| => QueryPacket(NewQuery.(content := chunks[i])))
  }

  /** What `qb` sends on Out for a file's content: the content length, then the chunks. */
  function ChunkedSend(content: seq<byte>): seq<Packet> {
    [QueryContentLengthPacket(NewQueryContentLength.(contentLength := ToUint16(|content|)))]
    + QueryPackets(Chunks(content))
  }

  /** There are ceil(len/507) chunks. */
  lemma {:induction false} ChunksCount(content: seq<byte>)
    ensures |Chunks(content)| == CeilDiv(|content|, ChunkSize)
    decreases |content|
  {
    if |content| > ChunkSize {
      ChunksCount(content[ChunkSize..]);
    }
  }

  /** The chunks, concatenated in order, give back the content. */
  lemma {:induction false} ChunksConcat(content: seq<byte>)
    ensures Concat(Chunks(content)) == content
    decreases |content|
  {
    if |content| > ChunkSize {
      ChunksConcat(content[ChunkSize..]);
      assert Chunks(content)[1..] == Chunks(content[ChunkSize..]);
      assert content[..ChunkSize] + content[ChunkSize..] == content;
    } else if |content| > 0 {
      assert Chunks(content)[1..] == [];
    }
  }

  /** Chunk k is content[k*507 : (k+1)*507], exactly 507 bytes, except the last, which is
      content[k*507:] and holds between 1 and 507 bytes. */
  lemma {:induction false} ChunkAt(content: seq<byte>, k: nat)
    requires k < |Chunks(content)|
    ensures k + 1 < |Chunks(content)| ==>
              (k + 1) * ChunkSize <= |content|
              && Chunks(content)[k] == content[k * ChunkSize..(k + 1) * ChunkSize]
    ensures k + 1 == |Chunks(content)| ==>
              k * ChunkSize < |content| <= (k + 1) * ChunkSize
              && Chunks(content)[k] == content[k * ChunkSize..]
    decreases |content|
  {
    if k > 0 {
      var rest := content[ChunkSize..];
      assert Chunks(content)[1..] == Chunks(rest);
      ChunkAt(rest, k - 1);
      if k + 1 < |Chunks(content)| {
        assert rest[(k - 1) * ChunkSize..k * ChunkSize] == content[k * ChunkSize..(k + 1) * ChunkSize];
      } else {
        assert rest[(k - 1) * ChunkSize..] == content[k * ChunkSize..];
      }
    }
  }

  /** Every chunk but the last has exactly 507 bytes; the last has between 1 and 507. */
  lemma ChunkSizes(content: seq<byte>, k: nat)
    requires k < |Chunks(content)|
    ensures k + 1 < |Chunks(content)| ==> |Chunks(content)[k]| == ChunkSize
    ensures k + 1 == |Chunks(content)| ==> 1 <= |Chunks(content)[k]| <= ChunkSize
  {
    ChunkAt(content, k);
  }

  /** `qb` sends one content-length packet carrying len(content) truncated to 16 bits,
      then ceil(len/507) Query packets, the k-th carrying the k-th chunk. An empty file
      sends a content length of 0 and no chunk. */
  lemma ChunkedSendShape(content: seq<byte>)
    ensures |ChunkedSend(content)| == 1 + CeilDiv(|content|, ChunkSize)
    ensures ChunkedSend(content)[0].QueryContentLengthPacket?
    ensures ChunkedSend(content)[0].queryContentLength.contentLength as int == |content| % 0x1_0000
    ensures forall k :: 0 <= k < |Chunks(content)| ==>
              ChunkedSend(content)[k + 1] == QueryPacket(NewQuery.(content := Chunks(content)[k]))
    ensures content == [] ==> ChunkedSend(content) == [QueryContentLengthPacket(NewQueryContentLength)]
  {
    ChunksCount(content);
  }

  /** The scenario of a 1200-byte payload: 3 chunks of 507, 507 and 186 bytes. */
  lemma TwelveHundredBytes(content: seq<byte>)
    requires |content| == 1200
    ensures |Chunks(content)| == 3
    ensures |Chunks(content)[0]| == 507 && |Chunks(content)[1]| == 507 && |Chunks(content)[2]| == 186
  {
    ChunksCount(content);
    ChunkAt(content, 0);
    ChunkAt(content, 1);
    ChunkAt(content, 2);
  }

  // ---------------------------------------------------------------- end to end through the writer

  /** The content bytes of a run of Query frames: each frame with its 5-byte header and
      type byte removed, concatenated. */
  function Payloads(frames: seq<seq<byte>>): seq<byte> {
    if frames == [] then []
    else (if |frames[0]| >= 5 then frames[0][5..] else []) + Payloads(frames[1..])
  }

  lemma {:induction false} QueryFramesCarryChunks(chunks: seq<seq<byte>>)
    ensures |Encodings(QueryPackets(chunks))| == |chunks|
    ensures EncodingErrors(QueryPackets(chunks)) == []
    ensures Payloads(Encodings(QueryPackets(chunks))) == Concat(chunks)
    ensures forall i :: 0 <= i < |chunks| ==>
              |Encodings(QueryPackets(chunks))[i]| >= 5 && Encodings(QueryPackets(chunks))[i][4] == QueryType
    decreases |chunks|
  {
    if chunks != [] {
      var ps := QueryPackets(chunks);
      assert ps[1..] == QueryPackets(chunks[1..]);
      QueryFramesCarryChunks(chunks[1..]);
      var frame := ps[0].Marshal().value;
      assert Encodings(ps) == [frame] + Encodings(QueryPackets(chunks[1..]));
      assert Encodings(ps)[1..] == Encodings(QueryPackets(chunks[1..]));
    }
  }

  /** Handing `qb`'s packets to ProcessPendingPackets with every write succeeding puts the
      content-length frame on the wire first and then one Query frame per chunk, whose
      contents concatenate back to the file's content: the order is kept end to end. */
  lemma WireCarriesContent(s: Session, content: seq<byte>, writes: seq<Option<IoError>>)
    requires s.out == []
    requires |writes| >= |ChunkedSend(content)|
    requires forall i :: 0 <= i < |writes| ==> writes[i].None?
    ensures Drain(s.(out := ChunkedSend(content)), writes).errs == s.errs
    ensures Drain(s.(out := ChunkedSend(content)), writes).wire
            == s.wire + [NewQueryContentLength.(contentLength := ToUint16(|content|)).Marshal().value]
               + Encodings(QueryPackets(Chunks(content)))
    ensures Payloads(Encodings(QueryPackets(Chunks(content)))) == content
    ensures |Encodings(QueryPackets(Chunks(content)))| == CeilDiv(|content|, ChunkSize)
  {
    var ps := ChunkedSend(content);
    DrainIsFifo(s.(out := ps), writes);
    QueryFramesCarryChunks(Chunks(content));
    ChunksConcat(content);
    ChunksCount(content);
    assert ps[1..] == QueryPackets(Chunks(content));
  }

  // ---------------------------------------------------------------- the console branches

  /** The `ql` branch: with exactly two fields, a content-length packet carrying the parsed
      number truncated to 16 bits, or the parse error and nothing sent. `parsed` is what
      strconv.Atoi returned for the second field (None: an error). */
  method Ql(t: TCPClient, fields: seq<seq<byte>>, parsed: Option<int>)
    modifies t
    ensures |fields| != 2 ==> t.State() == old(t.State())
    ensures |fields| == 2 && parsed.None? ==> t.State() == old(t.State()).(errs := old(t.errs) + [Parse(fields[1])])
    ensures |fields| == 2 && parsed.Some? ==>
              t.State() == old(t.State()).(out := old(t.out) + [QueryContentLengthPacket(
                                             NewQueryContentLength.(contentLength := ToUint16(parsed.value)))])
  {
    if |fields| == 2 {
      var newPacket := NewQueryContentLength;
      if parsed.None? {
        t.errs := t.errs + [Parse(fields[1])];
      } else {
        newPacket := newPacket.(contentLength := ToUint16(parsed.value));
        t.out := t.out + [QueryContentLengthPacket(newPacket)];
      }
    }
  }

  /** The `qc` branch: with exactly two fields, one Query carrying the second field. */
  method Qc(t: TCPClient, fields: seq<seq<byte>>)
    modifies t
    ensures |fields| != 2 ==> t.State() == old(t.State())
    ensures |fields| == 2 ==>
              t.State() == old(t.State()).(out := old(t.out) + [QueryPacket(NewQuery.(content := fields[1]))])
  {
    if |fields| == 2 {
      var newPacket := NewQuery;
      newPacket := newPacket.(content := fields[1]);
      t.out := t.out + [QueryPacket(newPacket)];
    }
  }

  /** The `qb` branch: with exactly two fields, either the file's read error is reported
      and the console stops (`keepRunning` false), or ChunkedSend(content) is sent, without
      waiting for any content-length response. `file` is what ioutil.ReadFile returned. */
  method Qb(t: TCPClient, fields: seq<seq<byte>>, file: Result<seq<byte>, IoError>) returns (keepRunning: bool)
    modifies t
    ensures |fields| != 2 ==> keepRunning && t.State() == old(t.State())
    ensures |fields| == 2 && file.Failure? ==>
              !keepRunning && t.State() == old(t.State()).(errs := old(t.errs) + [Io(file.error)])
    ensures |fields| == 2 && file.Success? ==>
              keepRunning && t.State() == old(t.State()).(out := old(t.out) + ChunkedSend(file.value))
  {
    keepRunning := true;
    if |fields| == 2 {
      if file.Failure? {
        t.errs := t.errs + [Io(file.error)];
        return false;
      }
      var content := file.value;
      var byteToSend := |content|;
      var it := CeilDiv(byteToSend, ChunkSize);
      ChunksCount(content);

      var newPacket1 := NewQueryContentLength.(contentLength := ToUint16(byteToSend));
      t.out := t.out + [QueryContentLengthPacket(newPacket1)];
      ghost var sent := t.out;

      var left, right := 0, 0;
      var i := 1;
      while i <= it
        invariant 1 <= i <= it + 1
        invariant t.State() == old(t.State()).(out := sent + QueryPackets(Chunks(content)[..i - 1]))
      {
        var newPacket := NewQuery;
        left := (i - 1) * ChunkSize;
        right := i * ChunkSize;
        ChunkAt(content, i - 1);
        if i == it {
          newPacket := newPacket.(content := content[left..]);
        } else {
          newPacket := newPacket.(content := content[left..right]);
        }
        assert QueryPackets(Chunks(content)[..i]) == QueryPackets(Chunks(content)[..i - 1]) + [QueryPacket(newPacket)];
        t.out := t.out + [QueryPacket(newPacket)];
        i := i + 1;
      }
      assert Chunks(content)[..it] == Chunks(content);
    }
  }
}
