/**
 Length-prefixed frames over a TCP byte stream: the bounded partial-write queue
 and the chunked reader of src/tcp_transport.rs, and the Swift reader of
 HushWireNetworkTransport.swift.
 */
module TcpFraming {
  import opened Wrappers
  import opened Wire

  const MAX_FRAME: nat := 0xffff
  const MAX_PENDING_WRITE_BYTES: nat := 16 * 1024 * 1024

  type Frame = f: seq<byte> | |f| <= MAX_FRAME witness []

  // ---------------------------------------------------------------------------
  // The framing code: two length bytes, most significant first, then the frame.
  // ---------------------------------------------------------------------------

  function EncodeFrame(frame: Frame): seq<byte> {
    [|frame| / 256, |frame| % 256] + frame
  }

  /** The prefix is the length as a big-endian number of two bytes. */
  lemma FrameLayout(frame: Frame)
    ensures |frame| < Power256(2) && EncodeFrame(frame) == BigEndian(|frame|, 2) + frame
  {
    TwoBytes(|frame|);
  }

  lemma TwoBytes(value: nat)
    requires value <= 0xffff
    ensures value < Power256(2) && BigEndian(value, 2) == [value / 256, value % 256]
  {
    assert Power256(1) == 256 && Power256(2) == 0x1_0000;
    var none: seq<byte> := BigEndian(value / 256 / 256, 0);
    assert BigEndian(value / 256, 1) == none + [value / 256 % 256];
    assert BigEndian(value, 2) == BigEndian(value / 256, 1) + [value % 256];
  }

  function EncodeAll(frames: seq<Frame>): seq<byte> {
    if frames == [] then [] else EncodeAll(frames[..|frames| - 1]) + EncodeFrame(frames[|frames| - 1])
  }

  /** The length that the first two bytes announce. */
  function AnnouncedLength(buffer: seq<byte>): (length: nat)
    requires |buffer| >= 2
    ensures length <= MAX_FRAME
  {
    256 * (buffer[0] as int) + (buffer[1] as int)
  }

  predicate HasFrame(buffer: seq<byte>) {
    |buffer| >= 2 && |buffer| >= 2 + AnnouncedLength(buffer)
  }

  function FirstFrame(buffer: seq<byte>): Frame
    requires HasFrame(buffer)
  {
    buffer[2..2 + AnnouncedLength(buffer)]
  }

  function AfterFirst(buffer: seq<byte>): seq<byte>
    requires HasFrame(buffer)
  {
    buffer[2 + AnnouncedLength(buffer)..]
  }

  /** The complete frames at the front of a byte stream, in order. */
  function Frames(stream: seq<byte>): seq<Frame>
    decreases |stream|
  {
    if HasFrame(stream) then [FirstFrame(stream)] + Frames(AfterFirst(stream)) else []
  }

  /** The bytes of the frame that is not complete yet. */
  function Leftover(stream: seq<byte>): seq<byte>
    decreases |stream|
  {
    if HasFrame(stream) then Leftover(AfterFirst(stream)) else stream
  }

  lemma FirstOfEncoded(frame: Frame, rest: seq<byte>)
    ensures HasFrame(EncodeFrame(frame) + rest)
    ensures FirstFrame(EncodeFrame(frame) + rest) == frame
    ensures AfterFirst(EncodeFrame(frame) + rest) == rest
  {}

  lemma {:induction false} EncodeAllOfSum(a: seq<Frame>, b: seq<Frame>)
    ensures EncodeAll(a + b) == EncodeAll(a) + EncodeAll(b)
  {
    if b == [] {
      assert a + b == a;
    } else {
      var last := |b| - 1;
      assert (a + b)[..|a + b| - 1] == a + b[..last];
      EncodeAllOfSum(a, b[..last]);
    }
  }

  lemma {:induction false} FramesOfSum(frames: seq<Frame>, rest: seq<byte>)
    ensures Frames(EncodeAll(frames) + rest) == frames + Frames(rest)
    ensures Leftover(EncodeAll(frames) + rest) == Leftover(rest)
  {
    if frames == [] {
      assert EncodeAll(frames) + rest == rest;
    } else {
      var last := |frames| - 1;
      var front := frames[..last];
      var tail := EncodeFrame(frames[last]) + rest;
      assert EncodeAll(frames) + rest == EncodeAll(front) + tail;
      FramesOfSum(front, tail);
      FirstOfEncoded(frames[last], rest);
      assert frames == front + [frames[last]];
    }
  }

  lemma EncodeFirst(first: Frame, rest: seq<Frame>)
    ensures EncodeAll([first] + rest) == EncodeFrame(first) + EncodeAll(rest)
  {
    EncodeAllOfSum([first], rest);
    assert [first][..0] == [];
    assert EncodeAll([first]) == EncodeFrame(first);
  }

  lemma FirstReencoded(stream: seq<byte>)
    requires HasFrame(stream)
    ensures stream == EncodeFrame(FirstFrame(stream)) + AfterFirst(stream)
  {}

  /** Splitting a stream into frames loses nothing and stops only at an incomplete frame. */
  lemma {:induction false} FramesAccountForStream(stream: seq<byte>)
    ensures stream == EncodeAll(Frames(stream)) + Leftover(stream)
    ensures !HasFrame(Leftover(stream))
    decreases |stream|
  {
    if HasFrame(stream) {
      var first, rest := FirstFrame(stream), AfterFirst(stream);
      FramesAccountForStream(rest);
      EncodeFirst(first, Frames(rest));
      FirstReencoded(stream);
      Regrouped(EncodeFrame(first), EncodeAll(Frames(rest)), Leftover(rest));
    }
  }

  lemma Regrouped(a: seq<byte>, b: seq<byte>, c: seq<byte>)
    ensures a + (b + c) == a + b + c
  {}

  /** What a reader sees does not depend on where the stream was cut. */
  lemma FramesOfChunks(received: seq<byte>, chunk: seq<byte>)
    ensures Frames(received + chunk) == Frames(received) + Frames(Leftover(received) + chunk)
    ensures Leftover(received + chunk) == Leftover(Leftover(received) + chunk)
  {
    FramesAccountForStream(received);
    assert received + chunk == EncodeAll(Frames(received)) + (Leftover(received) + chunk);
    FramesOfSum(Frames(received), Leftover(received) + chunk);
  }

  lemma FramesOfTail(received: seq<byte>, tail: seq<byte>, chunk: seq<byte>)
    requires Leftover(received) == Leftover(tail)
    ensures Leftover(received + chunk) == Leftover(tail + chunk)
    ensures forall delivered :: Frames(received) == delivered + Frames(tail) ==>
              Frames(received + chunk) == delivered + Frames(tail + chunk)
  {
    FramesOfChunks(received, chunk);
    FramesOfChunks(tail, chunk);
  }

  lemma AcceptOne(frames: seq<Frame>, frame: Frame, written: seq<byte>, pending: seq<byte>)
    requires written + pending == EncodeAll(frames)
    ensures written + (pending + EncodeFrame(frame)) == EncodeAll(frames + [frame])
  {
    assert (frames + [frame])[..|frames|] == frames;
    assert written + (pending + EncodeFrame(frame)) == (written + pending) + EncodeFrame(frame);
  }

  lemma {:induction false} EncodedPrefixLength(frames: seq<Frame>, j: nat, k: nat)
    requires j <= k <= |frames|
    ensures |EncodeAll(frames[..j])| + 2 * (k - j) <= |EncodeAll(frames[..k])|
  {
    if j < k {
      EncodedPrefixLength(frames, j, k - 1);
      assert frames[..k][..k - 1] == frames[..k - 1];
    }
  }

  /** From any prefix of what the writer encoded, a reader gets a prefix of the frames. */
  lemma PrefixOfStream(frames: seq<Frame>, received: seq<byte>)
    requires received <= EncodeAll(frames)
    ensures Frames(received) <= frames
    ensures received == EncodeAll(frames) ==> Frames(received) == frames && Leftover(received) == []
  {
    var missing := EncodeAll(frames)[|received|..];
    assert received + missing == EncodeAll(frames);
    FramesOfChunks(received, missing);
    assert EncodeAll(frames) + [] == EncodeAll(frames);
    FramesOfSum(frames, []);
    assert frames == Frames(received) + Frames(Leftover(received) + missing);
  }

  lemma ArrivedFrameIsSeen(frames: seq<Frame>, n: nat, received: seq<byte>, left: seq<byte>)
    requires n < |frames| && received <= EncodeAll(frames)
    requires received == EncodeAll(frames[..n]) + left
    requires |received| >= |EncodeAll(frames[..n + 1])|
    ensures HasFrame(left)
  {
    var base, next := EncodeAll(frames[..n]), EncodeFrame(frames[n]);
    assert frames[..n + 1][..n] == frames[..n];
    assert frames[..n + 1] + frames[n + 1..] == frames;
    EncodeAllOfSum(frames[..n + 1], frames[n + 1..]);
    assert EncodeAll(frames) == base + next + EncodeAll(frames[n + 1..]);
    assert received[|base|..] == left;
    assert left[..|next|] == EncodeAll(frames)[|base|..|base| + |next|] == next;
    assert left == next + left[|next|..];
    FirstOfEncoded(frames[n], left[|next|..]);
  }

  /**
   Round trip over the stream: from any prefix of what the writer encoded, a
   reader gets exactly the frames that have fully arrived, in order.
   */
  lemma StreamRoundTrip(frames: seq<Frame>, received: seq<byte>, k: nat)
    requires received <= EncodeAll(frames)
    requires k <= |frames|
    ensures Frames(received) <= frames
    ensures k <= |Frames(received)| <==> |EncodeAll(frames[..k])| <= |received|
    ensures received == EncodeAll(frames) ==> Frames(received) == frames && Leftover(received) == []
  {
    PrefixOfStream(frames, received);
    FramesAccountForStream(received);
    var n := |Frames(received)|;
    assert frames[..n] == Frames(received);
    if k <= n {
      EncodedPrefixLength(frames, k, n);
    } else {
      EncodedPrefixLength(frames, n + 1, k);
      if |EncodeAll(frames[..n + 1])| <= |received| {
        ArrivedFrameIsSeen(frames, n, received, Leftover(received));
      }
    }
  }

  /** Composition with the packet format: each packet written comes back as the packet it was. */
  lemma PacketsSurviveTheStream(packets: seq<ParsedPacket>, frames: seq<Frame>)
    requires |frames| == |packets|
    requires forall i :: 0 <= i < |packets| ==> WellFormed(packets[i]) && frames[i] == Encoded(packets[i])
    ensures |Frames(EncodeAll(frames))| == |packets|
    ensures forall i :: 0 <= i < |packets| ==> DecodePacket(Frames(EncodeAll(frames))[i]) == Some(packets[i])
  {
    PrefixOfStream(frames, EncodeAll(frames));
    forall i | 0 <= i < |packets| ensures DecodePacket(frames[i]) == Some(packets[i]) {
      EncodeThenDecode(packets[i]);
    }
  }

  // ---------------------------------------------------------------------------
  // The socket: a schedule says how each non-blocking call turns out.
  // ---------------------------------------------------------------------------

  datatype WriteOutcome = Took(count: nat) | WriteInterrupted | WriteBlocked | WriteFailed

  datatype ReadOutcome = Got(chunk: seq<byte>) | ReadRetry | ReadBlocked | ReadFailed | Closed

  datatype IoError = FrameTooLong | QueueFull | WriteZero | ConnectionReset | Broken

  /** How a flush ends: with nothing left, at a write that would block, or with an error. */
  datatype FlushEnd = Emptied | Stopped | Refused(error: IoError)

  /** What a flush does: how many bytes are taken, how it ends, and how many outcomes it uses up. */
  datatype Flush = Flush(taken: nat, end: FlushEnd, used: nat)

  /** A flush of `pending` bytes under this schedule. */
  function FlushOf(schedule: seq<WriteOutcome>, pending: nat): (f: Flush)
    ensures f.taken <= pending && f.used <= |schedule|
    ensures f.end.Refused? ==> f.end.error.WriteZero? || f.end.error.Broken?
    decreases |schedule|
  {
    if pending == 0 then Flush(0, Emptied, 0)
    else if schedule == [] then Flush(0, Stopped, 0)
    else
      match schedule[0]
      case WriteBlocked => Flush(0, Stopped, 1)
      case WriteFailed => Flush(0, Refused(Broken), 1)
      case WriteInterrupted =>
        var rest := FlushOf(schedule[1..], pending);
        rest.(used := rest.used + 1)
      case Took(count) =>
        if count == 0 then Flush(0, Refused(WriteZero), 1)
        else
          var now := if count <= pending then count else pending;
          var rest := FlushOf(schedule[1..], pending - now);
          Flush(now + rest.taken, rest.end, rest.used + 1)
  }

  /** How many bytes the first outcomes of a schedule could take. */
  function Capacity(schedule: seq<WriteOutcome>): nat {
    if schedule == [] then 0
    else Capacity(schedule[..|schedule| - 1])
         + if schedule[|schedule| - 1].Took? then schedule[|schedule| - 1].count else 0
  }

  /** The outcome at `k` is the first that is neither a positive count nor an interruption. */
  predicate StopsAt(schedule: seq<WriteOutcome>, k: nat) {
    && k < |schedule| && (schedule[k].WriteBlocked? || schedule[k].WriteFailed? || schedule[k] == Took(0))
    && forall j :: 0 <= j < k ==> schedule[j].WriteInterrupted? || (schedule[j].Took? && schedule[j].count > 0)
  }

  /** What one write of `pending` bytes takes. */
  function FirstTakes(outcome: WriteOutcome, pending: nat): (n: nat)
    ensures n <= pending
  {
    if !outcome.Took? then 0 else if outcome.count <= pending then outcome.count else pending
  }

  lemma {:induction false} CapacityOfTail(first: WriteOutcome, rest: seq<WriteOutcome>)
    ensures Capacity([first] + rest) == (if first.Took? then first.count else 0) + Capacity(rest)
  {
    if rest == [] {
      assert [first] + rest == [first] && [first][..0] == [];
    } else {
      CapacityOfTail(first, rest[..|rest| - 1]);
      assert ([first] + rest)[..|rest|] == [first] + rest[..|rest| - 1];
    }
  }

  /**
   A flush ends at the first outcome that makes no progress, if the bytes are not taken by then: in an
   error for a write of nothing or a failure, otherwise quietly. It takes whatever was offered until then.
   */
  lemma {:induction false} FlushEndsAt(schedule: seq<WriteOutcome>, pending: nat, k: nat)
    requires StopsAt(schedule, k)
    ensures var f, offered := FlushOf(schedule, pending), Capacity(schedule[..k]);
            && f.taken == (if offered < pending then offered else pending)
            && f.end == if offered >= pending then Emptied
                        else if schedule[k].WriteBlocked? then Stopped
                        else Refused(if schedule[k].WriteFailed? then Broken else WriteZero)
    decreases k
  {
    if k > 0 && pending > 0 {
      FlushEndsAt(schedule[1..], pending - FirstTakes(schedule[0], pending), k - 1);
      CapacityOfTail(schedule[0], schedule[1..][..k - 1]);
      assert schedule[..k] == [schedule[0]] + schedule[1..][..k - 1];
    }
  }

  /** A schedule without such an outcome takes everything it offers, and is never an error. */
  lemma {:induction false} FlushNeverStops(schedule: seq<WriteOutcome>, pending: nat)
    requires forall k: nat :: !StopsAt(schedule, k)
    ensures var f := FlushOf(schedule, pending);
            && f.taken == (if Capacity(schedule) < pending then Capacity(schedule) else pending)
            && f.end == if Capacity(schedule) >= pending then Emptied else Stopped
  {
    if schedule != [] && pending > 0 {
      assert !StopsAt(schedule, 0);
      forall k: nat ensures !StopsAt(schedule[1..], k) {
        if StopsAt(schedule[1..], k) {
          assert StopsAt(schedule, k + 1);
        }
      }
      FlushNeverStops(schedule[1..], pending - FirstTakes(schedule[0], pending));
      CapacityOfTail(schedule[0], schedule[1..]);
      assert schedule == [schedule[0]] + schedule[1..];
    }
  }

  /** A flush fails exactly when a write of nothing or a failure comes before everything is taken. */
  lemma FlushFailsIff(schedule: seq<WriteOutcome>, pending: nat)
    ensures FlushOf(schedule, pending).end.Refused? <==>
            exists k: nat :: StopsAt(schedule, k) && !schedule[k].WriteBlocked? && Capacity(schedule[..k]) < pending
    ensures FlushOf(schedule, pending).end == Emptied <==> FlushOf(schedule, pending).taken == pending
  {
    if k: nat :| StopsAt(schedule, k) {
      FlushEndsAt(schedule, pending, k);
      forall l: nat | StopsAt(schedule, l) ensures l == k {
        assert l < k ==> !StopsAt(schedule, k);
      }
    } else {
      FlushNeverStops(schedule, pending);
    }
  }

  /** What was taken is written, the rest is pending. */
  ghost predicate Flushed(start: seq<byte>, all: seq<byte>, taken: nat, written: seq<byte>, pending: seq<byte>) {
    taken <= |all| && written == start + all[..taken] && pending == all[taken..]
  }

  lemma FlushedMore(start: seq<byte>, all: seq<byte>, taken: nat, written: seq<byte>, pending: seq<byte>, count: nat)
    requires Flushed(start, all, taken, written, pending) && count <= |pending|
    ensures Flushed(start, all, taken + count, written + pending[..count], pending[count..])
  {}

  lemma FlushedConserves(start: seq<byte>, all: seq<byte>, taken: nat, written: seq<byte>, pending: seq<byte>)
    requires Flushed(start, all, taken, written, pending)
    ensures written + pending == start + all && start <= written
  {}

  /** A flush that has got so far ends as a flush of the rest does. */
  ghost predicate FlushLeft(schedule: seq<WriteOutcome>, pending: nat, taken: nat, used: nat, left: seq<WriteOutcome>) {
    && taken <= pending && used <= |schedule| && left == schedule[used..]
    && var f := FlushOf(left, pending - taken);
       FlushOf(schedule, pending) == Flush(taken + f.taken, f.end, used + f.used)
  }

  lemma FlushOneMore(schedule: seq<WriteOutcome>, pending: nat, taken: nat, used: nat, left: seq<WriteOutcome>)
    requires FlushLeft(schedule, pending, taken, used, left) && taken < pending
    ensures left == [] ==> FlushOf(schedule, pending) == Flush(taken, Stopped, used)
    ensures left != [] ==>
              match left[0]
              case WriteInterrupted => FlushLeft(schedule, pending, taken, used + 1, left[1..])
              case Took(count) =>
                var now := if count <= pending - taken then count else pending - taken;
                if count == 0 then FlushOf(schedule, pending) == Flush(taken, Refused(WriteZero), used + 1)
                else FlushLeft(schedule, pending, taken + now, used + 1, left[1..])
              case WriteBlocked => FlushOf(schedule, pending) == Flush(taken, Stopped, used + 1)
              case WriteFailed => FlushOf(schedule, pending) == Flush(taken, Refused(Broken), used + 1)
  {}

  // Reading.

  datatype Fill = Fill(bytes: seq<byte>, error: Option<IoError>, used: nat)

  /** What reading until nothing is there gives under this schedule. */
  function FillOf(schedule: seq<ReadOutcome>): (f: Fill)
    ensures f.used <= |schedule|
  {
    if schedule == [] then Fill([], None, 0)
    else
      match schedule[0]
      case ReadBlocked => Fill([], None, 1)
      case ReadFailed => Fill([], Some(Broken), 1)
      case Closed => Fill([], Some(ConnectionReset), 1)
      case ReadRetry =>
        var rest := FillOf(schedule[1..]);
        rest.(used := rest.used + 1)
      case Got(chunk) =>
        if chunk == [] then Fill([], Some(ConnectionReset), 1)
        else
          var rest := FillOf(schedule[1..]);
          Fill(chunk + rest.bytes, rest.error, rest.used + 1)
  }

  /** The outcome at `k` is the first that ends the reading. */
  predicate ReadingEndsAt(schedule: seq<ReadOutcome>, k: nat) {
    && k <= |schedule|
    && (k < |schedule| ==> !schedule[k].ReadRetry? && !(schedule[k].Got? && schedule[k].chunk != []))
    && forall j :: 0 <= j < k ==> schedule[j].ReadRetry? || (schedule[j].Got? && schedule[j].chunk != [])
  }

  function ChunksOf(schedule: seq<ReadOutcome>): seq<byte> {
    if schedule == [] then []
    else (if schedule[0].Got? then schedule[0].chunk else []) + ChunksOf(schedule[1..])
  }

  /**
   Reading receives every chunk before the outcome that ends it; it is an error exactly when the peer
   closed the connection there or the read failed.
   */
  lemma {:induction false} FillEndsAt(schedule: seq<ReadOutcome>, k: nat)
    requires ReadingEndsAt(schedule, k)
    ensures FillOf(schedule).bytes == ChunksOf(schedule[..k])
    ensures FillOf(schedule).error ==
            if k == |schedule| || schedule[k].ReadBlocked? then None
            else if schedule[k].ReadFailed? then Some(Broken) else Some(ConnectionReset)
    decreases k
  {
    if k > 0 {
      FillEndsAt(schedule[1..], k - 1);
      assert schedule[..k] == [schedule[0]] + schedule[1..][..k - 1];
      assert ([schedule[0]] + schedule[1..][..k - 1])[1..] == schedule[1..][..k - 1];
    }
  }

  /** Reading that has got so far ends as reading the rest does. */
  ghost predicate FillLeft(schedule: seq<ReadOutcome>, bytes: seq<byte>, used: nat, left: seq<ReadOutcome>) {
    && used <= |schedule| && left == schedule[used..]
    && var f := FillOf(left);
       FillOf(schedule) == Fill(bytes + f.bytes, f.error, used + f.used)
  }

  lemma FillOneMore(schedule: seq<ReadOutcome>, bytes: seq<byte>, used: nat, left: seq<ReadOutcome>)
    requires FillLeft(schedule, bytes, used, left)
    ensures left == [] ==> FillOf(schedule) == Fill(bytes, None, used)
    ensures left != [] ==>
              match left[0]
              case ReadRetry => FillLeft(schedule, bytes, used + 1, left[1..])
              case ReadBlocked => FillOf(schedule) == Fill(bytes, None, used + 1)
              case ReadFailed => FillOf(schedule) == Fill(bytes, Some(Broken), used + 1)
              case Closed => FillOf(schedule) == Fill(bytes, Some(ConnectionReset), used + 1)
              case Got(chunk) =>
                if chunk == [] then FillOf(schedule) == Fill(bytes, Some(ConnectionReset), used + 1)
                else FillLeft(schedule, bytes + chunk, used + 1, left[1..])
  {
    if left == [] || !left[0].Got? || left[0].chunk == [] {
      assert bytes + [] == bytes;
    } else {
      var rest := FillOf(left[1..]).bytes;
      assert bytes + (left[0].chunk + rest) == bytes + left[0].chunk + rest;
    }
  }

  class Stream {
    var written: seq<byte>
    var writeSchedule: seq<WriteOutcome>
    var readSchedule: seq<ReadOutcome>
    ghost var received: seq<byte>

    constructor (writePlan: seq<WriteOutcome>, readPlan: seq<ReadOutcome>)
      ensures written == [] && received == [] && writeSchedule == writePlan && readSchedule == readPlan
    {
      written, received := [], [];
      writeSchedule, readSchedule := writePlan, readPlan;
    }

    /** One non-blocking write; a call past the end of the schedule would block. */
    method Write(data: seq<byte>) returns (outcome: WriteOutcome)
      modifies this`written, this`writeSchedule
      ensures outcome.Took? ==> outcome.count <= |data| && written == old(written) + data[..outcome.count]
      ensures !outcome.Took? ==> written == old(written)
      ensures old(writeSchedule) == [] ==> outcome == WriteBlocked && writeSchedule == []
      ensures old(writeSchedule) != [] ==>
                && writeSchedule == old(writeSchedule)[1..]
                && outcome == match old(writeSchedule)[0]
                              case Took(count) => Took(if count <= |data| then count else |data|)
                              case other => other
    {
      if writeSchedule == [] {
        return WriteBlocked;
      }
      outcome := writeSchedule[0];
      writeSchedule := writeSchedule[1..];
      if outcome.Took? {
        outcome := Took(if outcome.count <= |data| then outcome.count else |data|);
        written := written + data[..outcome.count];
      }
    }

    /** One non-blocking read; an empty chunk means that the peer closed the connection. */
    method Read() returns (outcome: ReadOutcome)
      modifies this`received, this`readSchedule
      ensures outcome.Got? ==> outcome.chunk != [] && received == old(received) + outcome.chunk
      ensures !outcome.Got? ==> received == old(received)
      ensures old(readSchedule) == [] ==> outcome == ReadBlocked && readSchedule == []
      ensures old(readSchedule) != [] ==>
                && readSchedule == old(readSchedule)[1..]
                && outcome == if old(readSchedule)[0] == Got([]) then Closed else old(readSchedule)[0]
    {
      if readSchedule == [] {
        return ReadBlocked;
      }
      outcome := readSchedule[0];
      readSchedule := readSchedule[1..];
      if outcome.Got? {
        if outcome.chunk == [] {
          outcome := Closed;
        } else {
          received := received + outcome.chunk;
        }
      }
    }
  }

  // ---------------------------------------------------------------------------
  // The write queue.
  // ---------------------------------------------------------------------------

  class PendingWrites {
    var bytes: seq<byte>
    var offset: nat
    const limit: nat

    constructor (limit: nat)
      ensures Valid() && Pending() == [] && this.limit == limit
    {
      bytes := [];
      offset := 0;
      this.limit := limit;
    }

    ghost predicate Valid()
      reads this
    {
      offset <= |bytes| <= limit
    }

    /** The framed bytes the kernel has not taken yet. */
    function Pending(): seq<byte>
      requires Valid()
      reads this
    {
      bytes[offset..]
    }

    /** Queue one frame whole, or refuse it and change nothing. */
    method EnqueueFrame(frame: seq<byte>) returns (result: Result<(), IoError>)
      requires Valid()
      modifies this
      ensures Valid()
      ensures result.Ok? <==> |frame| <= MAX_FRAME && |old(Pending())| + 2 + |frame| <= limit
      ensures result.Ok? ==> Pending() == old(Pending()) + EncodeFrame(frame)
      ensures result.Err? ==> unchanged(this)
      ensures result.Err? ==> result.error == if |frame| > 65535 then FrameTooLong else QueueFull
    {
      if |frame| > MAX_FRAME {
        return Err(FrameTooLong);
      }
      var encodedLen := 2 + |frame|;
      if |Pending()| + encodedLen > limit {
        return Err(QueueFull);
      }
      Compact();
      bytes := bytes + [|frame| / 256, |frame| % 256];
      bytes := bytes + frame;
      result := Ok(());
    }

    /** Write as much as the stream takes: what it took and what is left are the old queue. */
    method FlushTo(stream: Stream) returns (result: Result<(), IoError>)
      requires Valid()
      modifies this, stream`written, stream`writeSchedule
      ensures Valid()
      ensures stream.written + Pending() == old(stream.written + Pending())
      ensures old(stream.written) <= stream.written
      ensures result.Err? ==> result.error.WriteZero? || result.error.Broken?
      ensures var f := FlushOf(old(stream.writeSchedule), |old(Pending())|);
              && stream.written == old(stream.written) + old(Pending())[..f.taken]
              && Pending() == old(Pending())[f.taken..]
              && stream.writeSchedule == old(stream.writeSchedule)[f.used..]
              && result == if f.end.Refused? then Err(f.end.error) else Ok(())
    {
      result := WriteAll(stream);
      FlushedConserves(old(stream.written), old(Pending()),
                       FlushOf(old(stream.writeSchedule), |old(Pending())|).taken, stream.written, Pending());
    }

    /** The loop of `FlushTo`. */
    method WriteAll(stream: Stream) returns (result: Result<(), IoError>)
      requires Valid()
      modifies this, stream`written, stream`writeSchedule
      ensures Valid()
      ensures var f := FlushOf(old(stream.writeSchedule), |old(Pending())|);
              && Flushed(old(stream.written), old(Pending()), f.taken, stream.written, Pending())
              && stream.writeSchedule == old(stream.writeSchedule)[f.used..]
              && result == if f.end.Refused? then Err(f.end.error) else Ok(())
    {
      ghost var schedule, all, start := stream.writeSchedule, Pending(), stream.written;
      ghost var taken, used: nat := 0, 0;
      while offset < |bytes|
        invariant Valid()
        invariant Flushed(start, all, taken, stream.written, Pending())
        invariant FlushLeft(schedule, |all|, taken, used, stream.writeSchedule)
        decreases |stream.writeSchedule|, |bytes| - offset
      {
        ghost var left, queue, written := stream.writeSchedule, Pending(), stream.written;
        var outcome := stream.Write(bytes[offset..]);
        FlushOneMore(schedule, |all|, taken, used, left);
        if left != [] {
          used := used + 1;
        }
        match outcome {
          case Took(count) =>
            FlushedMore(start, all, taken, written, queue, count);
            if count == 0 {
              return Err(WriteZero);
            }
            offset := offset + count;
            taken := taken + count;
          case WriteInterrupted =>
          case WriteBlocked => return Ok(());
          case WriteFailed => return Err(Broken);
        }
      }
      bytes := [];
      offset := 0;
      result := Ok(());
    }

    method Compact()
      requires Valid()
      modifies this
      ensures Valid() && offset == 0
      ensures Pending() == old(Pending())
    {
      if offset == 0 {
        return;
      }
      if |Pending()| == 0 {
        bytes := [];
      } else {
        bytes := bytes[offset..];
      }
      offset := 0;
    }
  }

  // ---------------------------------------------------------------------------
  // A connection: queued frames out, assembled frames in.
  // ---------------------------------------------------------------------------

  datatype Queued = Queued(accepted: bool, error: Option<IoError>, taken: nat, used: nat)

  /** What was pending is flushed, the frame is queued if it may be, and the queue is flushed again. */
  function Queueing(schedule: seq<WriteOutcome>, pending: nat, length: nat, limit: nat): (q: Queued)
    ensures q.used <= |schedule|
  {
    var first := FlushOf(schedule, pending);
    if first.end.Refused? then Queued(false, Some(first.end.error), first.taken, first.used)
    else if length > MAX_FRAME then Queued(false, Some(FrameTooLong), first.taken, first.used)
    else if pending - first.taken + 2 + length > limit then Queued(false, Some(QueueFull), first.taken, first.used)
    else
      var second := FlushOf(schedule[first.used..], pending - first.taken + 2 + length);
      Queued(true, if second.end.Refused? then Some(second.end.error) else None, first.taken + second.taken,
             first.used + second.used)
  }

  class ConnState {
    const stream: Stream
    const pendingWrites: PendingWrites
    var readBuf: seq<byte>
    ghost var accepted: seq<Frame>   // every frame the queue accepted
    ghost var delivered: seq<Frame>  // every frame returned to the caller

    constructor (stream: Stream)
      requires stream.written == [] && stream.received == []
      ensures Valid() && fresh(pendingWrites) && this.stream == stream
      ensures accepted == [] && delivered == [] && pendingWrites.limit == 16 * 1024 * 1024
    {
      this.stream := stream;
      pendingWrites := new PendingWrites(MAX_PENDING_WRITE_BYTES);
      readBuf := [];
      accepted, delivered := [], [];
    }

    /** Conservation in both directions: no byte of a frame is lost, repeated or reordered. */
    ghost predicate Valid()
      reads this, stream, pendingWrites
    {
      WriteSide() && ReadSide()
    }

    ghost predicate WriteSide()
      reads this`accepted, stream`written, pendingWrites
    {
      pendingWrites.Valid() && stream.written + pendingWrites.Pending() == EncodeAll(accepted)
    }

    ghost predicate ReadSide()
      reads this`readBuf, this`delivered, stream`received
    {
      Frames(stream.received) == delivered + Frames(readBuf) && Leftover(stream.received) == Leftover(readBuf)
    }

    method QueueFrame(frame: seq<byte>) returns (result: Result<(), IoError>)
      requires Valid()
      modifies this`accepted, pendingWrites, stream`written, stream`writeSchedule
      ensures Valid()
      ensures old(stream.written) <= stream.written
      ensures accepted == old(accepted) || (|frame| <= MAX_FRAME && accepted == old(accepted) + [frame])
      ensures result.Ok? ==> |frame| <= MAX_FRAME && accepted == old(accepted) + [frame]
      ensures result.Err? && (result.error.FrameTooLong? || result.error.QueueFull?) ==> accepted == old(accepted)
      ensures var q := Queueing(old(stream.writeSchedule), |old(pendingWrites.Pending())|, |frame|,
                                pendingWrites.limit);
              && (accepted != old(accepted) <==> q.accepted)
              && result == (if q.error.Some? then Err(q.error.value) else Ok(()))
              && |stream.written| == |old(stream.written)| + q.taken
              && stream.writeSchedule == old(stream.writeSchedule)[q.used..]
    {
      result := pendingWrites.FlushTo(stream);
      if result.Err? {
        return;
      }
      result := Enqueue(frame);
      if result.Err? {
        return;
      }
      result := pendingWrites.FlushTo(stream);
    }

    method Enqueue(frame: seq<byte>) returns (result: Result<(), IoError>)
      requires WriteSide()
      modifies this`accepted, pendingWrites
      ensures WriteSide()
      ensures result.Ok? ==> |frame| <= MAX_FRAME && accepted == old(accepted) + [frame]
      ensures result.Err? ==> accepted == old(accepted)
      ensures |pendingWrites.Pending()| == |old(pendingWrites.Pending())| + if result.Ok? then 2 + |frame| else 0
      ensures result.Ok? <==>
                |frame| <= MAX_FRAME && |old(pendingWrites.Pending())| + 2 + |frame| <= pendingWrites.limit
      ensures result.Err? ==> result.error == if |frame| > MAX_FRAME then FrameTooLong else QueueFull
    {
      ghost var pending := pendingWrites.Pending();
      result := pendingWrites.EnqueueFrame(frame);
      if result.Ok? {
        AcceptOne(accepted, frame, stream.written, pending);
        accepted := accepted + [frame];
      }
    }

    /** Move everything the socket has into the read buffer. */
    method FillReadBuffer() returns (result: Result<(), IoError>)
      requires ReadSide()
      modifies this`readBuf, stream`received, stream`readSchedule
      ensures ReadSide()
      ensures var f := FillOf(old(stream.readSchedule));
              && stream.received == old(stream.received) + f.bytes && readBuf == old(readBuf) + f.bytes
              && stream.readSchedule == old(stream.readSchedule)[f.used..]
              && result == if f.error.Some? then Err(f.error.value) else Ok(())
    {
      result := ReadAll();
      FramesOfTail(old(stream.received), old(readBuf), FillOf(old(stream.readSchedule)).bytes);
    }

    method ReadAll() returns (result: Result<(), IoError>)
      modifies this`readBuf, stream`received, stream`readSchedule
      ensures var f := FillOf(old(stream.readSchedule));
              && stream.received == old(stream.received) + f.bytes && readBuf == old(readBuf) + f.bytes
              && stream.readSchedule == old(stream.readSchedule)[f.used..]
              && result == if f.error.Some? then Err(f.error.value) else Ok(())
    {
      ghost var schedule := stream.readSchedule;
      ghost var bytes: seq<byte>, used: nat := [], 0;
      while true
        invariant stream.received == old(stream.received) + bytes && readBuf == old(readBuf) + bytes
        invariant FillLeft(schedule, bytes, used, stream.readSchedule)
        decreases |stream.readSchedule|
      {
        if stream.readSchedule == [] {
          return Ok(());
        }
        ghost var left := stream.readSchedule;
        var outcome := stream.Read();
        FillOneMore(schedule, bytes, used, left);
        used := used + 1;
        match outcome {
          case Closed => return Err(ConnectionReset);
          case Got(chunk) =>
            readBuf := readBuf + chunk;
            bytes := bytes + chunk;
          case ReadBlocked => return Ok(());
          case ReadRetry =>
          case ReadFailed => return Err(Broken);
        }
      }
    }

    /**
     Assemble at most one frame. `Ok(None)` means that every complete frame
     received so far has been returned.
     */
    method TryReadFrame() returns (result: Result<Option<Frame>, IoError>)
      requires Valid()
      modifies this`readBuf, this`delivered, pendingWrites, stream
      ensures Valid()
      ensures old(stream.written) <= stream.written
      ensures delivered == old(delivered) + (if result.Ok? && result.value.Some? then [result.value.value] else [])
      ensures delivered <= Frames(stream.received)
      ensures result == Ok(None) ==> delivered == Frames(stream.received)
      ensures var flush := FlushOf(old(stream.writeSchedule), |old(pendingWrites.Pending())|);
              var fill := FillOf(old(stream.readSchedule));
              && |stream.written| == |old(stream.written)| + flush.taken
              && stream.received == old(stream.received) + (if flush.end.Refused? then [] else fill.bytes)
              && (result.Err? <==> flush.end.Refused? || fill.error.Some?)
              && (result.Err? ==> result.error == if flush.end.Refused? then flush.end.error else fill.error.value)
    {
      var flushed := pendingWrites.FlushTo(stream);
      if flushed.Err? {
        return Err(flushed.error);
      }
      var filled := FillReadBuffer();
      if filled.Err? {
        return Err(filled.error);
      }
      if |readBuf| < 2 {
        return Ok(None);
      }
      var frameLen := AnnouncedLength(readBuf);
      if |readBuf| < 2 + frameLen {
        return Ok(None);
      }
      var frame := TakeFrame();
      result := Ok(Some(frame));
    }

    /** Take the first frame out of the read buffer. */
    method TakeFrame() returns (frame: Frame)
      requires ReadSide() && HasFrame(readBuf)
      modifies this`readBuf, this`delivered
      ensures ReadSide()
      ensures delivered == old(delivered) + [frame]
    {
      var frameLen := AnnouncedLength(readBuf);
      frame := readBuf[2..2 + frameLen];
      readBuf := readBuf[2 + frameLen..];
      delivered := delivered + [frame];
    }
  }

  // ---------------------------------------------------------------------------
  // The Swift reader: each chunk is split into all its complete frames at once.
  // ---------------------------------------------------------------------------

  class SwiftReader {
    var tcpReadBuffer: seq<byte>
    var delivered: seq<Frame>      // the frames passed to the frame handler
    ghost var received: seq<byte>

    constructor ()
      ensures Valid() && received == []
    {
      tcpReadBuffer, delivered, received := [], [], [];
    }

    ghost predicate Valid()
      reads this
    {
      delivered == Frames(received) && tcpReadBuffer == Leftover(received)
    }

    method Receive(content: seq<byte>)
      requires Valid()
      modifies this
      ensures Valid() && received == old(received) + content
    {
      FramesOfChunks(received, content);
      received := received + content;
      tcpReadBuffer := tcpReadBuffer + content;
      DeliverTCPFrames();
    }

    method DeliverTCPFrames()
      modifies this`tcpReadBuffer, this`delivered
      ensures delivered == old(delivered) + Frames(old(tcpReadBuffer))
      ensures tcpReadBuffer == Leftover(old(tcpReadBuffer))
    {
      while |tcpReadBuffer| >= 2
        invariant delivered + Frames(tcpReadBuffer) == old(delivered) + Frames(old(tcpReadBuffer))
        invariant Leftover(tcpReadBuffer) == Leftover(old(tcpReadBuffer))
        decreases |tcpReadBuffer|
      {
        var length := AnnouncedLength(tcpReadBuffer);
        if |tcpReadBuffer| < 2 + length {
          return;
        }
        var payloadEnd := 2 + length;
        delivered := delivered + [tcpReadBuffer[2..payloadEnd]];
        tcpReadBuffer := tcpReadBuffer[payloadEnd..];
      }
    }
  }

  /** The frame encoder of the Swift writer; its length field traps past 65535 bytes. */
  method TcpFrame(frame: seq<byte>) returns (output: seq<byte>)
    requires |frame| <= MAX_FRAME
    ensures output == EncodeFrame(frame)
  {
    output := [|frame| / 256, |frame| % 256];
    output := output + frame;
  }

  /**
   End to end: a reader that has received a prefix of what a connection wrote has
   been given a prefix of the frames the connection accepted, and all of them
   once every byte is through.
   */
  lemma ReaderSeesAcceptedFrames(accepted: seq<Frame>, written: seq<byte>, pending: seq<byte>, received: seq<byte>)
    requires written + pending == EncodeAll(accepted)
    requires received <= written
    ensures Frames(received) <= accepted
    ensures received == written && pending == [] ==> Frames(received) == accepted
  {
    assert written == EncodeAll(accepted)[..|written|];
    assert received <= EncodeAll(accepted);
    PrefixOfStream(accepted, received);
    assert pending == [] ==> written + pending == written;
  }
}
