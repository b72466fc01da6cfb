/**
 The response reader of cmd/foci-call/main.go:31-99: one line is read in slices of a 64 KiB buffer, under a cap
 on what is accepted and a larger bound on what is measured.
*/
module ResponseLine {
  import opened Wrappers
  import opened ByteStreams

  const CHUNK: nat := 0x1_0000
  const CAP: nat := 0x10_0000
  const MEASURE: nat := 16 * CAP

  /** What ends the connection's data: a close, or a failure. */
  datatype End = Eof | Failed

  datatype Response = Line(bytes: Bytes) | TooLarge(size: nat, approx: bool) | Closed | Broken

  function IndexOf(s: Bytes, x: byte): (i: Option<nat>)
    ensures i.None? <==> x !in s
    ensures i.Some? ==> i.value < |s| && s[i.value] == x && x !in s[..i.value]
  {
    if s == [] then None
    else if s[0] == x then Some(0)
    else
      var i := IndexOf(s[1..], x);
      assert s == [s[0]] + s[1..];
      if i.None? then None
      else
        assert s[..i.value + 1] == [s[0]] + s[1..][..i.value];
        Some(i.value + 1)
  }

  lemma {:induction false} IndexIs(s: Bytes, x: byte, n: nat)
    requires n < |s| && s[n] == x && x !in s[..n]
    ensures IndexOf(s, x) == Some(n)
  {
    if n > 0 {
      assert s[..n] == [s[0]] + s[1..][..n - 1];
      IndexIs(s[1..], x, n - 1);
    }
  }

  lemma NotInPrefix(s: Bytes, x: byte, k: nat)
    requires k <= |s| && (IndexOf(s, x).Some? ==> IndexOf(s, x).value >= k)
    ensures x !in s[..k]
  {
    forall j | 0 <= j < k ensures s[j] != x {
      if IndexOf(s, x).Some? {
        assert s[j] in s[..IndexOf(s, x).value];
      }
    }
  }

  function DropCR(s: Bytes): Bytes {
    if s != [] && s[|s| - 1] == CR then s[..|s| - 1] else s
  }

  function Capped(s: Bytes): Response {
    if |s| > CAP then TooLarge(|s|, false) else Line(s)
  }

  /** What a reader of unlimited memory would answer from the whole data. */
  function Answer(data: Bytes, end: End): Response {
    if |data| >= MEASURE + CHUNK && LF !in data[..MEASURE + CHUNK] then TooLarge(MEASURE + CHUNK, true)
    else if LF in data then Capped(DropCR(data[..IndexOf(data, LF).value]))
    else if end.Failed? then Broken
    else if data == [] then Closed
    else Capped(data)
  }

  // ---- The reader ----

  datatype SliceError = NoError | BufferFull | Ended(end: End)

  datatype Slice = Slice(bytes: Bytes, error: SliceError)

  /** bufio.Reader.ReadSlice('\n') over a buffer of CHUNK bytes, on a connection that reports its end by a read of its
      own. */
  function ReadSlice(rest: Bytes, end: End): (r: Slice)
    ensures r.bytes <= rest && |r.bytes| <= CHUNK
    ensures r.error.NoError? <==> LF in r.bytes
    ensures r.error.NoError? ==> r.bytes == rest[..|r.bytes| - 1] + [LF] && LF !in rest[..|r.bytes| - 1]
    ensures r.error.BufferFull? ==> |r.bytes| == CHUNK
    ensures r.error.Ended? ==> r.bytes == rest && |rest| < CHUNK && r.error.end == end
  {
    var i := IndexOf(rest, LF);
    if i.Some? && i.value < CHUNK then Slice(rest[..i.value + 1], NoError)
    else if |rest| >= CHUNK then
      NotInPrefix(rest, LF, CHUNK);
      Slice(rest[..CHUNK], BufferFull)
    else Slice(rest, Ended(end))
  }

  /** What the reader makes of its buffer after a slice; None: read on. */
  function Conclude(buf: Bytes, error: SliceError): (r: Option<Response>)
    requires error.NoError? ==> buf != []
  {
    match error
    case NoError => Some(Capped(DropCR(buf[..|buf| - 1])))
    case BufferFull => if |buf| > MEASURE then Some(TooLarge(|buf|, true)) else None
    case Ended(Failed) => Some(Broken)
    case Ended(Eof) => Some(if |buf| == 0 then Closed else Capped(buf))
  }

  /** However the data falls into slices, the answer is that of the whole; and the buffer, which only grows, ends no
      larger than the measured bound and one slice. */
  method ReadResponseLine(data: Bytes, end: End) returns (r: Response, ghost used: nat)
    ensures r == Answer(data, end)
    ensures used <= MEASURE + CHUNK
  {
    var buf: Bytes := [];
    ghost var slices := 0;
    while true
      invariant Gathered(data, buf, slices)
      decreases |data| - |buf|
    {
      var slice := ReadSlice(data[|buf|..], end);
      OneMoreSlice(data, end, buf, slice, slices);
      buf, slices := buf + slice.bytes, slices + 1;
      used := |buf|;
      var conclusion := Conclude(buf, slice.error);
      if conclusion.Some? {
        return conclusion.value, used;
      }
    }
  }

  /** What has been read so far: whole slices without a line feed, within the measured bound. */
  ghost predicate Gathered(data: Bytes, buf: Bytes, slices: nat) {
    buf <= data && LF !in buf && slices <= 256 && |buf| == slices * CHUNK
  }

  /** With the buffer grown from `before` to `buf`: it is within the bound, and either the conclusion is the answer, or
      the reading goes on. */
  ghost predicate Concludes(data: Bytes, end: End, before: Bytes, buf: Bytes, error: SliceError, slices: nat) {
    && (error.NoError? ==> buf != [])
    && |buf| <= MEASURE + CHUNK
    && (match Conclude(buf, error)
        case Some(r) => r == Answer(data, end)
        case None => Gathered(data, buf, slices + 1) && |buf| > |before|)
  }

  lemma OneMoreSlice(data: Bytes, end: End, before: Bytes, slice: Slice, slices: nat)
    requires Gathered(data, before, slices) && slice == ReadSlice(data[|before|..], end)
    ensures Concludes(data, end, before, before + slice.bytes, slice.error, slices)
  {
    match slice.error
    case NoError => LineSlice(data, end, before, slice.bytes, slices);
    case BufferFull => FullSlice(data, end, before, slice.bytes, slices);
    case Ended(_) => LastSlice(data, end, before, slices);
  }

  lemma GrowsWithin(data: Bytes, before: Bytes, chunk: Bytes)
    requires before <= data && chunk <= data[|before|..]
    ensures before + chunk <= data
  {
    assert data == before + data[|before|..];
  }

  lemma FullSlice(data: Bytes, end: End, before: Bytes, chunk: Bytes, slices: nat)
    requires Gathered(data, before, slices) && chunk <= data[|before|..] && |chunk| == CHUNK && LF !in chunk
    ensures Concludes(data, end, before, before + chunk, BufferFull, slices)
  {
    GrowsWithin(data, before, chunk);
    assert before + chunk == data[..|before + chunk|];
  }

  lemma LastSlice(data: Bytes, end: End, before: Bytes, slices: nat)
    requires Gathered(data, before, slices) && LF !in data[|before|..] && |data[|before|..]| < CHUNK
    ensures Concludes(data, end, before, before + data[|before|..], Ended(end), slices)
  {
    assert before + data[|before|..] == data;
  }

  lemma LineSlice(data: Bytes, end: End, before: Bytes, chunk: Bytes, slices: nat)
    requires Gathered(data, before, slices) && chunk <= data[|before|..] && |chunk| <= CHUNK
    requires chunk != [] && chunk[|chunk| - 1] == LF && LF !in chunk[..|chunk| - 1]
    ensures Concludes(data, end, before, before + chunk, NoError, slices)
  {
    GrowsWithin(data, before, chunk);
    LineFound(data, end, before, chunk);
  }

  lemma LineFound(data: Bytes, end: End, before: Bytes, chunk: Bytes)
    requires before + chunk <= data && LF !in before && |before| <= MEASURE && |chunk| <= CHUNK
    requires chunk != [] && chunk[|chunk| - 1] == LF && LF !in chunk[..|chunk| - 1]
    ensures
      var buf := before + chunk;
      Answer(data, end) == Capped(DropCR(buf[..|buf| - 1]))
  {
    var n := |before + chunk| - 1;
    assert data[n] == LF;
    assert (before + chunk)[..n] == before + chunk[..|chunk| - 1];
    assert (before + chunk)[..n] == data[..n];
    IndexIs(data, LF, n);
    if |data| >= MEASURE + CHUNK {
      assert data[..MEASURE + CHUNK][n] == LF;
    }
  }

  // ---- What the answer means ----

  /** What is sent as a line is what is read: the text before the first line feed, whatever follows it, with a
      carriage return dropped if the sender ended the line in one. In bytes, these are 10 and 13. */
  lemma LineRoundTrip(line: Bytes, cr: bool, rest: Bytes, end: End)
    requires LF !in line && |line| <= CAP && (line != [] ==> line[|line| - 1] != CR)
    ensures Answer(line + (if cr then [13, 10] else [10]) + rest, end) == Line(line)
  {
    var before := line + (if cr then [CR] else []);
    var data := line + (if cr then [CR, LF] else [LF]) + rest;
    assert data[..|before|] == before;
    IndexIs(data, LF, |before|);
    if |data| >= MEASURE + CHUNK {
      assert data[..MEASURE + CHUNK][|before|] == LF;
    }
    assert DropCR(before) == line;
  }

  /** An accepted line is within the cap and holds no line feed. It is either terminated in the data, with at most one
      carriage return dropped, or the whole tail of a connection that closed. */
  lemma AcceptedIsALine(data: Bytes, end: End)
    requires Answer(data, end).Line?
    ensures
      var line := Answer(data, end).bytes;
      && |line| <= 1024 * 1024 && LF !in line
      && (if LF in data then line + [LF] <= data || line + [CR, LF] <= data else line == data && end.Eof? && data != [])
  {
    if LF in data {
      var n := IndexOf(data, LF).value;
      var line := DropCR(data[..n]);
      if |line| < n {
        assert data[..n + 1] == line + [CR, LF];
      } else {
        assert data[..n + 1] == line + [LF];
      }
    }
  }

  /** The text that the size of a rejected response is about. */
  function Text(data: Bytes): Bytes {
    if LF in data then DropCR(data[..IndexOf(data, LF).value]) else data
  }

  /** An exact size is the true one, and over the cap. An approximate one is over the measured bound and at most one
      byte, a carriage return, more than the true one: the text is at least that long, not always longer. */
  lemma SizesAreHonest(data: Bytes, end: End)
    requires Answer(data, end).TooLarge?
    ensures
      var r := Answer(data, end);
      if r.approx then r.size == MEASURE + CHUNK > MEASURE && |Text(data)| + 1 >= r.size
      else r.size == |Text(data)| > CAP && r.size < MEASURE + CHUNK
  {
    if LF in data {
      var n := IndexOf(data, LF).value;
      if |data| >= MEASURE + CHUNK {
        if n < MEASURE + CHUNK {
          assert data[..MEASURE + CHUNK][n] == LF;
        } else {
          NotInPrefix(data, LF, MEASURE + CHUNK);
        }
      }
    }
  }

  /** When there is no line: an approximate size exactly when the bytes measured hold no line feed; a closed connection
      exactly when it closes without a byte; a broken one exactly when it fails before a line feed. */
  lemma NoLineExactly(data: Bytes, end: End)
    ensures
      var r, n := Answer(data, end), 16 * 1024 * 1024 + 64 * 1024;
      var unmeasured := |data| >= n && forall i | 0 <= i < n :: data[i] != 10;
      && (r == TooLarge(n, true) <==> unmeasured)
      && (r.TooLarge? && r.approx ==> r.size == n)
      && (r == Closed <==> data == [] && end == Eof)
      && (r == Broken <==> !unmeasured && (forall i | 0 <= i < |data| :: data[i] != 10) && end == End.Failed)
  {
    var n := MEASURE + CHUNK;
    if |data| >= n {
      assert forall i | 0 <= i < n :: data[..n][i] == data[i];
    }
  }

  /** Nothing but a line feed, or the carriage return and line feed of a line's end, follows the bytes measured. */
  predicate MoreTextFollows(data: Bytes) {
    var n := MEASURE + CHUNK;
    && |data| > n && data[n] != LF
    && !(|data| > n + 1 && data[n] == CR && data[n + 1] == LF)
  }

  /** The message's "more than" is true of an approximate size exactly when more text follows the bytes measured. */
  lemma MoreThanExactly(data: Bytes, end: End)
    requires Answer(data, end) == TooLarge(MEASURE + CHUNK, true)
    ensures |Text(data)| > MEASURE + CHUNK <==> MoreTextFollows(data)
  {
    var n := MEASURE + CHUNK;
    forall j | 0 <= j < n ensures data[j] != LF {
      assert data[..n][j] == data[j];
    }
    if LF in data {
      if |data| > n && data[n] == LF {
        IndexIs(data, LF, n);
      } else if |data| > n + 1 && data[n] == CR && data[n + 1] == LF {
        assert data[..n + 1] == data[..n] + [CR];
        IndexIs(data, LF, n + 1);
      }
    }
  }

  /** A text one byte short of its announced size, and one that just has it. */
  lemma NotAlwaysMore(cr: bool) returns (data: Bytes)
    ensures Answer(data, Eof) == TooLarge(MEASURE + CHUNK, true)
    ensures |Text(data)| == if cr then MEASURE + CHUNK - 1 else MEASURE + CHUNK
  {
    var n := MEASURE + CHUNK;
    var last: byte := if cr then CR else SOH;
    var text := seq(n - 1, i => SOH) + [last];
    data := text + [LF];
    assert data[..n] == text;
    IndexIs(data, LF, n);
  }

  /** Every response within the cap that reaches the reader whole is accepted: only a size over the cap is rejected. */
  lemma OnlyTooLargeIsRejected(data: Bytes, end: End)
    requires data != [] && (LF in data || end.Eof?)
    ensures Answer(data, end).Line? <==> |Text(data)| <= 1024 * 1024
  {
    if |Text(data)| <= CAP && |data| >= MEASURE + CHUNK {
      assert LF in data;
      assert data[..MEASURE + CHUNK][IndexOf(data, LF).value] == LF;
    }
  }
}
