/** The read loop of a session: a fixed-size header that carries the length of the body, then the body. */
module Framing {
  import opened Basics

  /** The external header codec: the size of a header and the body length it carries. */
  datatype Codec = Codec(headerSize: nat, bodyLength: seq<Byte> -> nat)

  /** The bytes of one request; its command and content are functions of them. */
  datatype Frame = Frame(header: seq<Byte>, body: seq<Byte>)

  predicate WellFramed(c: Codec, f: Frame) {
    |f.header| == c.headerSize && |f.body| == c.bodyLength(f.header)
  }

  function FrameBytes(f: Frame): seq<Byte> { f.header + f.body }

  function Bytes(frames: seq<Frame>): seq<Byte> {
    if frames == [] then [] else Bytes(frames[..|frames| - 1]) + FrameBytes(frames[|frames| - 1])
  }

  /** The coroutine suspended in an async_read: of a header, or of the body announced by the header. */
  datatype Reader =
    | ReadingHeader(part: seq<Byte>, dispatched: seq<Frame>)
    | ReadingBody(header: seq<Byte>, part: seq<Byte>, dispatched: seq<Frame>)

  const START := ReadingHeader([], [])

  /** How many bytes the current async_read still waits for. */
  function Owed(c: Codec, r: Reader): int {
    (if r.ReadingHeader? then c.headerSize else c.bodyLength(r.header)) - |r.part|
  }

  /** Resumes the coroutine as long as the current read is complete; an empty body completes at once. */
  function Resume(c: Codec, r: Reader): Reader
    requires c.headerSize > 0
    decreases if r.ReadingHeader? then 1 else 0
  {
    if Owed(c, r) > 0 then r
    else if r.ReadingHeader? && r.part != [] then Resume(c, ReadingBody(r.part, [], r.dispatched))
    else if r.ReadingBody? then ReadingHeader([], r.dispatched + [Frame(r.header, r.part)])
    else r
  }

  function Accept(c: Codec, r: Reader, b: Byte): Reader
    requires c.headerSize > 0
  {
    Resume(c, r.(part := r.part + [b]))
  }

  /** The state after a stream of bytes. */
  function Feed(c: Codec, r: Reader, bytes: seq<Byte>): Reader
    requires c.headerSize > 0
  {
    if bytes == [] then r
    else Accept(c, Feed(c, r, bytes[..|bytes| - 1]), bytes[|bytes| - 1])
  }

  lemma {:induction false} FeedConcat(c: Codec, r: Reader, a: seq<Byte>, b: seq<Byte>)
    requires c.headerSize > 0
    ensures Feed(c, r, a + b) == Feed(c, Feed(c, r, a), b)
  {
    if b == [] {
      assert a + b == a;
    } else {
      var n := |b| - 1;
      assert (a + b)[..|a| + n] == a + b[..n];
      FeedConcat(c, r, a, b[..n]);
    }
  }

  /** Every state the loop can be suspended in: some bytes are owed. */
  predicate Suspended(c: Codec, r: Reader) {
    && Owed(c, r) > 0
    && (r.ReadingBody? ==> |r.header| == c.headerSize)
    && forall f :: f in r.dispatched ==> WellFramed(c, f)
  }

  function Pending(r: Reader): seq<Byte> { if r.ReadingHeader? then r.part else r.header + r.part }

  lemma AcceptConserves(c: Codec, r: Reader, b: Byte)
    requires c.headerSize > 0 && Suspended(c, r)
    ensures var r' := Accept(c, r, b);
      && Suspended(c, r') && r.dispatched <= r'.dispatched
      && Bytes(r'.dispatched) + Pending(r') == Bytes(r.dispatched) + Pending(r) + [b]
  {
    hide Bytes;
    var more := r.(part := r.part + [b]);
    if Owed(c, more) == 0 {
      if r.ReadingHeader? {
        var body := ReadingBody(more.part, [], r.dispatched);
        if c.bodyLength(more.part) == 0 { DispatchConserves(c, body); }
      } else {
        DispatchConserves(c, more);
      }
    }
  }

  lemma DispatchConserves(c: Codec, r: Reader)
    requires c.headerSize > 0 && r.ReadingBody? && Owed(c, r) == 0 && |r.header| == c.headerSize
    requires forall f :: f in r.dispatched ==> WellFramed(c, f)
    ensures Suspended(c, Resume(c, r)) && r.dispatched <= Resume(c, r).dispatched
    ensures Bytes(Resume(c, r).dispatched) + Pending(Resume(c, r)) == Bytes(r.dispatched) + Pending(r)
  {
    var frame := Frame(r.header, r.part);
    assert (r.dispatched + [frame])[..|r.dispatched|] == r.dispatched;
    assert Bytes(r.dispatched + [frame]) == Bytes(r.dispatched) + FrameBytes(frame);
  }

  /** Nothing is lost or read twice, for any bytes at all: the frames dispatched and the part read so far are
      exactly the bytes received, every dispatched frame has the body length of its header, and the loop always
      waits for at least one more byte. */
  lemma {:induction false} BytesConserved(c: Codec, bytes: seq<Byte>)
    requires c.headerSize > 0
    ensures var r := Feed(c, START, bytes);
      Suspended(c, r) && Bytes(r.dispatched) + Pending(r) == bytes
  {
    if bytes != [] {
      var n := |bytes| - 1;
      BytesConserved(c, bytes[..n]);
      AcceptConserves(c, Feed(c, START, bytes[..n]), bytes[n]);
      assert bytes == bytes[..n] + [bytes[n]];
    }
  }

  /** Bytes that do not complete the current read only accumulate. */
  lemma {:induction false} FeedPart(c: Codec, r: Reader, bytes: seq<Byte>)
    requires c.headerSize > 0 && |bytes| < Owed(c, r)
    ensures Feed(c, r, bytes) == r.(part := r.part + bytes)
  {
    if bytes != [] {
      var n := |bytes| - 1;
      FeedPart(c, r, bytes[..n]);
      assert r.part + bytes[..n] + [bytes[n]] == r.part + bytes;
    } else {
      assert r.part + bytes == r.part;
    }
  }

  /** The bytes that complete the current read resume the coroutine. */
  lemma {:induction false} FeedRest(c: Codec, r: Reader, bytes: seq<Byte>)
    requires c.headerSize > 0 && |bytes| == Owed(c, r) > 0
    ensures Feed(c, r, bytes) == Resume(c, r.(part := r.part + bytes))
  {
    var n := |bytes| - 1;
    FeedPart(c, r, bytes[..n]);
    assert r.part + bytes[..n] + [bytes[n]] == r.part + bytes;
  }

  lemma FeedNothing(c: Codec, r: Reader)
    requires c.headerSize > 0
    ensures Feed(c, r, []) == r
  {
  }

  lemma ResumeHeader(c: Codec, header: seq<Byte>, dispatched: seq<Frame>)
    requires c.headerSize > 0 && |header| == c.headerSize
    ensures Resume(c, ReadingHeader(header, dispatched)) ==
              if c.bodyLength(header) == 0 then ReadingHeader([], dispatched + [Frame(header, [])])
              else ReadingBody(header, [], dispatched)
  {
  }

  lemma ResumeBody(c: Codec, f: Frame, dispatched: seq<Frame>)
    requires c.headerSize > 0 && WellFramed(c, f)
    ensures Resume(c, ReadingBody(f.header, f.body, dispatched)) == ReadingHeader([], dispatched + [f])
  {
  }

  lemma FeedFrame(c: Codec, dispatched: seq<Frame>, f: Frame)
    requires c.headerSize > 0 && WellFramed(c, f)
    ensures Feed(c, ReadingHeader([], dispatched), FrameBytes(f)) == ReadingHeader([], dispatched + [f])
  {
    hide Feed, Resume;
    var r := ReadingHeader([], dispatched);
    FeedConcat(c, r, f.header, f.body);
    assert r.part + f.header == f.header;
    FeedRest(c, r, f.header);
    ResumeHeader(c, f.header, dispatched);
    if f.body == [] {
      FeedNothing(c, Feed(c, r, f.header));
      assert f == Frame(f.header, []);
    } else {
      var body := ReadingBody(f.header, [], dispatched);
      assert body.part + f.body == f.body;
      FeedRest(c, body, f.body);
      ResumeBody(c, f, dispatched);
    }
  }

  lemma {:induction false} FeedFrames(c: Codec, frames: seq<Frame>)
    requires c.headerSize > 0 && forall f :: f in frames ==> WellFramed(c, f)
    ensures Feed(c, START, Bytes(frames)) == ReadingHeader([], frames)
  {
    if frames == [] {
      FeedNothing(c, START);
    } else {
      hide Feed;
      var n := |frames| - 1;
      FeedFrames(c, frames[..n]);
      FeedConcat(c, START, Bytes(frames[..n]), FrameBytes(frames[n]));
      FeedFrame(c, frames[..n], frames[n]);
      assert frames == frames[..n] + [frames[n]];
    }
  }

  /** Framing round trip: the bytes of any list of well-formed frames are dispatched as exactly those frames, in
      order, with nothing left over; and if more bytes follow, these frames still come first. */
  lemma RoundTrip(c: Codec, frames: seq<Frame>, more: seq<Byte>)
    requires c.headerSize > 0 && forall f :: f in frames ==> WellFramed(c, f)
    ensures Feed(c, START, Bytes(frames)) == ReadingHeader([], frames)
    ensures frames <= Feed(c, START, Bytes(frames) + more).dispatched
  {
    hide Feed, Bytes;
    FeedFrames(c, frames);
    FeedConcat(c, START, Bytes(frames), more);
    Extends(c, ReadingHeader([], frames), more);
  }

  lemma {:induction false} Extends(c: Codec, r: Reader, bytes: seq<Byte>)
    requires c.headerSize > 0 && Suspended(c, r)
    ensures Suspended(c, Feed(c, r, bytes)) && r.dispatched <= Feed(c, r, bytes).dispatched
  {
    if bytes != [] {
      Extends(c, r, bytes[..|bytes| - 1]);
      AcceptConserves(c, Feed(c, r, bytes[..|bytes| - 1]), bytes[|bytes| - 1]);
    }
  }

  /** The state after chunks received one by one. */
  function FeedChunks(c: Codec, r: Reader, parts: seq<seq<Byte>>): Reader
    requires c.headerSize > 0
  {
    if parts == [] then r else Feed(c, FeedChunks(c, r, parts[..|parts| - 1]), parts[|parts| - 1])
  }

  /** However the bytes of well-formed frames are cut into chunks, exactly those frames are dispatched, in order. */
  lemma {:induction false} AnyChunking(c: Codec, frames: seq<Frame>, parts: seq<seq<Byte>>)
    requires c.headerSize > 0
    ensures FeedChunks(c, START, parts) == Feed(c, START, Flatten(parts))
    ensures (forall f :: f in frames ==> WellFramed(c, f)) && Flatten(parts) == Bytes(frames) ==>
              FeedChunks(c, START, parts) == ReadingHeader([], frames)
    decreases |parts|
  {
    if parts != [] {
      var n := |parts| - 1;
      AnyChunking(c, [], parts[..n]);
      FeedConcat(c, START, Flatten(parts[..n]), parts[n]);
    }
    if forall f :: f in frames ==> WellFramed(c, f) { RoundTrip(c, frames, []); }
  }

  class ClientSession {
    const codec: Codec
    var reader: Reader   // the phase of the coroutine, its buffers, and the requests handed to the pool

    ghost predicate Valid()
      reads this
    {
      codec.headerSize > 0 && Suspended(codec, reader)
    }

    constructor (codec: Codec)
      requires codec.headerSize > 0
      ensures Valid() && this.codec == codec && reader == START
    {
      this.codec := codec;
      reader := START;
    }

    /** Bytes arrive in chunks of any size; each async_read takes exactly what it waits for and leaves the rest to
        the next one. */
    method Receive(chunk: seq<Byte>)
      requires Valid()
      modifies this
      ensures Valid() && reader == Feed(codec, old(reader), chunk)
    {
      hide Feed, Resume;
      var i := 0;
      FeedNothing(codec, reader);
      assert chunk[..0] == [];
      while i < |chunk|
        invariant i <= |chunk| && Valid()
        invariant reader == Feed(codec, old(reader), chunk[..i])
      {
        var owed := Owed(codec, reader);
        var take := if |chunk| - i < owed then |chunk| - i else owed;
        var piece := chunk[i..i + take];
        FeedConcat(codec, old(reader), chunk[..i], piece);
        assert chunk[..i] + piece == chunk[..i + take];
        Extends(codec, reader, piece);
        if take < owed {
          FeedPart(codec, reader, piece);
          reader := reader.(part := reader.part + piece);
        } else {
          FeedRest(codec, reader, piece);
          reader := Resume(codec, reader.(part := reader.part + piece));
        }
        i := i + take;
      }
      assert chunk[..i] == chunk;
    }

    /** A header read that fails is started again; the part read so far is dropped. */
    method HeaderError()
      requires Valid() && reader.ReadingHeader?
      modifies this
      ensures Valid() && reader == ReadingHeader([], old(reader.dispatched))
    {
      reader := ReadingHeader([], reader.dispatched);
    }
  }
}
