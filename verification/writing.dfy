/**
  The write adapter `Writer` of `src/lib.rs`. A writer owns one munger and
  the sink below it; that sink may itself be a writer, so a value of `Sink`
  is a stack of writers over a byte sink at the bottom.
 */
module Writing {
  import opened Bytes
  import opened Munger

  /** How many more bytes the bottom sink takes before it reports an error. */
  datatype Limit = Unlimited | Room(left: nat)

  /**
    A byte sink: a growing buffer at the bottom (like the `Vec<u8>` the
    writer tests use), or a `Writer` layered over another sink.
   */
  datatype Sink =
    | Base(written: seq<u8>, limit: Limit)
    | Writer(xorcism: Xorcism, inner: Sink)

  /** The sink after a call, and what the call reported. */
  datatype Written<+R> = Written(sink: Sink, result: Result<R>)

  /** `Writer::new`: a fresh munger over the given sink. */
  function NewWriter(key: seq<u8>, inner: Sink): (w: Sink)
    ensures w.Writer? && w.xorcism == New(key) && w.inner == inner
    ensures Delivered(w) == Delivered(inner)
  {
    Writer(New(key), inner)
  }

  function Depth(s: Sink): nat
  {
    match s
    case Base(_, _) => 0
    case Writer(_, inner) => 1 + Depth(inner)
  }

  /** The bytes that have reached the bottom of the stack. */
  function Delivered(s: Sink): seq<u8>
  {
    match s
    case Base(written, _) => written
    case Writer(_, inner) => Delivered(inner)
  }

  predicate Accepts(limit: Limit, n: nat)
  {
    limit.Unlimited? || n <= limit.left
  }

  /** The limit left once `n` accepted bytes have gone in. */
  function Spend(limit: Limit, n: nat): Limit
    requires Accepts(limit, n)
  {
    if limit.Unlimited? then Unlimited else Room(limit.left - n)
  }

  /** Two stacks with the same layers and the same keys; cursors and contents may differ. */
  predicate SameLayers(s: Sink, t: Sink)
  {
    match s
    case Base(_, _) => t.Base?
    case Writer(x, inner) => t.Writer? && t.xorcism.key == x.key && SameLayers(inner, t.inner)
  }

  lemma SameLayersReflexive(s: Sink)
    ensures SameLayers(s, s)
  {
  }

  /**
    `write_all` on a sink. At the bottom, the bytes that fit are appended
    and the call fails if not all of them fit. On a writer, an empty buffer
    is done without calling `write`; otherwise one `write` takes the whole
    buffer, because a writer's `write` reports the full length or fails.
   */
  function WriteAll(s: Sink, buf: seq<u8>): (w: Written<()>)
    ensures SameLayers(s, w.sink)
    ensures Delivered(s) <= Delivered(w.sink)
    ensures s.Base? ==> (w.result.Ok? <==> Accepts(s.limit, |buf|))
    ensures s.Base? && w.result.Ok? ==> w.sink == Base(s.written + buf, Spend(s.limit, |buf|))
    ensures s.Base? && w.result.Err? ==> w.sink == Base(s.written + buf[..s.limit.left], Room(0))
    decreases Depth(s), 1
  {
    match s
    case Base(written, limit) =>
      if Accepts(limit, |buf|) then
        Written(Base(written + buf, Spend(limit, |buf|)), Ok(()))
      else
        Written(Base(written + buf[..limit.left], Room(0)), Err(WriteFailed))
    case Writer(x, inner) =>
      if |buf| == 0 then SameLayersReflexive(s); Written(s, Ok(()))
      else
        var w := Write(x, inner, buf);
        Written(w.sink, if w.result.Ok? then Ok(()) else Err(w.result.error))
  }

  /**
    `Writer::write`: munges the whole buffer, which advances the cursor by
    its length, then hands the munged bytes to `write_all` on the inner
    sink. Success reports the full input length; a failure below is passed
    up, and the cursor is not rolled back.
   */
  function Write(x: Xorcism, inner: Sink, data: seq<u8>): (w: Written<nat>)
    ensures w.sink.Writer? && SameLayers(inner, w.sink.inner)
    ensures w.sink.xorcism.key == x.key && w.sink.xorcism.pos == x.pos + |data|
    ensures w.result.Ok? ==> w.result.value == |data|
    ensures Delivered(inner) <= Delivered(w.sink)
    ensures inner.Base? ==> (w.result.Ok? <==> Accepts(inner.limit, |Munge(x, data).out|))
    ensures inner.Base? && w.result.Ok? ==>
      var m := Munge(x, data);
      w.sink == Writer(m.state, Base(inner.written + m.out, Spend(inner.limit, |m.out|)))
    ensures inner.Base? && w.result.Err? ==>
      w.sink == Writer(Munge(x, data).state, Base(inner.written + Munge(x, data).out[..inner.limit.left], Room(0)))
    decreases Depth(inner) + 1, 0
  {
    var m := Munge(x, data);
    var below := WriteAll(inner, m.out);
    Written(Writer(m.state, below.sink), if below.result.Ok? then Ok(|data|) else Err(below.result.error))
  }

  /**
    Two writers that share a key and a cursor, stacked over a byte sink, as
    `xs1.writer(xs2.writer(sink))` builds them with `xs2` a clone of `xs1`.
   */
  function Lockstep(x: Xorcism, bottom: seq<u8>, limit: Limit): Sink
  {
    Writer(x, Writer(Clone(x), Base(bottom, limit)))
  }

  /**
    Lockstep writers cancel: `write_all` through them delivers the data
    itself to the bottom sink (as much of it as fits there), and leaves the
    two writers in lockstep again, one data length further on, whether the
    bottom sink took everything or failed: both cursors have moved before
    the failure is reported.
   */
  lemma {:induction false} LockstepWriteCancels(x: Xorcism, bottom: seq<u8>, limit: Limit, data: seq<u8>)
    requires |x.key| > 0
    ensures WriteAll(Lockstep(x, bottom, limit), data).result.Ok? <==> Accepts(limit, |data|)
    ensures var w := WriteAll(Lockstep(x, bottom, limit), data);
      w.result.Ok? ==> Delivered(w.sink) == bottom + data
    ensures var w := WriteAll(Lockstep(x, bottom, limit), data);
      w.result.Err? ==> Delivered(w.sink) == bottom + data[..limit.left]
    ensures var w := WriteAll(Lockstep(x, bottom, limit), data);
      w.result.Ok? ==> w.sink == Lockstep(x.(pos := x.pos + |data|), bottom + data, Spend(limit, |data|))
    ensures !Accepts(limit, |data|) ==>
      WriteAll(Lockstep(x, bottom, limit), data).sink
        == Lockstep(x.(pos := x.pos + |data|), bottom + data[..limit.left], Room(0))
  {
    var s := Lockstep(x, bottom, limit);
    if |data| == 0 {
      assert bottom + data == bottom;
      assert Munge(x, data).state == x;
    } else {
      var m := Munge(x, data);
      RoundTrip(x, data);
      assert |m.out| > 0;
      var innerWriter := Writer(Clone(x), Base(bottom, limit));
      assert WriteAll(innerWriter, m.out).sink == Write(Clone(x), Base(bottom, limit), m.out).sink;
      assert Munge(Clone(x), m.out).out == data;
    }
  }

  /** The bytes of all chunks, in order. */
  function Flatten(chunks: seq<seq<u8>>): seq<u8>
  {
    if |chunks| == 0 then [] else chunks[0] + Flatten(chunks[1..])
  }

  /** `write_all` once per chunk, stopping at the first failure. */
  function WriteEach(s: Sink, chunks: seq<seq<u8>>): (w: Written<()>)
    decreases |chunks|
  {
    if |chunks| == 0 then Written(s, Ok(()))
    else
      var first := WriteAll(s, chunks[0]);
      if first.result.Err? then first else WriteEach(first.sink, chunks[1..])
  }

  /**
    Streaming through one writer, in chunks of any sizes, delivers what one
    `munge` of all the data at once produces, and leaves the cursor where
    that one call would.
   */
  lemma {:induction false} WriterStreams(x: Xorcism, bottom: seq<u8>, chunks: seq<seq<u8>>)
    ensures WriteEach(Writer(x, Base(bottom, Unlimited)), chunks)
         == Written(Writer(Munge(x, Flatten(chunks)).state,
                           Base(bottom + Munge(x, Flatten(chunks)).out, Unlimited)), Ok(()))
    decreases |chunks|
  {
    if |chunks| > 0 {
      var c, tail := chunks[0], chunks[1..];
      var m := Munge(x, c);
      var later := Munge(m.state, Flatten(tail));
      var whole := Munge(x, Flatten(chunks));
      assert Flatten(chunks) == c + Flatten(tail);
      MungeChunking(x, c, Flatten(tail));
      assert bottom + m.out + later.out == bottom + whole.out;
      calc {
        WriteEach(Writer(x, Base(bottom, Unlimited)), chunks);
        { WriterOverVec(x, bottom, c); }
        WriteEach(Writer(m.state, Base(bottom + m.out, Unlimited)), tail);
        { WriterStreams(m.state, bottom + m.out, tail); }
        Written(Writer(later.state, Base(bottom + m.out + later.out, Unlimited)), Ok(()));
        Written(Writer(whole.state, Base(bottom + whole.out, Unlimited)), Ok(()));
      }
    } else {
      assert Munge(x, []).state == x;
      assert bottom + Munge(x, []).out == bottom;
    }
  }

  /**
    `write_all` through one writer over an unbounded buffer appends the
    munged data and always succeeds, even with an empty key (which appends
    nothing) or empty data.
   */
  lemma {:induction false} WriterOverVec(x: Xorcism, bottom: seq<u8>, data: seq<u8>)
    ensures WriteAll(Writer(x, Base(bottom, Unlimited)), data)
         == Written(Writer(Munge(x, data).state, Base(bottom + Munge(x, data).out, Unlimited)), Ok(()))
  {
    var m := Munge(x, data);
    if |data| == 0 {
      assert m.state == x && bottom + m.out == bottom;
    } else {
      assert WriteAll(Writer(x, Base(bottom, Unlimited)), data).sink == Write(x, Base(bottom, Unlimited), data).sink;
    }
  }

  /**
    Streaming through lockstep writers, in chunks of any sizes, delivers the
    data itself.
   */
  lemma {:induction false} LockstepStreams(x: Xorcism, bottom: seq<u8>, chunks: seq<seq<u8>>)
    requires |x.key| > 0
    ensures WriteEach(Lockstep(x, bottom, Unlimited), chunks)
         == Written(Lockstep(x.(pos := x.pos + |Flatten(chunks)|), bottom + Flatten(chunks), Unlimited), Ok(()))
    decreases |chunks|
  {
    if |chunks| > 0 {
      var c, tail := chunks[0], chunks[1..];
      var next := x.(pos := x.pos + |c|);
      assert Flatten(chunks) == c + Flatten(tail);
      assert bottom + c + Flatten(tail) == bottom + Flatten(chunks);
      calc {
        WriteEach(Lockstep(x, bottom, Unlimited), chunks);
        { LockstepWriteCancels(x, bottom, Unlimited, c); }
        WriteEach(Lockstep(next, bottom + c, Unlimited), tail);
        { LockstepStreams(next, bottom + c, tail); }
        Written(Lockstep(next.(pos := next.pos + |Flatten(tail)|), bottom + c + Flatten(tail), Unlimited), Ok(()));
        Written(Lockstep(x.(pos := x.pos + |Flatten(chunks)|), bottom + Flatten(chunks), Unlimited), Ok(()));
      }
    } else {
      assert bottom + [] == bottom;
    }
  }

  /**
    `Writer::new(key, vec)` with `write_all` delivers every byte of the
    data, munged exactly as the free function `munge` would.
   */
  lemma {:induction false} WriterMunges(key: seq<u8>, data: seq<u8>)
    requires |key| > 0
    ensures WriteAll(NewWriter(key, Base([], Unlimited)), data).result.Ok?
    ensures Delivered(WriteAll(NewWriter(key, Base([], Unlimited)), data).sink) == MungeStateless(key, data)
    ensures |Delivered(WriteAll(NewWriter(key, Base([], Unlimited)), data).sink)| == |data|
  {
    WriterOverVec(New(key), [], data);
    assert [] + Munge(New(key), data).out == MungeStateless(key, data);
  }

  /**
    `xs1.writer(xs2.writer(vec))` with `xs2` a clone of a fresh `xs1`:
    `write_all` succeeds and the vector ends up holding the data itself.
   */
  lemma {:induction false} WriterRoundTrip(key: seq<u8>, data: seq<u8>)
    requires |key| > 0
    ensures WriteAll(NewWriter(key, NewWriter(key, Base([], Unlimited))), data).result.Ok?
    ensures Delivered(WriteAll(NewWriter(key, NewWriter(key, Base([], Unlimited))), data).sink) == data
  {
    assert NewWriter(key, NewWriter(key, Base([], Unlimited))) == Lockstep(New(key), [], Unlimited);
    LockstepWriteCancels(New(key), [], Unlimited, data);
    assert [] + data == data;
  }

  /**
    With an empty key a writer reports success for every buffer yet passes
    nothing on: the munged bytes are empty, so `write_all` below has
    nothing to write. Only the cursor moves.
   */
  lemma {:induction false} EmptyKeyWriterDrops(bottom: seq<u8>, limit: Limit, data: seq<u8>)
    ensures WriteAll(NewWriter([], Base(bottom, limit)), data)
         == Written(Writer(Xorcism([], |data|), Base(bottom, limit)), Ok(()))
  {
    if |data| > 0 {
      assert Munge(New([]), data).out == [];
      assert bottom + [] == bottom;
      assert Spend(limit, 0) == limit;
    }
  }
}
