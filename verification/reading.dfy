/**
  The read adapter `Reader` of `src/lib.rs`. A reader owns one munger and
  the source below it; that source may itself be a reader, so a value of
  `Source` is a stack of readers over a byte source at the bottom.
 */
module Reading {
  import opened Bytes
  import opened Munger

  /**
    A byte source: the bytes still to come at the bottom, or a `Reader`
    layered over another source.
   */
  datatype Source =
    | Base(remaining: seq<u8>)
    | Reader(xorcism: Xorcism, inner: Source)

  /**
    What the bottom source does on one `read` call: hand over up to `want`
    bytes (it also stops at the buffer's end and at its own end), or fail.
   */
  datatype Fill = Deliver(want: nat) | Fail

  /** The source after a call, the caller's buffer after it, and the reported count. */
  datatype ReadStep = ReadStep(source: Source, buf: seq<u8>, result: Result<nat>)

  /** `Reader::new`: a fresh munger over the given source. */
  function NewReader(key: seq<u8>, inner: Source): (r: Source)
    ensures r.Reader? && r.xorcism == New(key) && r.inner == inner
    ensures Pending(r) == Pending(inner)
  {
    Reader(New(key), inner)
  }

  /** The bytes the bottom source has not handed over yet. */
  function Pending(s: Source): seq<u8>
  {
    match s
    case Base(remaining) => remaining
    case Reader(_, inner) => Pending(inner)
  }

  /** Two stacks with the same layers and the same keys; cursors and contents may differ. */
  predicate SameLayers(s: Source, t: Source)
  {
    match s
    case Base(_) => t.Base?
    case Reader(x, inner) => t.Reader? && t.xorcism.key == x.key && SameLayers(inner, t.inner)
  }

  /**
    `read` on a source. At the bottom, the first `n` pending bytes are
    copied to the front of the buffer. `Reader::read` first reads from the
    source below (a failure there is passed up with nothing munged), then
    munges exactly the `n` bytes that arrived, in place, which advances its
    cursor by `n`.
   */
  function Read(s: Source, buf: seq<u8>, fill: Fill): (r: ReadStep)
    ensures |r.buf| == |buf|
    ensures r.result.Ok? <==> fill.Deliver?
    ensures r.result.Ok? ==> r.result.value <= |buf|
  {
    match s
    case Base(remaining) =>
      (match fill
       case Fail => ReadStep(s, buf, Err(ReadFailed))
       case Deliver(want) =>
         var n := Min(want, Min(|buf|, |remaining|));
         ReadStep(Base(remaining[n..]), remaining[..n] + buf[n..], Ok(n)))
    case Reader(x, inner) =>
      var below := Read(inner, buf, fill);
      if below.result.Err? then ReadStep(s, buf, below.result)
      else
        var n := below.result.value;
        var m := MungeInPlace(x, below.buf[..n]);
        ReadStep(Reader(m.state, below.source), m.out + below.buf[n..], Ok(n))
  }

  /**
    What one `read` promises, at every depth of the stack: a failure below
    changes nothing; otherwise `n` is what the bottom source handed over,
    exactly the first `n` bytes of the buffer are written, the rest of the
    buffer is untouched, the source has moved on by `n` bytes, and the top
    reader's cursor has advanced by `n`.
   */
  lemma {:induction false} ReadBehaviour(s: Source, buf: seq<u8>, fill: Fill)
    ensures var r := Read(s, buf, fill);
      && (r.result.Err? ==> r.source == s && r.buf == buf)
      && (r.result.Ok? ==> r.result.value == Min(fill.want, Min(|buf|, |Pending(s)|)))
      && (r.result.Ok? ==> r.buf[r.result.value..] == buf[r.result.value..])
      && (r.result.Ok? ==> Pending(r.source) == Pending(s)[r.result.value..])
      && SameLayers(s, r.source)
      && (s.Reader? && r.result.Ok? ==> r.source.xorcism.pos == s.xorcism.pos + r.result.value)
      && (s.Base? && r.result.Ok? ==> r.buf[..r.result.value] == s.remaining[..r.result.value])
    decreases s
  {
    if s.Reader? {
      ReadBehaviour(s.inner, buf, fill);
    }
  }

  lemma {:induction false} SameLayersTransitive(s: Source, t: Source, u: Source)
    requires SameLayers(s, t) && SameLayers(t, u)
    ensures SameLayers(s, u)
    decreases s
  {
    if s.Reader? {
      SameLayersTransitive(s.inner, t.inner, u.inner);
    }
  }

  /**
    Two readers that share a key and a cursor, stacked over a byte source,
    as `Reader::new(key, Reader::new(key, source))` builds them.
   */
  predicate InLockstep(s: Source)
  {
    s.Reader? && s.inner.Reader? && s.inner.inner.Base? && s.inner.xorcism == s.xorcism
  }

  /**
    Lockstep readers cancel: one `read` through them yields the source's
    own bytes, whatever the key (an empty key munges nothing), and leaves
    the two readers in lockstep again, with the same key, `n` bytes further on.
   */
  lemma {:induction false} LockstepReadCancels(s: Source, buf: seq<u8>, fill: Fill)
    requires InLockstep(s)
    ensures var r := Read(s, buf, fill);
      r.result.Ok? ==>
        var n := r.result.value;
        && n <= |Pending(s)|
        && r.buf[..n] == Pending(s)[..n]
        && InLockstep(r.source)
        && r.source.xorcism == s.xorcism.(pos := s.xorcism.pos + n)
        && Pending(r.source) == Pending(s)[n..]
  {
    var r := Read(s, buf, fill);
    if r.result.Ok? {
      var n := r.result.value;
      var x := s.xorcism;
      var remaining := s.inner.inner.remaining;
      assert Pending(s.inner.inner) == remaining;
      assert Pending(s) == Pending(s.inner) == remaining;
      ReadBehaviour(s, buf, fill);
      var below := Read(s.inner, buf, fill);
      assert below.result == r.result;
      ReaderStep(x, remaining, buf, fill);
      assert below.buf[..n] == MungeInPlace(x, remaining[..n]).out;
      InPlaceRoundTrip(x, remaining[..n]);
      assert r.buf[..n] == MungeInPlace(x, below.buf[..n]).out;
    }
  }

  /** A fresh read buffer of `size` zero bytes; a read overwrites the front of it. */
  function Zeros(size: nat): seq<u8>
  {
    seq(size, _ => 0)
  }

  /** The bytes a `read_to_end` gathered, and the source after it. */
  datatype Drained = Drained(source: Source, bytes: seq<u8>)

  /**
    `read_to_end` on a source: `read` into a buffer of `size` bytes again
    and again, keeping the bytes each call reports, until a call reports 0.
    `wants` says how much the bottom source hands over on each call; the
    drive stops early if it runs out.
   */
  function ReadToEnd(s: Source, size: nat, wants: seq<nat>): (d: Drained)
    ensures size == 0 ==> d.bytes == []
    decreases |wants|
  {
    if |wants| == 0 then Drained(s, [])
    else
      var r := Read(s, Zeros(size), Deliver(wants[0]));
      var n := r.result.value;
      if n == 0 then Drained(r.source, [])
      else
        var rest := ReadToEnd(r.source, size, wants[1..]);
        Drained(rest.source, r.buf[..n] + rest.bytes)
  }

  /**
    `read_to_end` consumes from the bottom source exactly the bytes it
    returns.
   */
  lemma {:induction false} ReadToEndConsumes(s: Source, size: nat, wants: seq<nat>)
    ensures |ReadToEnd(s, size, wants).bytes| <= |Pending(s)|
    ensures Pending(ReadToEnd(s, size, wants).source) == Pending(s)[|ReadToEnd(s, size, wants).bytes|..]
    decreases |wants|
  {
    if |wants| > 0 {
      var r := Read(s, Zeros(size), Deliver(wants[0]));
      ReadBehaviour(s, Zeros(size), Deliver(wants[0]));
      if r.result.value > 0 {
        ReadToEndConsumes(r.source, size, wants[1..]);
      }
    }
  }

  /**
    `read_to_end` keeps the stack's layers and keys, and moves the top
    reader's cursor by the number of bytes it returns.
   */
  lemma {:induction false} ReadToEndAdvances(s: Source, size: nat, wants: seq<nat>)
    ensures SameLayers(s, ReadToEnd(s, size, wants).source)
    ensures s.Reader? ==> ReadToEnd(s, size, wants).source.xorcism.pos == s.xorcism.pos + |ReadToEnd(s, size, wants).bytes|
    decreases |wants|
  {
    if |wants| == 0 {
      SameLayersReflexive(s);
    } else {
      var r := Read(s, Zeros(size), Deliver(wants[0]));
      ReadBehaviour(s, Zeros(size), Deliver(wants[0]));
      if r.result.value > 0 {
        ReadToEndAdvances(r.source, size, wants[1..]);
        SameLayersTransitive(s, r.source, ReadToEnd(r.source, size, wants[1..]).source);
      }
    }
  }

  lemma SameLayersReflexive(s: Source)
    ensures SameLayers(s, s)
  {
  }

  /**
    One `read` through a single reader over the bottom source: the state
    afterwards, spelled out.
   */
  lemma {:induction false} ReaderStep(x: Xorcism, remaining: seq<u8>, buf: seq<u8>, fill: Fill)
    ensures var r := Read(Reader(x, Base(remaining)), buf, fill);
      r.result.Ok? ==>
        var n := r.result.value;
        && n <= |remaining|
        && r.buf[..n] == MungeInPlace(x, remaining[..n]).out
        && r.source == Reader(MungeInPlace(x, remaining[..n]).state, Base(remaining[n..]))
  {
    var r := Read(Reader(x, Base(remaining)), buf, fill);
    if r.result.Ok? {
      var n := r.result.value;
      var below := Read(Base(remaining), buf, fill);
      assert below.buf[..n] == remaining[..n];
    }
  }

  /**
    Reading to the end through one reader, in reads of any sizes, yields
    what one `munge_in_place` over all the bytes consumed yields.
   */
  lemma {:induction false} ReaderStreams(s: Source, size: nat, wants: seq<nat>)
    requires s.Reader? && s.inner.Base?
    ensures var d := ReadToEnd(s, size, wants);
      var k := |d.bytes|;
      && k <= |Pending(s)|
      && d.bytes == MungeInPlace(s.xorcism, Pending(s)[..k]).out
    decreases |wants|
  {
    var x := s.xorcism;
    var remaining := s.inner.remaining;
    assert Pending(s) == remaining;
    if |wants| == 0 {
      assert remaining[..0] == [];
    } else {
      var r := Read(s, Zeros(size), Deliver(wants[0]));
      var n := r.result.value;
      ReaderToEndStep(s, size, wants);
      if n == 0 {
        assert remaining[..0] == [];
      } else {
        var d := ReadToEnd(s, size, wants);
        var head := MungeInPlace(x, remaining[..n]);
        var rest := ReadToEnd(r.source, size, wants[1..]);
        ReaderStreams(r.source, size, wants[1..]);
        var k' := |rest.bytes|;
        assert d.bytes == head.out + rest.bytes;
        assert rest.bytes == MungeInPlace(head.state, remaining[n..][..k']).out;
        InPlaceSplit(x, remaining, n, k');
        assert |d.bytes| == n + k';
        assert d.bytes == MungeInPlace(x, remaining[..n + k']).out;
      }
    }
  }

  /**
    Reading to the end through one reader leaves a reader over the rest of
    the source, with its cursor where one `munge_in_place` over all the
    bytes consumed would leave it.
   */
  lemma {:induction false} ReaderLeavesCursor(s: Source, size: nat, wants: seq<nat>)
    requires s.Reader? && s.inner.Base?
    ensures var d := ReadToEnd(s, size, wants);
      var k := |d.bytes|;
      && k <= |Pending(s)|
      && d.source.Reader? && d.source.inner.Base?
      && d.source.xorcism == MungeInPlace(s.xorcism, Pending(s)[..k]).state
    decreases |wants|
  {
    var x := s.xorcism;
    var remaining := s.inner.remaining;
    assert Pending(s) == remaining;
    if |wants| == 0 {
      assert MungeInPlace(x, remaining[..0]).state == x;
    } else {
      var r := Read(s, Zeros(size), Deliver(wants[0]));
      var n := r.result.value;
      ReaderToEndStep(s, size, wants);
      if n == 0 {
        assert MungeInPlace(x, remaining[..0]).state == x;
      } else {
        var d := ReadToEnd(s, size, wants);
        var head := MungeInPlace(x, remaining[..n]);
        var rest := ReadToEnd(r.source, size, wants[1..]);
        ReaderLeavesCursor(r.source, size, wants[1..]);
        var k' := |rest.bytes|;
        assert d.source == rest.source;
        assert rest.source.xorcism == MungeInPlace(head.state, remaining[n..][..k']).state;
        InPlaceSplit(x, remaining, n, k');
      }
    }
  }

  /**
    Munging the first `n` bytes in place and then the next `k` from where
    that left the cursor is munging the first `n + k` bytes in one call.
   */
  lemma InPlaceSplit(x: Xorcism, remaining: seq<u8>, n: nat, k: nat)
    requires n + k <= |remaining|
    ensures var head := MungeInPlace(x, remaining[..n]);
      && head.out + MungeInPlace(head.state, remaining[n..][..k]).out == MungeInPlace(x, remaining[..n + k]).out
      && MungeInPlace(head.state, remaining[n..][..k]).state == MungeInPlace(x, remaining[..n + k]).state
  {
    MungeInPlaceChunking(x, remaining[..n], remaining[n..][..k]);
    SliceJoin(remaining, n, k);
  }

  /** One round of reading to the end through one reader, spelled out. */
  lemma {:induction false} ReaderToEndStep(s: Source, size: nat, wants: seq<nat>)
    requires s.Reader? && s.inner.Base? && |wants| > 0
    ensures var r := Read(s, Zeros(size), Deliver(wants[0]));
      var n := r.result.value;
      && n <= |Pending(s)|
      && r.source.Reader? && r.source.inner.Base?
      && Pending(r.source) == Pending(s)[n..]
      && r.source.xorcism == MungeInPlace(s.xorcism, Pending(s)[..n]).state
      && ReadToEnd(s, size, wants)
         == if n == 0 then Drained(s, [])
            else Drained(ReadToEnd(r.source, size, wants[1..]).source,
                         MungeInPlace(s.xorcism, Pending(s)[..n]).out + ReadToEnd(r.source, size, wants[1..]).bytes)
  {
    var x := s.xorcism;
    var remaining := s.inner.remaining;
    assert Pending(s) == remaining;
    var r := Read(s, Zeros(size), Deliver(wants[0]));
    ReaderStep(x, remaining, Zeros(size), Deliver(wants[0]));
    var n := r.result.value;
    assert Pending(r.source) == remaining[n..];
    if n == 0 {
      assert remaining[..0] == [] && remaining[0..] == remaining;
      assert MungeInPlace(x, []).state == x;
    }
  }

  /**
    Reading to the end through lockstep readers yields the source's own
    bytes, a prefix of them as long as the bytes consumed, and leaves the
    readers in lockstep.
   */
  lemma {:induction false} LockstepReadsBack(s: Source, size: nat, wants: seq<nat>)
    requires InLockstep(s)
    ensures var d := ReadToEnd(s, size, wants);
      && |d.bytes| <= |Pending(s)|
      && d.bytes == Pending(s)[..|d.bytes|]
      && InLockstep(d.source)
    decreases |wants|
  {
    if |wants| > 0 {
      var r := Read(s, Zeros(size), Deliver(wants[0]));
      LockstepReadCancels(s, Zeros(size), Deliver(wants[0]));
      var n := r.result.value;
      if n > 0 {
        var rest := ReadToEnd(r.source, size, wants[1..]);
        LockstepReadsBack(r.source, size, wants[1..]);
        SliceJoin(Pending(s), n, |rest.bytes|);
      }
    }
  }

  /**
    `read_to_end` gets everything: when each read offers room and the
    bottom source hands over at least one byte per call, enough calls drain
    the source completely.
   */
  lemma {:induction false} ReadToEndDrains(s: Source, size: nat, wants: seq<nat>)
    requires size > 0
    requires forall i :: 0 <= i < |wants| ==> wants[i] > 0
    requires |wants| > |Pending(s)|
    ensures |ReadToEnd(s, size, wants).bytes| == |Pending(s)|
    ensures Pending(ReadToEnd(s, size, wants).source) == []
    decreases |wants|
  {
    var r := Read(s, Zeros(size), Deliver(wants[0]));
    ReadBehaviour(s, Zeros(size), Deliver(wants[0]));
    var n := r.result.value;
    if n > 0 {
      ReadToEndDrains(r.source, size, wants[1..]);
    }
  }

  /**
    `Reader::new(key, Reader::new(key, data))` read to the end returns the
    data exactly, for any key and any read sizes that drain the source.
   */
  lemma {:induction false} ReaderRoundTrip(key: seq<u8>, data: seq<u8>, size: nat, wants: seq<nat>)
    requires size > 0
    requires forall i :: 0 <= i < |wants| ==> wants[i] > 0
    requires |wants| > |data|
    ensures ReadToEnd(NewReader(key, NewReader(key, Base(data))), size, wants).bytes == data
  {
    var s := NewReader(key, NewReader(key, Base(data)));
    assert Pending(s.inner) == data;
    ReadToEndDrains(s, size, wants);
    LockstepReadsBack(s, size, wants);
    assert data[..|data|] == data;
  }

  /**
    `Reader::new(key, data)` read to the end returns every byte of the
    data, munged exactly as the free function `munge` would.
   */
  lemma {:induction false} ReaderMunges(key: seq<u8>, data: seq<u8>, size: nat, wants: seq<nat>)
    requires |key| > 0
    requires size > 0
    requires forall i :: 0 <= i < |wants| ==> wants[i] > 0
    requires |wants| > |data|
    ensures |ReadToEnd(NewReader(key, Base(data)), size, wants).bytes| == |data|
    ensures ReadToEnd(NewReader(key, Base(data)), size, wants).bytes == MungeStateless(key, data)
  {
    var s := NewReader(key, Base(data));
    assert Pending(s) == data;
    ReadToEndDrains(s, size, wants);
    ReaderStreams(s, size, wants);
    assert data[..|data|] == data;
  }

  /**
    With an empty key a reader passes the source's bytes through untouched:
    `munge_in_place` finds no key bytes to XOR with.
   */
  lemma {:induction false} EmptyKeyReaderPassesThrough(data: seq<u8>, size: nat, wants: seq<nat>)
    requires size > 0
    requires forall i :: 0 <= i < |wants| ==> wants[i] > 0
    requires |wants| > |data|
    ensures ReadToEnd(NewReader([], Base(data)), size, wants).bytes == data
  {
    var s := NewReader([], Base(data));
    assert Pending(s) == data;
    ReadToEndDrains(s, size, wants);
    ReaderStreams(s, size, wants);
    assert data[..|data|] == data;
  }
}
