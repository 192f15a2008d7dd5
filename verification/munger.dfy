/**
  The `Xorcism` munger of `src/lib.rs`: a borrowed key and a cursor `pos`
  counting the bytes this instance has already munged. Data byte `i` of a
  call that starts at cursor `p` is XORed with key byte `(p + i) mod |key|`.
 */
module Munger {
  import opened Bytes
  import opened Keys

  /** A munger: the key and the cursor. `#[derive(Clone)]` copies both. */
  datatype Xorcism = Xorcism(key: seq<u8>, pos: nat)

  /** The state a munging call leaves behind, and the bytes it produced. */
  datatype Munged = Munged(state: Xorcism, out: seq<u8>)

  /** Why a key from outside is refused before a munger is built. */
  datatype KeyError = EmptyKey

  /** The outcome of building a munger from an untrusted key. */
  datatype Checked = Built(munger: Xorcism) | Refused(reason: KeyError)

  /** `Xorcism::new`: borrows the key as it is, without checking it, at cursor 0. */
  function New(key: seq<u8>): (x: Xorcism)
    ensures x.key == key && x.pos == 0
  {
    Xorcism(key, 0)
  }

  /** `#[derive(Clone)]`: an independent munger with the same key and the same cursor. */
  function Clone(x: Xorcism): (c: Xorcism)
    ensures c == x
  {
    Xorcism(x.key, x.pos)
  }

  /**
    Building a munger from a key supplied by a user: an empty key is refused,
    any other key gives a fresh munger at cursor 0.
   */
  function NewChecked(key: seq<u8>): (c: Checked)
    ensures c.Built? <==> |key| > 0
    ensures c.Built? ==> c.munger.key == key && c.munger.pos == 0
    ensures c.Refused? ==> c.reason == EmptyKey
  {
    if |key| == 0 then Refused(EmptyKey) else Built(New(key))
  }

  /**
    `incr_pos`: reserves `amount` positions in one step and hands back the cursor
    value the reserved block starts at.
   */
  function IncrPos(x: Xorcism, amount: nat): (r: (Xorcism, nat))
    ensures r.0.key == x.key
    ensures r.0.pos == x.pos + amount
    ensures r.1 == x.pos
  {
    (x.(pos := x.pos + amount), x.pos)
  }

  /** Reserving `a` positions and then `b` more is one reservation of `a + b`. */
  lemma IncrPosAdditive(x: Xorcism, a: nat, b: nat)
    ensures IncrPos(IncrPos(x, a).0, b).0 == IncrPos(x, a + b).0
    ensures IncrPos(IncrPos(x, a).0, b).1 == IncrPos(x, a).1 + a
  {
  }

  /**
    `munge`: reserves `|data|` positions, then XORs the data with the key
    stream from the old cursor on. The zip ends with the shorter side, so an
    empty key (whose cycle is empty) produces no bytes at all.
   */
  function Munge(x: Xorcism, data: seq<u8>): (m: Munged)
    ensures m.state.key == x.key && m.state.pos == x.pos + |data|
    ensures |x.key| == 0 ==> m.out == []
    ensures |x.key| > 0 ==> |m.out| == |data|
    ensures |x.key| > 0 ==>
      forall i :: 0 <= i < |data| ==> m.out[i] == data[i] ^ KeyAt(x.key, x.pos + i)
  {
    var (next, start) := IncrPos(x, |data|);
    Munged(next, ZipXor(data, Stream(x.key, start, |data|)))
  }

  /**
    `munge_in_place` as a value: the same reservation and key stream as
    `Munge`, but bytes past the end of the key stream keep their value, since
    the loop only visits the positions the zip reaches.
   */
  function MungeInPlace(x: Xorcism, data: seq<u8>): (m: Munged)
    ensures m.state.key == x.key && m.state.pos == x.pos + |data|
    ensures |m.out| == |data|
    ensures |x.key| == 0 ==> m.out == data
    ensures |x.key| > 0 ==> m.out == Munge(x, data).out
    ensures |x.key| > 0 ==>
      forall i :: 0 <= i < |data| ==> m.out[i] == data[i] ^ KeyAt(x.key, x.pos + i)
  {
    var (next, start) := IncrPos(x, |data|);
    var z := ZipXor(data, Stream(x.key, start, |data|));
    Munged(next, z + data[|z|..])
  }

  /**
    `munge_in_place` on a mutable buffer: one loop over the positions the
    zip of the buffer and the key stream reaches.
   */
  method ApplyInPlace(x: Xorcism, data: array<u8>) returns (next: Xorcism)
    modifies data
    ensures next == MungeInPlace(x, old(data[..])).state
    ensures data[..] == MungeInPlace(x, old(data[..])).out
  {
    var reserved := IncrPos(x, data.Length);
    next := reserved.0;
    var start := reserved.1;
    var keys := Stream(x.key, start, data.Length);
    ghost var before := data[..];
    var i := 0;
    while i < data.Length && i < |keys|
      invariant 0 <= i <= data.Length && i <= |keys|
      invariant forall j :: 0 <= j < i ==> data[j] == before[j] ^ keys[j]
      invariant forall j :: i <= j < data.Length ==> data[j] == before[j]
    {
      data[i] := data[i] ^ keys[i];
      i := i + 1;
    }
  }

  /**
    The free function `munge(key, data)`: a fresh munger used once and
    dropped. Its output depends on nothing but the key and the data.
   */
  function MungeStateless(key: seq<u8>, data: seq<u8>): (r: seq<u8>)
    ensures |key| == 0 ==> r == []
    ensures |key| > 0 ==> |r| == |data|
    ensures |key| > 0 ==> forall i :: 0 <= i < |data| ==> r[i] == data[i] ^ KeyAt(key, i)
  {
    Munge(New(key), data).out
  }

  /** One output byte of `Munge`, as a fact to call on demand. */
  lemma MungeAt(x: Xorcism, data: seq<u8>, i: nat)
    requires |x.key| > 0 && i < |data|
    ensures Munge(x, data).out[i] == data[i] ^ KeyAt(x.key, x.pos + i)
  {
  }

  /**
    The output bytes in the form the key iterator spells them: byte `i` of
    a call that starts at cursor `pos` meets key byte `(pos + i) mod |key|`,
    for `munge` and `munge_in_place` alike.
   */
  lemma {:induction false} MungeByteMod(x: Xorcism, data: seq<u8>, i: nat)
    requires |x.key| > 0 && i < |data|
    ensures Munge(x, data).out[i] == data[i] ^ x.key[(x.pos + i) % |x.key|]
    ensures MungeInPlace(x, data).out[i] == data[i] ^ x.key[(x.pos + i) % |x.key|]
  {
    MungeAt(x, data, i);
    KeyAtMod(x.key, x.pos + i);
  }

  /**
    Chunking: two successive calls on one munger produce, together, exactly
    what one call on the concatenated data produces from the first call's
    starting state, and leave the same cursor.
   */
  lemma {:induction false} MungeChunking(x: Xorcism, a: seq<u8>, b: seq<u8>)
    ensures Munge(Munge(x, a).state, b).state == Munge(x, a + b).state
    ensures Munge(x, a).out + Munge(Munge(x, a).state, b).out == Munge(x, a + b).out
  {
    if |x.key| > 0 {
      var joined := Munge(x, a).out + Munge(Munge(x, a).state, b).out;
      forall i | 0 <= i < |a + b|
        ensures joined[i] == (a + b)[i] ^ KeyAt(x.key, x.pos + i)
      {
        if i < |a| {
          ChunkHeadAt(x, a, b, i);
        } else {
          ChunkTailAt(x, a, b, i - |a|);
        }
      }
      MungeUnique(x, a + b, joined);
    }
  }

  /**
    `Munge` is pinned down by its pointwise law: any sequence as long as the
    data that matches it byte for byte is the output.
   */
  lemma MungeUnique(x: Xorcism, data: seq<u8>, r: seq<u8>)
    requires |x.key| > 0 && |r| == |data|
    requires forall i :: 0 <= i < |data| ==> r[i] == data[i] ^ KeyAt(x.key, x.pos + i)
    ensures Munge(x, data).out == r
  {
  }

  /** Byte `i` of the first call has the single call's pointwise form. */
  lemma ChunkHeadAt(x: Xorcism, a: seq<u8>, b: seq<u8>, i: nat)
    requires |x.key| > 0 && i < |a|
    ensures Munge(x, a).out[i] == (a + b)[i] ^ KeyAt(x.key, x.pos + i)
  {
    MungeAt(x, a, i);
    assert (a + b)[i] == a[i];
  }

  /** Byte `j` of the second call has the single call's pointwise form at `|a| + j`. */
  lemma ChunkTailAt(x: Xorcism, a: seq<u8>, b: seq<u8>, j: nat)
    requires |x.key| > 0 && j < |b|
    ensures Munge(Munge(x, a).state, b).out[j] == (a + b)[|a| + j] ^ KeyAt(x.key, x.pos + (|a| + j))
  {
    var s := Munge(x, a).state;
    MungeAt(s, b, j);
    assert (a + b)[|a| + j] == b[j];
    assert s.pos + j == x.pos + (|a| + j);
  }

  /** Chunking holds for the in-place form too, including the empty-key case. */
  lemma {:induction false} MungeInPlaceChunking(x: Xorcism, a: seq<u8>, b: seq<u8>)
    ensures MungeInPlace(MungeInPlace(x, a).state, b).state == MungeInPlace(x, a + b).state
    ensures MungeInPlace(x, a).out + MungeInPlace(MungeInPlace(x, a).state, b).out
         == MungeInPlace(x, a + b).out
  {
    if |x.key| > 0 {
      MungeChunking(x, a, b);
    }
  }

  /**
    A key made only of zero bytes leaves every byte as it is, whatever the
    cursor; in particular the one-byte key `[0]`.
   */
  lemma {:induction false} ZeroKeyIdentity(x: Xorcism, data: seq<u8>)
    requires |x.key| > 0
    requires forall j :: 0 <= j < |x.key| ==> x.key[j] == 0
    ensures Munge(x, data).out == data
  {
    var m := Munge(x, data);
    forall i | 0 <= i < |data|
      ensures m.out[i] == data[i]
    {
      MungeAt(x, data, i);
      KeyAtMod(x.key, x.pos + i);
    }
  }

  /** The free function with the one-byte key `[0]` returns its input. */
  lemma {:induction false} NullKeyIdentity(data: seq<u8>)
    ensures MungeStateless([0], data) == data
  {
    ZeroKeyIdentity(New([0]), data);
  }

  /**
    Round trip through a clone: a clone taken before munging has the same
    cursor, so munging the output with it restores the data, and both
    mungers end at the same cursor.
   */
  lemma {:induction false} RoundTrip(x: Xorcism, data: seq<u8>)
    requires |x.key| > 0
    ensures Munge(Clone(x), Munge(x, data).out).out == data
    ensures Munge(Clone(x), Munge(x, data).out).state == Munge(x, data).state
  {
    var once := Munge(x, data);
    var twice := Munge(Clone(x), once.out);
    forall i | 0 <= i < |data|
      ensures twice.out[i] == data[i]
    {
      var kb := KeyAt(x.key, x.pos + i);
      assert twice.out[i] == (data[i] ^ kb) ^ kb;
    }
  }

  /**
    The in-place form round-trips for every key: with an empty key both
    passes leave the data as it is.
   */
  lemma {:induction false} InPlaceRoundTrip(x: Xorcism, data: seq<u8>)
    ensures MungeInPlace(Clone(x), MungeInPlace(x, data).out).out == data
    ensures MungeInPlace(Clone(x), MungeInPlace(x, data).out).state == MungeInPlace(x, data).state
  {
    if |x.key| > 0 {
      RoundTrip(x, data);
    }
  }

  /**
    The stateless free function round-trips: munging its output again with
    the same key restores the data.
   */
  lemma {:induction false} StatelessRoundTrip(key: seq<u8>, data: seq<u8>)
    requires |key| > 0
    ensures MungeStateless(key, MungeStateless(key, data)) == data
  {
    RoundTrip(New(key), data);
  }

  /**
    A munger whose cursor sits on a key boundary behaves exactly like a fresh
    one: its output is the free function's output for the same data.
   */
  lemma {:induction false} AlignedLikeFresh(x: Xorcism, data: seq<u8>)
    requires |x.key| > 0 && x.pos % |x.key| == 0
    ensures Munge(x, data).out == MungeStateless(x.key, data)
  {
    var fromNew := MungeStateless(x.key, data);
    forall i | 0 <= i < |data|
      ensures fromNew[i] == data[i] ^ KeyAt(x.key, x.pos + i)
    {
      AlignedStatelessAt(x, data, i);
    }
    MungeUnique(x, data, fromNew);
  }

  /** Byte `i` of the free function's output, read as a byte of an aligned munger's output. */
  lemma AlignedStatelessAt(x: Xorcism, data: seq<u8>, i: nat)
    requires |x.key| > 0 && x.pos % |x.key| == 0 && i < |data|
    ensures MungeStateless(x.key, data)[i] == data[i] ^ KeyAt(x.key, x.pos + i)
  {
    AlignedKeyAt(x.key, x.pos, i);
  }

  /** From a key boundary on, the key stream repeats the stream from position 0. */
  lemma AlignedKeyAt(key: seq<u8>, p: nat, i: nat)
    requires |key| > 0 && p % |key| == 0
    ensures KeyAt(key, p + i) == KeyAt(key, i)
  {
    ModOffsetAligned(p, i, |key|);
    KeyAtMod(key, p + i);
    KeyAtMod(key, i);
  }

  /** Starting from a multiple of `k` does not change a position's remainder. */
  lemma ModOffsetAligned(p: nat, i: nat, k: nat)
    requires k > 0 && p % k == 0
    ensures (p + i) % k == i % k
  {
    var q := p / k;
    assert p == q * k;
    assert p + i == (q + i / k) * k + i % k;
    ModUnique(p + i, k, q + i / k, i % k);
  }

  /**
    Munging changes the data whenever the first key byte in play is not zero:
    its first output byte differs from its first input byte.
   */
  lemma {:induction false} MungeChanges(x: Xorcism, data: seq<u8>)
    requires |x.key| > 0 && |data| > 0
    requires KeyAt(x.key, x.pos) != 0
    ensures Munge(x, data).out != data
    ensures Munge(x, data).out[0] != data[0]
  {
    var kb := KeyAt(x.key, x.pos);
    assert Munge(x, data).out[0] == data[0] ^ kb;
  }

  /**
    A key whose bytes are all equal makes the cursor irrelevant: two mungers
    with that key produce the same output for the same data wherever their
    cursors stand, so repeated calls on one live munger repeat themselves.
   */
  lemma {:induction false} UniformKeyIgnoresCursor(x: Xorcism, y: Xorcism, data: seq<u8>)
    requires |x.key| > 0 && y.key == x.key
    requires forall j :: 0 <= j < |x.key| ==> x.key[j] == x.key[0]
    ensures Munge(x, data).out == Munge(y, data).out
  {
    var a := Munge(x, data).out;
    var b := Munge(y, data).out;
    forall i | 0 <= i < |data|
      ensures a[i] == b[i]
    {
      UniformMungeAt(x, y, data, i);
    }
  }

  /** Byte `i` of two munges under the same uniform key agree. */
  lemma UniformMungeAt(x: Xorcism, y: Xorcism, data: seq<u8>, i: nat)
    requires |x.key| > 0 && y.key == x.key && i < |data|
    requires forall j :: 0 <= j < |x.key| ==> x.key[j] == x.key[0]
    ensures Munge(x, data).out[i] == Munge(y, data).out[i]
  {
    MungeAt(x, data, i);
    MungeAt(y, data, i);
    UniformKeyAt(x.key, x.pos + i);
    UniformKeyAt(x.key, y.pos + i);
  }

  /** Every position of a uniform key stream carries the key's first byte. */
  lemma UniformKeyAt(key: seq<u8>, p: nat)
    requires |key| > 0
    requires forall j :: 0 <= j < |key| ==> key[j] == key[0]
    ensures KeyAt(key, p) == key[0]
  {
    KeyAtMod(key, p);
  }
}
