/**
  The key stream of a munger: the key repeated forever and entered at an
  absolute offset. Rust spells it `key.iter().copied().cycle().skip(pos)`;
  here the stream is cut to the number of bytes a call consumes.
 */
module Keys {
  import opened Bytes

  /**
    The key byte that lines up with absolute position `p` of the endless
    repetition of the key: walk back one whole key at a time.
   */
  function KeyAt(key: seq<u8>, p: nat): u8
    requires |key| > 0
    decreases p
  {
    if p < |key| then key[p] else KeyAt(key, p - |key|)
  }

  /** The key byte at absolute position `p` is key byte `p mod |key|`. */
  lemma {:induction false} KeyAtMod(key: seq<u8>, p: nat)
    requires |key| > 0
    ensures KeyAt(key, p) == key[p % |key|]
    decreases p
  {
    if p >= |key| {
      KeyAtMod(key, p - |key|);
      ModSkipPeriod(p, |key|);
    }
  }

  /**
    The first `n` items of `key.iter().cycle()`: whole copies of the key
    followed by a prefix of it. Cycling an empty key yields nothing at all.
   */
  function Cycle(key: seq<u8>, n: nat): (c: seq<u8>)
    ensures |key| == 0 ==> c == []
    ensures |key| > 0 ==> |c| == n
    decreases n
  {
    if |key| == 0 || n == 0 then []
    else if n <= |key| then key[..n]
    else key + Cycle(key, n - |key|)
  }

  /** Item `i` of the cycled key is key byte `i mod |key|`. */
  lemma {:induction false} CycleAt(key: seq<u8>, n: nat, i: nat)
    requires |key| > 0 && i < n
    ensures Cycle(key, n)[i] == KeyAt(key, i)
    decreases n
  {
    if n <= |key| {
      assert Cycle(key, n) == key[..n];
    } else if i < |key| {
      assert Cycle(key, n) == key + Cycle(key, n - |key|);
    } else {
      assert Cycle(key, n) == key + Cycle(key, n - |key|);
      CycleAt(key, n - |key|, i - |key|);
    }
  }

  /** Skipping one whole period leaves the position within the key unchanged. */
  lemma ModSkipPeriod(i: nat, k: nat)
    requires 0 < k <= i
    ensures (i - k) % k == i % k
  {
    var q, r := (i - k) / k, (i - k) % k;
    assert i - k == q * k + r;
    assert i == (q + 1) * k + r;
    ModUnique(i, k, q + 1, r);
  }

  /** Euclidean remainders are unique: `q * k + r` with `0 <= r < k` leaves remainder `r`. */
  lemma ModUnique(a: int, k: int, q: int, r: int)
    requires 0 <= r < k && a == q * k + r
    ensures a % k == r
  {
    var d := q - a / k;
    assert a == (a / k) * k + a % k;
    assert d * k == a % k - r;
    if d >= 1 {
      MulAtLeast(d, k);
    } else if d <= -1 {
      MulAtLeast(-d, k);
    }
  }

  lemma MulAtLeast(d: int, k: int)
    requires d >= 1 && k > 0
    ensures d * k >= k
  {
  }

  /**
    The first `n` key bytes a call that starts at cursor `pos` consumes:
    the cycled key with its first `pos` items skipped. Byte `i` of it is the
    key byte at absolute position `pos + i`.
   */
  function Stream(key: seq<u8>, pos: nat, n: nat): (ks: seq<u8>)
    ensures |key| == 0 ==> ks == []
    ensures |key| > 0 ==> |ks| == n
    ensures |key| > 0 ==> forall i :: 0 <= i < n ==> ks[i] == KeyAt(key, pos + i)
  {
    if |key| == 0 then []
    else
      var c := Cycle(key, pos + n);
      assert forall j :: pos <= j < pos + n ==> c[j] == KeyAt(key, j) by {
        forall j | pos <= j < pos + n {
          CycleAt(key, pos + n, j);
        }
      }
      c[pos..]
  }
}
