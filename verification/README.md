# xorcism in Dafny

A model of the `xorcism` library: a munger that XORs data with a repeating
key, and the `Writer` and `Reader` adapters built on it. A munger
(`Xorcism`) holds a borrowed key and a cursor `pos`, which counts the
bytes it has already munged. One call on `n` bytes starts at the current
cursor and moves it forward by `n`. Data byte `i` of that call is XORed
with the key byte at absolute position `pos + i`, that is with key byte
`(pos + i) mod |key|`. The same munger splits a stream into chunks of any
sizes with the same result. A clone taken at the same cursor undoes the
munging.

Modules:

- `Bytes`: `u8` as `bv8`, the I/O `Result`, and the zip-and-XOR step.
- `Keys`: the key stream `key.iter().copied().cycle().skip(pos)`, cut to
  the length a call consumes (`Cycle`, `Stream`), and the key byte at an
  absolute position (`KeyAt`).
- `Munger`: the `Xorcism` state and its operations `new`, `incr_pos`,
  `munge`, `munge_in_place`, `Clone`, and the free function `munge`,
  with their lemmas.
- `Writing`: a stack of `Writer`s over a byte buffer (`Sink`).
  `Writer::write` is modelled together with the `write_all` it calls and
  the `write_all` callers use.
- `Reading`: a stack of `Reader`s over a byte source (`Source`).
  `Reader::read` is modelled, and so is a `read_to_end` that drives it.

`Xorcism::new` does not check the key (`src/lib.rs:22-28`). With an
empty key, `cycle()` of the empty slice yields nothing, so `munge`
produces no bytes and `munge_in_place` leaves the buffer as it is, while
the cursor still advances. The model keeps this behaviour:

- A writer with an empty key reports success and passes nothing on.
- A reader with an empty key passes its bytes through unchanged.

The only refusal of an empty key is in the command-line tool
(`src/main.rs:111-113`), modelled as `Munger.NewChecked`.

Repeated calls on one live munger need not give different outputs. The
doc comment only says "likely" (`src/lib.rs:47`), and
`Munger.UniformKeyIgnoresCursor` shows equal outputs for keys whose bytes
are all equal. `Munger.MungeChanges` states the condition under which a
call does change the data.

## Model

| member | source | states |
|---|---|---|
| Keys.KeyAtMod | src/lib.rs:42 | the key byte lined up with absolute stream position `p` is key byte `p mod |key|` |
| Keys.Cycle | src/lib.rs:42 | the first `n` items of the cycled key: none at all for an empty key, exactly `n` otherwise |
| Keys.CycleAt | src/lib.rs:42 | item `i` of the cycled key is the key byte at absolute position `i` |
| Keys.Stream | src/lib.rs:38-43 | the key iterator skipped by `pos` yields, as its item `i`, the key byte at absolute position `pos + i`; an empty key yields nothing |
| Munger.New | src/lib.rs:22-28 | `Xorcism::new` borrows the key as given, without checking it, and starts the cursor at 0 |
| Munger.Clone | src/lib.rs:14 | the derived clone is an equal munger: same key and same cursor |
| Munger.IncrPos | src/lib.rs:31-35 | `incr_pos` keeps the key, adds the amount to the cursor and hands back the cursor value from before the call |
| Munger.NewChecked | src/main.rs:111-113 | a user-supplied key is accepted exactly when it is non-empty; an accepted key gives a munger with that key at cursor 0, a refused one reports the empty key |
| Munger.IncrPosAdditive | src/lib.rs:31-35 | two reservations of `a` and then `b` positions equal one reservation of `a + b`; the second starts where the first ended, and the old cursor is handed back |
| Munger.Munge | src/lib.rs:60-70 | the cursor moves by the data length, the key is kept; with a key, output byte `i` is data byte `i` XOR the key byte at `pos + i`, and the output is as long as the data; with an empty key the output is empty |
| Munger.MungeInPlace | src/lib.rs:49-54 | the buffer keeps its length and the cursor moves by it; with a key, every byte is XORed with the key byte at `pos + i`, agreeing with `munge`; with an empty key the buffer is untouched |
| Munger.MungeByteMod | src/lib.rs:49-54 | for `munge` and `munge_in_place` alike, output byte `i` of a call at cursor `pos` is data byte `i` XOR key byte `(pos + i) mod |key|` |
| Munger.ApplyInPlace | src/lib.rs:49-54 | the loop over a mutable buffer leaves exactly the contents and cursor of the in-place munge |
| Munger.MungeStateless | src/lib.rs:95-108 | the free function XORs byte `i` with key byte `i mod |key|`, from position 0, whatever was munged before |
| Munger.MungeChunking | src/lib.rs:60-70 | two successive calls on one munger produce, concatenated, what one call on the concatenated data produces, and end at the same cursor |
| Munger.MungeInPlaceChunking | src/lib.rs:49-54 | the same chunking law for the in-place form, empty key included |
| Munger.ZeroKeyIdentity | src/lib.rs:186-195 | a key made only of zero bytes leaves every byte unchanged at any cursor |
| Munger.NullKeyIdentity | src/lib.rs:186-195 | the free function with key `[0]` returns its input |
| Munger.RoundTrip | src/lib.rs:197-207 | a clone taken before munging restores the data from the output and ends at the same cursor as the original |
| Munger.InPlaceRoundTrip | src/lib.rs:49-54 | in-place munging with a clone undoes in-place munging for every key, and both end at the same cursor |
| Munger.StatelessRoundTrip | src/lib.rs:95-108 | the free function applied twice with the same key returns the data |
| Munger.AlignedLikeFresh | src/lib.rs:95-108 | a munger whose cursor is a multiple of the key length produces what a fresh munger produces |
| Munger.MungeChanges | src/lib.rs:197-207 | when the first key byte in play is non-zero the output differs from the input, as the test's `assert_ne` expects |
| Munger.UniformKeyIgnoresCursor | src/lib.rs:45-48 | with a key whose bytes are all equal, two mungers at any cursors give the same output for the same data, so repeated calls need not differ |
| Writing.NewWriter | src/lib.rs:121-129 | `Writer::new` puts a fresh munger for the key over the given sink; nothing is delivered by building it |
| Writing.WriteAll | src/lib.rs:136-142 | `write_all` keeps layers and keys and never takes back delivered bytes; on the bottom buffer it succeeds exactly when the bytes fit and then appends them, and otherwise appends what fits and fails |
| Writing.Write | src/lib.rs:136-142 | `Writer::write` moves the cursor by the data length even when the sink below fails; success reports the full data length; over the bottom buffer it appends exactly the munged data when it fits and fails otherwise |
| Writing.WriterOverVec | src/lib.rs:136-142 | `write_all` through one writer over an unbounded buffer always succeeds and appends the munged data |
| Writing.WriterStreams | src/lib.rs:136-142 | writing chunks of any sizes through one writer over an unbounded buffer always succeeds and delivers what one munge of all the data delivers, and leaves that cursor |
| Writing.LockstepWriteCancels | src/lib.rs:209-222 | through a writer stacked on its own clone, `write_all` succeeds exactly when the bottom has room, delivers the data itself (or the prefix that fit), and leaves the writers in lockstep one data length further on; when the bottom is full, both cursors have still moved on by the data length and the bottom holds the prefix that fit |
| Writing.LockstepStreams | src/lib.rs:209-222 | writing chunks of any sizes through lockstep writers over an unbounded buffer always succeeds, delivers the concatenated data itself, and leaves the writers in lockstep |
| Writing.WriterRoundTrip | src/lib.rs:209-222 | `xs1.writer(xs2.writer(vec))` with `write_all` leaves the data itself in the vector |
| Writing.WriterMunges | src/lib.rs:224-235 | `Writer::new(key, vec)` with `write_all` succeeds and leaves the free function's output in the vector, as long as the data |
| Writing.EmptyKeyWriterDrops | src/lib.rs:138-141 | with an empty key, `write_all` reports success and the sink below receives nothing; only the cursor moves |
| Reading.NewReader | src/lib.rs:160-168 | `Reader::new` puts a fresh munger for the key over the given source; nothing is consumed by building it |
| Reading.ReadToEnd | src/lib.rs:242 | `read_to_end` as the tests call it: reads again and again, keeping the bytes each read reports, until a read reports 0; a zero-length buffer gathers nothing |
| Reading.Read | src/lib.rs:175-179 | `read` keeps the buffer length, fails exactly when the bottom source fails, and reports at most the buffer length |
| Reading.ReadBehaviour | src/lib.rs:175-179 | a failed read changes nothing; otherwise `n` is what the bottom source handed over, only the first `n` buffer bytes change, the source moves on by `n`, and the top cursor advances by `n` |
| Reading.ReaderStep | src/lib.rs:175-179 | one read through a reader over the source leaves exactly the in-place munge of the first `n` source bytes at the front of the buffer, and the reader's cursor where that munge leaves it |
| Reading.ReadToEndConsumes | src/lib.rs:175-179 | reading to the end consumes from the bottom source exactly as many bytes as it returns |
| Reading.ReadToEndAdvances | src/lib.rs:175-179 | reading to the end keeps layers and keys and advances the top cursor by the number of bytes returned |
| Reading.ReadToEndDrains | src/lib.rs:242-243 | when every call offers room and the source hands over at least one byte each time, reading to the end returns every pending byte |
| Reading.ReaderStreams | src/lib.rs:175-179 | reading to the end through one reader, in reads of any sizes, returns the in-place munge of all bytes consumed |
| Reading.ReaderLeavesCursor | src/lib.rs:175-179 | reading to the end through one reader leaves a reader over the rest of the source, with its cursor where one in-place munge of all bytes consumed leaves it |
| Reading.LockstepReadCancels | src/lib.rs:247-256 | one read through a reader stacked on its own clone yields the source's own bytes and leaves the readers in lockstep, `n` further on |
| Reading.LockstepReadsBack | src/lib.rs:247-256 | reading to the end through lockstep readers returns a prefix of the source's bytes and leaves the readers in lockstep |
| Reading.ReaderRoundTrip | src/lib.rs:247-256 | `Reader::new(key, Reader::new(key, data))` read to the end returns the data, for every key |
| Reading.ReaderMunges | src/lib.rs:237-245 | `Reader::new(key, data)` read to the end returns as many bytes as the data, namely the free function's output |
| Reading.EmptyKeyReaderPassesThrough | src/lib.rs:175-179 | with an empty key a reader read to the end returns the source's bytes unchanged |

## Left out

- `flush` (`src/lib.rs:144-146`) only forwards to the inner writer. Buffering is not modelled.
- The `Read` and `Write` traits and `io::Error` values. The bottom sink is a byte buffer with an optional capacity. The bottom source is its pending bytes plus a per-call choice of how many to hand over, or failure. Errors are one abstract value per direction.
- `write_all`'s retry on `ErrorKind::Interrupted` and partial writes of a real sink. The bottom buffer takes what fits and then fails, as `write_all` does once `write` reports 0.
- `read_to_end`'s growing buffer, its retry on `Interrupted`, and error results. It is modelled as fixed-size reads whose per-call amounts are a parameter (`wants`), and it never fails.
- Reading.ReadToEnd: the bottom source never fails during it, so a failing read in the middle of `read_to_end` is not covered. Failure is modelled per read in `Reading.Read`. Its own contract states only the zero-length-buffer case; what it consumes and returns is stated by `Reading.ReadToEndConsumes`, `Reading.ReadToEndAdvances`, `Reading.ReaderStreams` and the lockstep lemmas, which keeps every proof about it small.
- The laziness of the iterator that `munge` returns. The cursor moves when `munge` is called (`src/lib.rs:68`), which the model reproduces; the output is given as a whole sequence.
- Overflow of the `usize` cursor (`src/lib.rs:33`). `pos` is unbounded. In the source, `self.pos += by` overflows after 2^usize::BITS munged bytes in total: 2^32 (4 GiB) on 32-bit targets, 2^64 on 64-bit ones. A debug build then panics. A release build wraps, and `cycle().skip(pos)` restarts at the wrapped offset. Chunking equivalence then fails across the wrap unless `|key|` divides 2^usize::BITS. None of this is modelled.
- `#[derive(Clone)]` on `Writer` and `Reader` (`src/lib.rs:111`, `src/lib.rs:150`). Cloning the inner stream is outside the model. Cloning the munger is modelled (`Munger.Clone`).
- The generic key and data types (`AsRef<[u8]>`, `Borrow<u8>`, `ExactSizeIterator`). Both are `seq<u8>`.
- The command-line tool in `src/main.rs` (argument parsing, stdin/stdout, base64), apart from its empty-key check.
- Writing.Write: the exact sink after a call is stated only when the sink below is the bottom buffer. For deeper stacks the contract states the layers, keys, cursor, result and that delivered bytes only grow. The lockstep lemmas cover the two-writer stack the tests use.
- Writing.WriteAll: same restriction as `Writing.Write`.
- Munger.MungeChanges: states one direction only: when the first key byte in play is non-zero, the output differs from the input. A call can also change the data when that byte is zero and a later one is not (key `[0, 1]` on `[0, 0]` gives `[0, 1]`). The stronger claim that repeated calls always differ is false (see `Munger.UniformKeyIgnoresCursor`).
- Munger.MungeChunking: proves only that splitting at call boundaries gives the same result. The converse, that anything touching the cursor between calls breaks the equivalence, is a property of a program that does so, not of the library.
