/** The chunked reference forward and its resumable dump: oracle/ref_longctx_logits.py. */
module LongctxRun {
  import opened Common

  // ----- PleRef.forward: a dilated convolution (four taps, three apart) with a nine-row carry

  const PAD: nat := 9

  /** The arithmetic stays abstract, so equal results are bit-equal: a row's gated and normed form, the
      taps, the accumulation in the program's order, and what is made of a row and its sum. */
  datatype Net<!In, !V, !A, !Out> = Net(
    norm: In -> V, zeroRow: V, tap: (nat, V) -> A, add: (A, A) -> A, zeroSum: A, finish: (In, A) -> Out)

  datatype Forward<V, Out> = ShapeError | Ok(rows: seq<Out>, carry: seq<V>)

  function Normed<In, V, A, Out>(net: Net<In, V, A, Out>, rows: seq<In>): (g: seq<V>)
    ensures |g| == |rows|
  {
    seq(|rows|, i requires 0 <= i < |rows| => net.norm(rows[i]))
  }

  /** Assigning the carry to the nine pad rows: nine rows fit, one is broadcast, any other number is an error. */
  function PadRows<V>(zeroRow: V, carry: Option<seq<V>>): Option<seq<V>> {
    match carry
    case None => Some(seq(PAD, _ => zeroRow))
    case Some(c) => if |c| == PAD then Some(c) else if |c| == 1 then Some(seq(PAD, _ => c[0])) else None
  }

  function ConvAt<In, V, A, Out>(net: Net<In, V, A, Out>, padded: seq<V>, t: nat): A
    requires t + PAD < |padded|
  {
    net.add(net.add(net.add(net.add(net.zeroSum, net.tap(0, padded[t])), net.tap(1, padded[t + 3])),
                    net.tap(2, padded[t + 6])), net.tap(3, padded[t + 9]))
  }

  /** gnv[-9:] */
  function LastRows<V>(g: seq<V>): seq<V> {
    if |g| <= PAD then g else g[|g| - PAD..]
  }

  function Forwarded<In, V, A, Out>(net: Net<In, V, A, Out>, rows: seq<In>, carry: Option<seq<V>>): (f: Forward<V, Out>)
    ensures f.Ok? ==> |f.rows| == |rows|
  {
    match PadRows(net.zeroRow, carry)
    case None => ShapeError
    case Some(pad) =>
      var g := Normed(net, rows);
      var padded := pad + g;
      Ok(seq(|rows|, t requires 0 <= t < |rows| => net.finish(rows[t], ConvAt(net, padded, t))), LastRows(g))
  }

  /** The whole sequence in one call, as the unchunked reference does it. */
  function OneCall<In, V, A, Out>(net: Net<In, V, A, Out>, rows: seq<In>): (out: seq<Out>)
    ensures |out| == |rows|
  {
    Forwarded(net, rows, None).rows
  }

  /** Chunk by chunk, each call getting the carry of the one before. */
  method Chunked<In, V, A, Out>(net: Net<In, V, A, Out>, rows: seq<In>, chunk: nat) returns (r: Option<seq<Out>>)
    requires chunk >= 1
    ensures r == ChunkedFrom(net, rows, chunk, 0, None)
    ensures chunk >= PAD || |rows| <= chunk ==> r == Some(OneCall(net, rows))
  {
    var out: seq<Out> := [];
    var carry: Option<seq<V>> := None;
    var done := 0;
    PrependNothing(ChunkedFrom(net, rows, chunk, 0, None));
    while done < |rows|
      invariant done <= |rows| && |out| == done
      invariant ChunkedFrom(net, rows, chunk, 0, None) == Prepend(out, ChunkedFrom(net, rows, chunk, done, carry))
    {
      var end := if done + chunk <= |rows| then done + chunk else |rows|;
      var f := Forwarded(net, rows[done..end], carry);
      if f == ShapeError {
        if chunk >= PAD || |rows| <= chunk { ChunkedIsOneCall(net, rows, chunk); }
        return None;
      }
      PrependTwice(out, f.rows, ChunkedFrom(net, rows, chunk, end, Some(f.carry)));
      out := out + f.rows;
      carry := Some(f.carry);
      done := end;
    }
    assert out + [] == out;
    if chunk >= PAD || |rows| <= chunk { ChunkedIsOneCall(net, rows, chunk); }
    r := Some(out);
  }

  function Prepend<T>(head: seq<T>, tail: Option<seq<T>>): Option<seq<T>> {
    if tail.None? then None else Some(head + tail.value)
  }

  lemma PrependNothing<T>(c: Option<seq<T>>)
    ensures Prepend([], c) == c
  {
    if c.Some? { assert [] + c.value == c.value; }
  }

  lemma PrependTwice<T>(a: seq<T>, b: seq<T>, c: Option<seq<T>>)
    ensures Prepend(a, Prepend(b, c)) == Prepend(a + b, c)
  {
    if c.Some? { assert a + (b + c.value) == (a + b) + c.value; }
  }

  function ChunkedFrom<In, V, A, Out>(net: Net<In, V, A, Out>, rows: seq<In>, chunk: nat, done: nat,
                                      carry: Option<seq<V>>):
      (r: Option<seq<Out>>)
    requires chunk >= 1 && done <= |rows|
    decreases |rows| - done
  {
    if done == |rows| then Some([])
    else
      var end := if done + chunk <= |rows| then done + chunk else |rows|;
      var f := Forwarded(net, rows[done..end], carry);
      if f == ShapeError then None else Prepend(f.rows, ChunkedFrom(net, rows, chunk, end, Some(f.carry)))
  }

  /** The carry a chunk boundary must hand over. */
  ghost predicate CarryAt<In, V, A, Out>(net: Net<In, V, A, Out>, rows: seq<In>, done: nat, carry: Option<seq<V>>)
    requires done <= |rows|
  {
    if done == 0 then carry == None
    else done >= PAD && carry == Some(Normed(net, rows)[done - PAD..done])
  }

  /** One chunk from a right carry gives the rows of the single call. */
  lemma ChunkIsSlice<In, V, A, Out>(net: Net<In, V, A, Out>, rows: seq<In>, done: nat, end: nat, carry: Option<seq<V>>)
    requires done < end <= |rows| && CarryAt(net, rows, done, carry)
    ensures var f := Forwarded(net, rows[done..end], carry); f.Ok? && f.rows == OneCall(net, rows)[done..end]
  {
    var g, part := Normed(net, rows), Normed(net, rows[done..end]);
    var pad := PadRows(net.zeroRow, carry).value;
    var whole := PadRows(net.zeroRow, None).value + g;
    var f := Forwarded(net, rows[done..end], carry);
    forall x | 0 <= x < |pad + part| ensures (pad + part)[x] == whole[done + x] {
      if x >= PAD { assert part[x - PAD] == g[done + x - PAD]; }
    }
    forall t | 0 <= t < end - done ensures f.rows[t] == OneCall(net, rows)[done + t] {
      assert ConvAt(net, pad + part, t) == ConvAt(net, whole, done + t);
    }
  }

  lemma NextCarry<In, V, A, Out>(net: Net<In, V, A, Out>, rows: seq<In>, done: nat, end: nat)
    requires done < end <= |rows| && end - done >= PAD
    ensures LastRows(Normed(net, rows[done..end])) == Normed(net, rows)[end - PAD..end]
  {
  }

  /** One chunk of nine rows or more, or the last: its rows, and the carry it hands over. */
  lemma OneMoreChunk<In, V, A, Out>(net: Net<In, V, A, Out>, rows: seq<In>, done: nat, end: nat, carry: Option<seq<V>>)
      returns (f: Forward<V, Out>)
    requires done < end <= |rows| && CarryAt(net, rows, done, carry) && (end < |rows| ==> end - done >= PAD)
    ensures f == Forwarded(net, rows[done..end], carry) && f.Ok? && f.rows == OneCall(net, rows)[done..end]
    ensures end < |rows| ==> CarryAt(net, rows, end, Some(f.carry))
  {
    ChunkIsSlice(net, rows, done, end, carry);
    if end < |rows| { NextCarry(net, rows, done, end); }
    f := Forwarded(net, rows[done..end], carry);
  }

  lemma JoinSlices<T>(s: seq<T>, a: nat, b: nat)
    requires a <= b <= |s|
    ensures s[a..b] + s[b..] == s[a..]
  {
  }

  lemma {:induction false} ChunkedMatches<In, V, A, Out>(net: Net<In, V, A, Out>, rows: seq<In>, chunk: nat, done: nat,
                                                         carry: Option<seq<V>>)
    requires chunk >= PAD && done <= |rows| && (done < |rows| ==> CarryAt(net, rows, done, carry))
    ensures ChunkedFrom(net, rows, chunk, done, carry) == Some(OneCall(net, rows)[done..])
    decreases |rows| - done
  {
    var out := OneCall(net, rows);
    if done < |rows| {
      var end := if done + chunk <= |rows| then done + chunk else |rows|;
      var f := OneMoreChunk(net, rows, done, end, carry);
      ChunkedMatches(net, rows, chunk, end, Some(f.carry));
      JoinSlices(out, done, end);
      assert ChunkedFrom(net, rows, chunk, done, carry) == Prepend(f.rows, Some(out[end..]));
    } else {
      assert out[done..] == [];
    }
  }

  /** With chunks of nine rows or more, or one chunk for everything, chunking changes nothing. */
  lemma ChunkedIsOneCall<In, V, A, Out>(net: Net<In, V, A, Out>, rows: seq<In>, chunk: nat)
    requires chunk >= 1 && (chunk >= PAD || |rows| <= chunk)
    ensures ChunkedFrom(net, rows, chunk, 0, None) == Some(OneCall(net, rows))
  {
    if chunk >= PAD {
      ChunkedMatches(net, rows, chunk, 0, None);
      assert OneCall(net, rows)[0..] == OneCall(net, rows);
    } else if rows != [] {
      ChunkIsSlice(net, rows, 0, |rows|, None);
      var f := Forwarded(net, rows[0..|rows|], None);
      assert OneCall(net, rows)[0..|rows|] == OneCall(net, rows);
      assert ChunkedFrom(net, rows, chunk, |rows|, Some(f.carry)) == Some([]);
      assert f.rows + [] == f.rows;
    } else {
      assert OneCall(net, rows) == [];
    }
  }

  /** Two to eight rows: the second chunk's carry does not fit, whatever the rows are. */
  lemma ShortChunksFail<In, V, A, Out>(net: Net<In, V, A, Out>, rows: seq<In>, chunk: nat)
    requires 2 <= chunk < PAD && |rows| > chunk
    ensures ChunkedFrom(net, rows, chunk, 0, None) == None
  {
    var f := Forwarded(net, rows[0..chunk], None);
    assert |f.carry| == chunk;
    var end := if 2 * chunk <= |rows| then 2 * chunk else |rows|;
    assert Forwarded(net, rows[chunk..end], Some(f.carry)) == ShapeError;
  }

  /** Adds its input up: any difference in the padded rows shows. */
  function Adder(): Net<int, int, int, int> {
    Net(x => x, 0, (k, v) => v, (a, b) => a + b, 0, (x, a) => a)
  }

  lemma SingleRowsDiffer(n: nat)
    requires n >= 2
    ensures ChunkedFrom(Adder(), seq(n, _ => 1), 1, 0, None) != Some(OneCall(Adder(), seq(n, _ => 1)))
  {
    var rows, net := seq(n, _ => 1), Adder();
    var f := Forwarded(net, rows[0..1], None);
    assert f.carry == [1];
    var s := Forwarded(net, rows[1..2], Some([1]));
    assert Normed(net, rows[1..2]) == [1];
    assert ConvAt(net, seq(PAD, _ => 1) + [1], 0) == 4;
    assert s.rows[0] == 4;
    var whole := seq(PAD, _ => 0) + Normed(net, rows);
    assert ConvAt(net, whole, 1) == 1;
    assert OneCall(net, rows)[1] == 1;
    var rest := ChunkedFrom(net, rows, 1, 1, Some([1]));
    if rest.Some? {
      var later := ChunkedFrom(net, rows, 1, 2, Some(s.carry));
      assert rest == Prepend(s.rows, later);
      assert rest.value[0] == 4;
      assert (f.rows + rest.value)[1] == 4;
    }
  }

  /** Chunking changes nothing for this arithmetic and these rows. */
  predicate Exact(net: Net<int, int, int, int>, rows: seq<int>, chunk: nat)
    requires chunk >= 1
  {
    ChunkedFrom(net, rows, chunk, 0, None) == Some(OneCall(net, rows))
  }

  /** Nor for any arithmetic and any n rows. */
  ghost predicate ExactFor(chunk: nat, n: nat)
    requires chunk >= 1
  {
    forall net: Net<int, int, int, int>, rows: seq<int> | |rows| == n :: Exact(net, rows, chunk)
  }

  lemma LongChunksAreExact(chunk: nat, n: nat)
    requires chunk >= 1 && (chunk >= PAD || n <= chunk)
    ensures ExactFor(chunk, n)
  {
    forall net: Net<int, int, int, int>, rows: seq<int> | |rows| == n ensures Exact(net, rows, chunk) {
      ChunkedIsOneCall(net, rows, chunk);
    }
  }

  lemma ShortChunksAreNot(chunk: nat, n: nat) returns (rows: seq<int>)
    requires 1 <= chunk < PAD && n > chunk
    ensures |rows| == n && !Exact(Adder(), rows, chunk)
    ensures chunk >= 2 ==> forall net :: !Exact(net, rows, chunk)
  {
    rows := seq(n, _ => 1);
    if chunk == 1 {
      SingleRowsDiffer(n);
    } else {
      forall net: Net<int, int, int, int> ensures !Exact(net, rows, chunk) { ShortChunksFail(net, rows, chunk); }
    }
  }

  /** The exact condition, over all arithmetics and all rows: the chunk is at least nine, or there is only
      one chunk. */
  lemma ChunkingIsExactIff(chunk: nat, n: nat)
    requires chunk >= 1
    ensures ExactFor(chunk, n) <==> chunk >= PAD || n <= chunk
  {
    if chunk >= PAD || n <= chunk {
      LongChunksAreExact(chunk, n);
    } else {
      var rows := ShortChunksAreNot(chunk, n);
      assert !Exact(Adder(), rows, chunk);
    }
  }

  // ----- Runner.run: the causal mask and the wanted rows

  /** The full causal mask over n positions, true where it is 0. */
  function CausalMask(n: nat): (mask: seq<seq<bool>>)
    ensures |mask| == n
    ensures forall i | 0 <= i < n :: |mask[i]| == n && forall j | 0 <= j < n :: mask[i][j] == (j <= i)
  {
    seq(n, i => seq(n, j => j <= i))
  }

  /** The mask of the chunk [done, done + c): every earlier key visible, then a triangle of its own. */
  function ChunkMask(done: nat, c: nat): (mask: seq<seq<bool>>)
    ensures |mask| == c
  {
    var inner := CausalMask(c);
    seq(c, i requires 0 <= i < c => seq(done, _ => true) + inner[i])
  }

  /** The per-chunk mask is the matching rows of the full causal mask, which hides every key behind them. */
  lemma ChunkMaskIsCausal(done: nat, c: nat, n: nat)
    requires done + c <= n
    ensures CausalMask(n)[done..done + c]
         == seq(c, i requires 0 <= i < c => ChunkMask(done, c)[i] + seq(n - done - c, _ => false))
  {
    forall i | 0 <= i < c
      ensures CausalMask(n)[done + i] == ChunkMask(done, c)[i] + seq(n - done - c, _ => false)
    {
      var full, part := CausalMask(n)[done + i], seq(done, _ => true) + CausalMask(c)[i];
      forall j | 0 <= j < n ensures full[j] == (part + seq(n - done - c, _ => false))[j] {
        if done <= j < done + c { assert part[j] == CausalMask(c)[i][j - done]; }
      }
    }
  }

  ghost predicate Ascending(s: seq<nat>) {
    forall i, j | 0 <= i < j < |s| :: s[i] < s[j]
  }

  /** The wanted rows in [lo, hi). */
  function RowsIn(want: seq<nat>, lo: nat, hi: nat): seq<nat> {
    if want == [] then []
    else if lo <= want[0] < hi then [want[0]] + RowsIn(want[1..], lo, hi)
    else RowsIn(want[1..], lo, hi)
  }

  lemma {:induction false} RowsInAscending(want: seq<nat>, lo: nat, hi: nat)
    requires Ascending(want)
    ensures Ascending(RowsIn(want, lo, hi))
    ensures forall r :: r in RowsIn(want, lo, hi) <==> r in want && lo <= r < hi
  {
    if want != [] {
      RowsInAscending(want[1..], lo, hi);
      assert want == [want[0]] + want[1..];
      forall r | r in want[1..] ensures want[0] < r {
        var k :| 0 <= k < |want[1..]| && want[1..][k] == r;
        assert want[0] < want[k + 1];
      }
      var rest := RowsIn(want[1..], lo, hi);
      forall k | 0 <= k < |rest| ensures want[0] < rest[k] { assert rest[k] in rest; }
    }
  }

  lemma {:induction false} RowsInSplit(want: seq<nat>, lo: nat, mid: nat, hi: nat)
    requires Ascending(want) && lo <= mid <= hi
    ensures RowsIn(want, lo, hi) == RowsIn(want, lo, mid) + RowsIn(want, mid, hi)
  {
    if want != [] {
      RowsInSplit(want[1..], lo, mid, hi);
      var a, b := RowsIn(want[1..], lo, mid), RowsIn(want[1..], mid, hi);
      if mid <= want[0] < hi {
        NoneBelow(want, lo, mid);
        assert [want[0]] + ([] + b) == [] + ([want[0]] + b);
      } else {
        assert [want[0]] + (a + b) == ([want[0]] + a) + b;
      }
    }
  }

  lemma {:induction false} NoneBelow(want: seq<nat>, lo: nat, mid: nat)
    requires Ascending(want) && (want == [] || mid <= want[0])
    ensures RowsIn(want, lo, mid) == []
  {
    if want != [] {
      assert want[1..] == [] || want[0] < want[1];
      NoneBelow(want[1..], lo, mid);
    }
  }

  lemma {:induction false} RowsInSlice(want: seq<nat>, lo: nat, hi: nat, i: nat, k: nat)
    requires Ascending(want) && i <= k <= |want|
    requires (forall x | 0 <= x < i :: want[x] < lo) && (forall x | i <= x < k :: lo <= want[x] < hi)
    requires k < |want| ==> want[k] >= hi
    ensures RowsIn(want, lo, hi) == want[i..k]
    decreases |want|
  {
    if i > 0 {
      RowsInSlice(want[1..], lo, hi, i - 1, k - 1);
      assert want[1..][i - 1..k - 1] == want[i..k];
    } else if k > 0 {
      RowsInSlice(want[1..], lo, hi, 0, k - 1);
      assert want[0..k] == [want[0]] + want[1..][0..k - 1];
    } else if want != [] {
      assert forall x | 0 <= x < |want| :: want[x] >= hi by {
        forall x | 0 <= x < |want| ensures want[x] >= hi {
          if x > 0 { assert want[0] < want[x]; }
        }
      }
      NoneIn(want, lo, hi);
    }
  }

  lemma {:induction false} NoneIn(want: seq<nat>, lo: nat, hi: nat)
    requires forall x | 0 <= x < |want| :: want[x] >= hi
    ensures RowsIn(want, lo, hi) == []
  {
    if want != [] { NoneIn(want[1..], lo, hi); }
  }

  /** Hands every wanted row from `start` on to `emitted`, chunk by chunk; `skipped` lie before. */
  method Run(len: nat, want: seq<nat>, chunk: nat, start: nat, maxChunks: Option<nat>)
      returns (emitted: seq<nat>, done: nat, skipped: seq<nat>)
    requires chunk >= 1 && start <= len && Ascending(want)
    ensures start <= done <= len && (maxChunks == None ==> done == len)
    ensures emitted == RowsIn(want, start, done) && skipped == RowsIn(want, 0, start)
  {
    var wi := 0;
    while wi < |want| && want[wi] < start
      invariant wi <= |want| && forall x | 0 <= x < wi :: want[x] < start
    {
      wi := wi + 1;
    }
    skipped := want[..wi];
    RowsInSlice(want, 0, start, 0, wi);
    assert want[0..wi] == want[..wi];
    done := start;
    emitted := [];
    var chunksDone := 0;
    NoneWithin(want, start);
    while done < len
      invariant start <= done <= len && wi <= |want|
      invariant forall x | 0 <= x < |want| :: x < wi <==> want[x] < done
      invariant emitted == RowsIn(want, start, done)
    {
      var end := if done + chunk <= len then done + chunk else len;
      var first := wi;
      var rowsHere := [];
      while wi < |want| && want[wi] < end
        invariant first <= wi <= |want| && rowsHere == want[first..wi]
        invariant forall x | first <= x < wi :: done <= want[x] < end
      {
        rowsHere := rowsHere + [want[wi]];
        wi := wi + 1;
      }
      RowsInSlice(want, done, end, first, wi);
      RowsInSplit(want, start, done, end);
      emitted := emitted + rowsHere;
      done := end;
      chunksDone := chunksDone + 1;
      if maxChunks.Some? && chunksDone >= maxChunks.value {
        break;
      }
    }
  }

  lemma {:induction false} NoneWithin(want: seq<nat>, lo: nat)
    ensures RowsIn(want, lo, lo) == []
  {
    if want != [] { NoneWithin(want[1..], lo); }
  }
}
