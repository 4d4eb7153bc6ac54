/** The 64-gram overlap guard: ngram_hashes and Guard of tools/calib_qwen35_ids.py. A hash match is only a
    candidate; every candidate is compared exactly. */
module NgramGuard {

  const NGRAM: nat := 64
  const P: nat := 0x9E3779B97F4A7C15
  const WORD: nat := 0x1_0000_0000_0000_0000

  function Mix(h: nat, id: int): nat {
    (h * P + (id + 1) % WORD) % WORD
  }

  /** The hash of one window, wrapping at 64 bits. */
  function Hash(window: seq<int>): nat {
    if window == [] then 0 else Mix(Hash(window[..|window| - 1]), window[|window| - 1])
  }

  /** How many windows a sequence has. */
  function Windows(ids: seq<int>): nat {
    if |ids| < NGRAM then 0 else |ids| - NGRAM + 1
  }

  function Window(ids: seq<int>, i: nat): (w: seq<int>)
    requires i < Windows(ids)
    ensures |w| == NGRAM
  {
    ids[i..i + NGRAM]
  }

  /** h has taken in the first j ids from i on. */
  predicate Covers(h: nat, ids: seq<int>, i: nat, j: nat) {
    i + j <= |ids| && h == Hash(ids[i..i + j])
  }

  lemma HashStep(ids: seq<int>, i: nat, j: nat)
    requires i + j < |ids|
    ensures Hash(ids[i..i + j + 1]) == Mix(Hash(ids[i..i + j]), ids[j + i])
  {
    var next := ids[i..i + j + 1];
    assert next[..j] == ids[i..i + j];
  }

  /** One pass per offset j over all windows at once. */
  method NgramHashes(ids: seq<int>) returns (hashes: seq<nat>)
    ensures |hashes| == Windows(ids) && forall i | 0 <= i < |hashes| :: hashes[i] == Hash(Window(ids, i))
  {
    var n := Windows(ids);
    if n == 0 {
      return [];
    }
    var h := new nat[n](_ => 0);
    for j := 0 to NGRAM
      invariant forall i | 0 <= i < n :: Covers(h[i], ids, i, j)
    {
      for i := 0 to n
        invariant forall x | 0 <= x < i :: Covers(h[x], ids, x, j + 1)
        invariant forall x | i <= x < n :: Covers(h[x], ids, x, j)
      {
        HashStep(ids, i, j);
        h[i] := Mix(h[i], ids[j + i]);
      }
    }
    hashes := h[..];
    assert forall i | 0 <= i < n :: Covers(hashes[i], ids, i, NGRAM);
  }

  /** Window i of the checked ids is window j of the s-th sequence added. */
  datatype Hit = Hit(i: nat, s: nat, j: nat)

  predicate Before(a: Hit, b: Hit) {
    a.i < b.i || (a.i == b.i && (a.s < b.s || (a.s == b.s && a.j < b.j)))
  }

  ghost predicate InOrder(found: seq<Hit>) {
    forall x, y | 0 <= x < y < |found| :: Before(found[x], found[y])
  }

  lemma InOrderAppend(a: seq<Hit>, b: seq<Hit>)
    requires InOrder(a) && InOrder(b)
    requires forall x, y | x in a && y in b :: Before(x, y)
    ensures InOrder(a + b)
  {
    var c := a + b;
    forall x, y | 0 <= x < y < |c| ensures Before(c[x], c[y]) {
      if x < |a| <= y { assert c[x] in a && c[y] in b; }
    }
  }

  predicate Same(ids: seq<int>, i: nat, other: seq<int>, j: nat) {
    i < Windows(ids) && j < Windows(other) && Window(ids, i) == Window(other, j)
  }

  class Guard<Label> {
    var seqs: seq<(Label, seq<int>)>
    var hashes: seq<seq<nat>>
    var all: set<nat>

    constructor ()
      ensures Valid() && seqs == []
    {
      seqs, hashes, all := [], [], {};
    }

    ghost predicate Valid() reads this {
      |hashes| == |seqs| && forall s | 0 <= s < |seqs| :: HashesOf(seqs[s].1, hashes[s])
    }

    ghost predicate HashesOf(ids: seq<int>, h: seq<nat>) {
      |h| == Windows(ids) && forall j | 0 <= j < |h| :: h[j] == Hash(Window(ids, j))
    }

    /** freeze has been called since the last add. */
    ghost predicate Frozen() reads this {
      forall s, j | 0 <= s < |seqs| && 0 <= j < Windows(seqs[s].1) :: Hash(Window(seqs[s].1, j)) in all
    }

    method Add(name: Label, ids: seq<int>)
      requires Valid()
      modifies this
      ensures Valid() && seqs == old(seqs) + [(name, ids)]
    {
      var h := NgramHashes(ids);
      seqs := seqs + [(name, ids)];
      hashes := hashes + [h];
    }

    method Freeze() returns (distinct: nat)
      requires Valid()
      modifies this`all
      ensures Frozen() && distinct == |all|
      ensures forall h :: h in all <==>
                exists s, j :: 0 <= s < |seqs| && 0 <= j < Windows(seqs[s].1) && h == Hash(Window(seqs[s].1, j))
    {
      all := set s, j | 0 <= s < |hashes| && 0 <= j < |hashes[s]| :: hashes[s][j];
      forall s, j | 0 <= s < |seqs| && 0 <= j < Windows(seqs[s].1) ensures Hash(Window(seqs[s].1, j)) in all {
        assert HashesOf(seqs[s].1, hashes[s]);
        assert hashes[s][j] in all;
      }
      forall h | h in all
        ensures exists s, j :: 0 <= s < |seqs| && 0 <= j < Windows(seqs[s].1) && h == Hash(Window(seqs[s].1, j))
      {
        var s, j :| 0 <= s < |hashes| && 0 <= j < |hashes[s]| && hashes[s][j] == h;
        assert HashesOf(seqs[s].1, hashes[s]);
        assert h == Hash(Window(seqs[s].1, j));
      }
      distinct := |all|;
    }

    /** The candidates in one added sequence, each compared. */
    method HitsIn(ids: seq<int>, i: nat, h: nat, s: nat) returns (found: seq<Hit>)
      requires i < Windows(ids) && h == Hash(Window(ids, i)) && s < |seqs|
      ensures InOrder(found)
      ensures forall x :: x in found <==> x.i == i && x.s == s && Same(ids, i, seqs[s].1, x.j)
    {
      var other := seqs[s].1;
      var sh := NgramHashes(other);
      found := [];
      for j := 0 to |sh|
        invariant InOrder(found)
        invariant forall x :: x in found <==> x.i == i && x.s == s && x.j < j && Same(ids, i, other, x.j)
      {
        if sh[j] == h && Window(other, j) == Window(ids, i) {
          InOrderAppend(found, [Hit(i, s, j)]);
          found := found + [Hit(i, s, j)];
        }
      }
    }

    method HitsAt(ids: seq<int>, i: nat, h: nat) returns (found: seq<Hit>)
      requires i < Windows(ids) && h == Hash(Window(ids, i))
      ensures InOrder(found)
      ensures forall x :: x in found <==> x.i == i && x.s < |seqs| && Same(ids, i, seqs[x.s].1, x.j)
    {
      found := [];
      for s := 0 to |seqs|
        invariant InOrder(found)
        invariant forall x :: x in found <==> x.i == i && x.s < s && Same(ids, i, seqs[x.s].1, x.j)
      {
        var here := HitsIn(ids, i, h, s);
        InOrderAppend(found, here);
        found := found + here;
      }
    }

    /** Exactly the windows shared with an added sequence, in order, each once: the hashes lose none. */
    method Hits(ids: seq<int>) returns (found: seq<Hit>)
      requires Frozen()
      ensures InOrder(found)
      ensures forall x :: x in found <==> x.s < |seqs| && Same(ids, x.i, seqs[x.s].1, x.j)
    {
      var hashes := NgramHashes(ids);
      found := [];
      for i := 0 to |hashes|
        invariant InOrder(found)
        invariant forall x :: x in found <==> x.i < i && x.s < |seqs| && Same(ids, x.i, seqs[x.s].1, x.j)
      {
        if hashes[i] in all {
          var here := HitsAt(ids, i, hashes[i]);
          InOrderAppend(found, here);
          found := found + here;
        } else {
          NoHit(ids, i);
        }
      }
    }

    lemma NoHit(ids: seq<int>, i: nat)
      requires Frozen() && i < Windows(ids) && Hash(Window(ids, i)) !in all
      ensures forall s, j | 0 <= s < |seqs| && 0 <= j :: !Same(ids, i, seqs[s].1, j)
    {
    }
  }
}
