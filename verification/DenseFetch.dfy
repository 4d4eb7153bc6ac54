/** Range fetching: tools/fetch-dense-originals.py. */
module DenseFetch {
  import opened Arithmetic
  import opened Common

  // ----- coalesce_ranges

  /** A byte range of one shard, and the place in the output file its bytes belong to. */
  datatype Item = Item(begin: nat, end: nat, out: nat)

  datatype Group = Group(begin: nat, end: nat, members: seq<Item>)

  predicate Before(a: Item, b: Item) {
    a.begin < b.begin || (a.begin == b.begin && a.end <= b.end)
  }

  function InsertItem(x: Item, s: seq<Item>): (t: seq<Item>)
    ensures |t| == |s| + 1
  {
    if s == [] || Before(x, s[0]) then [x] + s else [s[0]] + InsertItem(x, s[1..])
  }

  /** sorted(items, key=(begin, end)) */
  function SortItems(items: seq<Item>): (s: seq<Item>)
    ensures |s| == |items|
  {
    if items == [] then [] else InsertItem(items[0], SortItems(items[1..]))
  }

  ghost predicate InOrder(s: seq<Item>) {
    forall i, j | 0 <= i < j < |s| :: Before(s[i], s[j])
  }

  ghost predicate WellFormed(s: seq<Item>) {
    forall i | 0 <= i < |s| :: s[i].begin <= s[i].end
  }

  lemma {:induction false} InsertInOrder(x: Item, s: seq<Item>)
    requires InOrder(s)
    ensures InOrder(InsertItem(x, s)) && multiset(InsertItem(x, s)) == multiset(s) + multiset{x}
  {
    if s == [] || Before(x, s[0]) {
    } else {
      var rest := InsertItem(x, s[1..]);
      InsertInOrder(x, s[1..]);
      assert s == [s[0]] + s[1..];
      forall j | 0 <= j < |rest| ensures Before(s[0], rest[j]) {
        FirstIsBefore(x, s, rest, j);
      }
    }
  }

  lemma FirstIsBefore(x: Item, s: seq<Item>, rest: seq<Item>, j: nat)
    requires s != [] && InOrder(s) && !Before(x, s[0]) && j < |rest|
    requires multiset(rest) == multiset(s[1..]) + multiset{x}
    ensures Before(s[0], rest[j])
  {
    assert rest[j] in multiset(rest);
    if rest[j] != x {
      assert rest[j] in multiset(s[1..]);
      var k :| 0 <= k < |s[1..]| && s[1..][k] == rest[j];
      assert Before(s[0], s[k + 1]);
    }
  }

  lemma {:induction false} SortedInOrder(items: seq<Item>)
    ensures InOrder(SortItems(items)) && multiset(SortItems(items)) == multiset(items)
  {
    if items != [] {
      SortedInOrder(items[1..]);
      InsertInOrder(items[0], SortItems(items[1..]));
      assert items == [items[0]] + items[1..];
    }
  }

  /** The furthest end among s[i..j]. */
  function MaxEnd(s: seq<Item>, i: nat, j: nat): nat
    requires i < j <= |s|
  {
    if j == i + 1 then s[i].end else Max(MaxEnd(s, i, j - 1), s[j - 1].end)
  }

  predicate GapFits(s: seq<Item>, i: nat, k: nat, maxGap: nat)
    requires i < k < |s|
  {
    s[k].begin as int - MaxEnd(s, i, k) <= maxGap
  }

  /** s[i..j] may be one request: a single range always, several only within the two limits. */
  ghost predicate Allowed(s: seq<Item>, i: nat, j: nat, maxGap: nat, maxSpan: nat)
    requires i < j <= |s|
  {
    j > i + 1 ==>
      && (forall k | i < k < j :: GapFits(s, i, k, maxGap))
      && MaxEnd(s, i, j) as int - s[i].begin <= maxSpan
  }

  /** `cuts` splits s[..n] into consecutive non-empty groups s[cuts[k-1]..cuts[k]]. */
  ghost predicate Splits(s: seq<Item>, cuts: seq<nat>, n: nat) {
    && cuts != [] && cuts[0] == 0 && cuts[|cuts| - 1] == n <= |s|
    && forall i, j | 0 <= i < j < |cuts| :: cuts[i] < cuts[j]
  }

  /** An order-preserving partition of s into allowed requests. */
  ghost predicate IsPlan(s: seq<Item>, cuts: seq<nat>, n: nat, maxGap: nat, maxSpan: nat) {
    && Splits(s, cuts, n)
    && forall k | 0 < k < |cuts| :: AllowedGroup(s, cuts, k, maxGap, maxSpan)
  }

  ghost predicate AllowedGroup(s: seq<Item>, cuts: seq<nat>, k: nat, maxGap: nat, maxSpan: nat)
    requires 0 < k < |cuts|
  {
    cuts[k - 1] < cuts[k] <= |s| && Allowed(s, cuts[k - 1], cuts[k], maxGap, maxSpan)
  }

  ghost predicate IsHull(s: seq<Item>, i: nat, j: nat, g: Group) {
    i < j <= |s| && g == Group(s[i].begin, MaxEnd(s, i, j), s[i..j])
  }

  ghost predicate Hulls(s: seq<Item>, cuts: seq<nat>, groups: seq<Group>) {
    |groups| == |cuts| - 1 && forall k | 0 < k < |cuts| :: IsHull(s, cuts[k - 1], cuts[k], groups[k - 1])
  }

  /** What the loop builds: no group but the last could have taken the next item. */
  ghost predicate IsGreedy(s: seq<Item>, cuts: seq<nat>, n: nat, maxGap: nat, maxSpan: nat) {
    && IsPlan(s, cuts, n, maxGap, maxSpan)
    && forall k | 0 < k < |cuts| - 1 :: Closed(s, cuts, k, maxGap, maxSpan)
  }

  ghost predicate Closed(s: seq<Item>, cuts: seq<nat>, k: nat, maxGap: nat, maxSpan: nat)
    requires 0 < k < |cuts|
  {
    cuts[k - 1] < cuts[k] < |s| && !Allowed(s, cuts[k - 1], cuts[k] + 1, maxGap, maxSpan)
  }

  lemma {:induction false} MaxEndSplit(s: seq<Item>, i: nat, m: nat, j: nat)
    requires i < m < j <= |s|
    ensures MaxEnd(s, i, j) == Max(MaxEnd(s, i, m), MaxEnd(s, m, j))
    decreases j
  {
    if m < j - 1 { MaxEndSplit(s, i, m, j - 1); }
  }

  lemma {:induction false} MaxEndBounds(s: seq<Item>, i: nat, k: nat, j: nat)
    requires i <= k < j <= |s|
    ensures s[k].end <= MaxEnd(s, i, j)
    decreases j
  {
    if k < j - 1 { MaxEndBounds(s, i, k, j - 1); }
  }

  /** A range longer than the span limit is always alone. */
  predicate Oversized(x: Item, maxSpan: nat) {
    x.end as int - x.begin > maxSpan
  }

  lemma AllowedHasNoOversized(s: seq<Item>, i: nat, j: nat, k: nat, maxGap: nat, maxSpan: nat)
    requires InOrder(s) && i <= k < j <= |s| && i + 1 < j && Allowed(s, i, j, maxGap, maxSpan)
    ensures !Oversized(s[k], maxSpan)
  {
    MaxEndBounds(s, i, k, j);
    assert i < k ==> Before(s[i], s[k]);
  }

  lemma AllowedPrefix(s: seq<Item>, i: nat, m: nat, j: nat, maxGap: nat, maxSpan: nat)
    requires i < m <= j <= |s| && Allowed(s, i, j, maxGap, maxSpan)
    ensures Allowed(s, i, m, maxGap, maxSpan)
  {
    if i + 1 < m < j {
      MaxEndSplit(s, i, m, j);
      assert MaxEnd(s, i, m) <= MaxEnd(s, i, j);
    }
  }

  /** The item that closes a group ends behind everything before it, oversized ranges apart. */
  lemma {:induction false} CloserEndsLast(s: seq<Item>, cuts: seq<nat>, n: nat, k: nat, o: nat, maxGap: nat,
                                          maxSpan: nat)
    requires InOrder(s) && WellFormed(s) && IsGreedy(s, cuts, n, maxGap, maxSpan)
    requires 0 < k < |cuts| - 1 && o < cuts[k]
    requires forall a | o <= a < cuts[k] :: !Oversized(s[a], maxSpan)
    ensures cuts[k] < |s| && MaxEnd(s, o, cuts[k]) <= s[cuts[k]].end
    decreases k
  {
    var p, b := cuts[k - 1], cuts[k];
    assert AllowedGroup(s, cuts, k, maxGap, maxSpan) && Closed(s, cuts, k, maxGap, maxSpan);
    if p + 1 < b { AllowedHasNoOversized(s, p, b, p, maxGap, maxSpan); }
    ClosingItem(s, p, b, maxGap, maxSpan);
    if o < p {
      CloserEndsLast(s, cuts, n, k - 1, o, maxGap, maxSpan);
      MaxEndSplit(s, o, p, b);
      MaxEndBounds(s, p, p, b);
    } else if p < o {
      MaxEndSplit(s, p, o, b);
    }
  }

  lemma ClosingItem(s: seq<Item>, p: nat, b: nat, maxGap: nat, maxSpan: nat)
    requires WellFormed(s) && p < b < |s|
    requires Allowed(s, p, b, maxGap, maxSpan) && !Allowed(s, p, b + 1, maxGap, maxSpan) && !Oversized(s[p], maxSpan)
    ensures MaxEnd(s, p, b) < s[b].end
  {
    var e := MaxEnd(s, p, b);
    JoinIsAllowed(s, p, b, maxGap, maxSpan);
    assert s[b].begin <= s[b].end;
    assert p + 1 == b ==> e == s[p].end;
    assert e as int - s[p].begin <= maxSpan;
  }

  /** Starting later cannot lose a request that an earlier start could make. */
  lemma AllowedFromLater(s: seq<Item>, o: nat, g: nat, j: nat, maxGap: nat, maxSpan: nat)
    requires InOrder(s) && o < g < j <= |s| && Allowed(s, o, j, maxGap, maxSpan)
    requires MaxEnd(s, o, g) <= s[g].end
    ensures Allowed(s, g, j, maxGap, maxSpan)
  {
    forall k | g < k < j ensures GapFits(s, g, k, maxGap) {
      MaxEndSplit(s, o, g, k);
      MaxEndBounds(s, g, g, k);
      assert GapFits(s, o, k, maxGap);
    }
    MaxEndSplit(s, o, g, j);
    assert Before(s[o], s[g]);
  }

  lemma AllowedFromCut(s: seq<Item>, cuts: seq<nat>, k: nat, o: nat, j: nat, maxGap: nat, maxSpan: nat)
    requires InOrder(s) && WellFormed(s) && IsGreedy(s, cuts, |s|, maxGap, maxSpan)
    requires k < |cuts| - 1 && o < cuts[k] < j <= |s| && Allowed(s, o, j, maxGap, maxSpan)
    ensures Allowed(s, cuts[k], j, maxGap, maxSpan)
  {
    forall a | o <= a < cuts[k] ensures !Oversized(s[a], maxSpan) {
      AllowedHasNoOversized(s, o, j, a, maxGap, maxSpan);
    }
    CloserEndsLast(s, cuts, |s|, k, o, maxGap, maxSpan);
    AllowedFromLater(s, o, cuts[k], j, maxGap, maxSpan);
  }

  lemma AheadByOneMore(s: seq<Item>, cuts: seq<nat>, other: seq<nat>, k: nat, maxGap: nat, maxSpan: nat)
    requires InOrder(s) && WellFormed(s)
    requires IsGreedy(s, cuts, |s|, maxGap, maxSpan)
    requires 0 < k < |cuts| - 1 && 0 < k < |other| && AllowedGroup(s, other, k, maxGap, maxSpan)
    requires other[k - 1] <= cuts[k - 1]
    ensures other[k] <= cuts[k]
  {
    var o, g, x := other[k - 1], cuts[k - 1], cuts[k];
    assert Closed(s, cuts, k, maxGap, maxSpan);
    if x < other[k] {
      AllowedPrefix(s, o, x + 1, other[k], maxGap, maxSpan);
      if o < g { AllowedFromCut(s, cuts, k - 1, o, x + 1, maxGap, maxSpan); }
    }
  }

  lemma {:induction false} StaysAhead(s: seq<Item>, cuts: seq<nat>, other: seq<nat>, k: nat, maxGap: nat, maxSpan: nat)
    requires InOrder(s) && WellFormed(s)
    requires IsGreedy(s, cuts, |s|, maxGap, maxSpan) && IsPlan(s, other, |s|, maxGap, maxSpan)
    requires k < |cuts| && k < |other|
    ensures other[k] <= cuts[k]
    decreases k
  {
    if 0 < k < |cuts| - 1 {
      StaysAhead(s, cuts, other, k - 1, maxGap, maxSpan);
      assert AllowedGroup(s, other, k, maxGap, maxSpan);
      AheadByOneMore(s, cuts, other, k, maxGap, maxSpan);
    } else {
      assert k == |other| - 1 || other[k] < other[|other| - 1];
    }
  }

  /** No order-preserving plan within the limits has fewer requests than the greedy one. */
  lemma GreedyIsMinimal(s: seq<Item>, cuts: seq<nat>, other: seq<nat>, maxGap: nat, maxSpan: nat)
    requires InOrder(s) && WellFormed(s)
    requires IsGreedy(s, cuts, |s|, maxGap, maxSpan) && IsPlan(s, other, |s|, maxGap, maxSpan)
    ensures |cuts| <= |other|
  {
    if |cuts| > |other| {
      assert cuts[|other| - 1] < cuts[|cuts| - 1];
      StaysAhead(s, cuts, other, |other| - 1, maxGap, maxSpan);
    }
  }

  lemma SortedWellFormed(items: seq<Item>)
    requires WellFormed(items)
    ensures WellFormed(SortItems(items))
  {
    SortedInOrder(items);
    var s := SortItems(items);
    forall i | 0 <= i < |s| ensures s[i].begin <= s[i].end {
      assert s[i] in multiset(s);
    }
  }

  /** The loop body: the item joins the last group or opens a new one. */
  method TakeItem(s: seq<Item>, n: nat, before: seq<Group>, ghost cutsBefore: seq<nat>, maxGap: nat, maxSpan: nat)
      returns (groups: seq<Group>, ghost cuts: seq<nat>)
    requires n < |s| && IsGreedy(s, cutsBefore, n, maxGap, maxSpan) && Hulls(s, cutsBefore, before)
    ensures IsGreedy(s, cuts, n + 1, maxGap, maxSpan) && Hulls(s, cuts, groups)
  {
    var it := s[n];
    if before != [] {
      var last := before[|before| - 1];
      ghost var p := cutsBefore[|cutsBefore| - 2];
      assert IsHull(s, p, n, last) && AllowedGroup(s, cutsBefore, |cutsBefore| - 1, maxGap, maxSpan);
      var gap := it.begin as int - last.end;
      var span := Max(last.end, it.end) as int - last.begin;
      JoinIsAllowed(s, p, n, maxGap, maxSpan);
      if gap <= maxGap && span <= maxSpan {
        Widen(s, cutsBefore, n, maxGap, maxSpan);
        var wider := Group(last.begin, Max(last.end, it.end), last.members + [it]);
        WidenHulls(s, cutsBefore, before, n, wider);
        return before[..|before| - 1] + [wider], cutsBefore[..|cutsBefore| - 1] + [n + 1];
      }
    }
    Open(s, cutsBefore, n, maxGap, maxSpan);
    groups := before + [Group(it.begin, it.end, [it])];
    cuts := cutsBefore + [n + 1];
    assert s[n..n + 1] == [it];
  }

  method CoalesceRanges(items: seq<Item>, maxGap: nat, maxSpan: nat) returns (groups: seq<Group>, ghost cuts: seq<nat>)
    requires WellFormed(items)
    ensures IsPlan(SortItems(items), cuts, |items|, maxGap, maxSpan) && Hulls(SortItems(items), cuts, groups)
    ensures forall other | IsPlan(SortItems(items), other, |items|, maxGap, maxSpan) :: |groups| <= |other| - 1
  {
    var s := SortItems(items);
    SortedInOrder(items);
    SortedWellFormed(items);
    groups, cuts := [], [0];
    for n := 0 to |s|
      invariant IsGreedy(s, cuts, n, maxGap, maxSpan) && Hulls(s, cuts, groups)
    {
      groups, cuts := TakeItem(s, n, groups, cuts, maxGap, maxSpan);
    }
    forall other | IsPlan(s, other, |s|, maxGap, maxSpan) ensures |groups| <= |other| - 1 {
      GreedyIsMinimal(s, cuts, other, maxGap, maxSpan);
    }
  }

  lemma JoinIsAllowed(s: seq<Item>, p: nat, n: nat, maxGap: nat, maxSpan: nat)
    requires p < n < |s| && Allowed(s, p, n, maxGap, maxSpan)
    ensures Allowed(s, p, n + 1, maxGap, maxSpan) <==>
              && s[n].begin as int - MaxEnd(s, p, n) <= maxGap
              && Max(MaxEnd(s, p, n), s[n].end) as int - s[p].begin <= maxSpan
  {
    assert MaxEnd(s, p, n + 1) == Max(MaxEnd(s, p, n), s[n].end);
    assert GapFits(s, p, n, maxGap) <==> s[n].begin as int - MaxEnd(s, p, n) <= maxGap;
  }

  lemma Widen(s: seq<Item>, cuts: seq<nat>, n: nat, maxGap: nat, maxSpan: nat)
    requires n < |s| && IsGreedy(s, cuts, n, maxGap, maxSpan) && |cuts| >= 2
    requires Allowed(s, cuts[|cuts| - 2], n + 1, maxGap, maxSpan)
    ensures IsGreedy(s, cuts[..|cuts| - 1] + [n + 1], n + 1, maxGap, maxSpan)
  {
    var wide := cuts[..|cuts| - 1] + [n + 1];
    forall k | 0 < k < |wide| ensures AllowedGroup(s, wide, k, maxGap, maxSpan) {
      if k < |wide| - 1 { assert AllowedGroup(s, cuts, k, maxGap, maxSpan); }
    }
    forall k | 0 < k < |wide| - 1 ensures Closed(s, wide, k, maxGap, maxSpan) {
      assert Closed(s, cuts, k, maxGap, maxSpan);
    }
  }

  lemma WidenHulls(s: seq<Item>, cuts: seq<nat>, groups: seq<Group>, n: nat, wider: Group)
    requires n < |s| && Splits(s, cuts, n) && Hulls(s, cuts, groups) && groups != []
    requires var last := groups[|groups| - 1];
             wider == Group(last.begin, Max(last.end, s[n].end), last.members + [s[n]])
    ensures Hulls(s, cuts[..|cuts| - 1] + [n + 1], groups[..|groups| - 1] + [wider])
  {
    var p := cuts[|cuts| - 2];
    assert IsHull(s, p, n, groups[|groups| - 1]);
    assert s[p..n] + [s[n]] == s[p..n + 1];
    assert IsHull(s, p, n + 1, wider);
  }

  lemma Open(s: seq<Item>, cuts: seq<nat>, n: nat, maxGap: nat, maxSpan: nat)
    requires n < |s| && IsGreedy(s, cuts, n, maxGap, maxSpan)
    requires |cuts| >= 2 ==> cuts[|cuts| - 2] < n && !Allowed(s, cuts[|cuts| - 2], n + 1, maxGap, maxSpan)
    ensures IsGreedy(s, cuts + [n + 1], n + 1, maxGap, maxSpan)
  {
    var more := cuts + [n + 1];
    forall k | 0 < k < |more| ensures AllowedGroup(s, more, k, maxGap, maxSpan) {
      if k < |cuts| { assert AllowedGroup(s, cuts, k, maxGap, maxSpan); }
    }
    forall k | 0 < k < |more| - 1 ensures Closed(s, more, k, maxGap, maxSpan) {
      if k < |cuts| - 1 { assert Closed(s, cuts, k, maxGap, maxSpan); }
    }
  }

  // ----- The scatter loop: requests in chunks, bytes straight to their place

  function Len(m: Item): nat {
    if m.begin <= m.end then m.end - m.begin else 0
  }

  /** How much of `m` has arrived when everything before `pos` has. */
  function Arrived(m: Item, pos: nat): nat {
    if pos <= m.begin then 0 else if pos >= m.end then Len(m) else pos - m.begin
  }

  predicate Apart(a: Item, b: Item) {
    a.out + Len(a) <= b.out || b.out + Len(b) <= a.out
  }

  ghost predicate AllApart(s: seq<Item>) {
    forall i, j | 0 <= i < j < |s| :: Apart(s[i], s[j])
  }

  predicate Within(k: nat, m: Item) {
    m.out <= k < m.out + Len(m)
  }

  ghost predicate Fits(m: Item, shard: Bytes, out: nat) {
    m.begin <= m.end <= |shard| && m.out + Len(m) <= out
  }

  /** The first `n` bytes of `m` are in place. */
  ghost predicate Placed(file: Bytes, shard: Bytes, m: Item, n: nat)
    requires Fits(m, shard, |file|)
  {
    n <= Len(m) && file[m.out..m.out + n] == shard[m.begin..m.begin + n]
  }

  /** Nothing outside the members' slices changed. */
  ghost predicate OnlyInside(before: Bytes, after: Bytes, members: seq<Item>) {
    && |after| == |before|
    && forall k: nat | k < |before| && (forall i | 0 <= i < |members| :: !Within(k, members[i])) ::
         after[k] == before[k]
  }

  method WriteAt(out: array<byte>, at: nat, part: Bytes)
    requires at + |part| <= out.Length
    modifies out
    ensures out[..] == old(out[..])[..at] + part + old(out[..])[at + |part|..]
  {
    forall k | 0 <= k < |part| {
      out[at + k] := part[k];
    }
  }

  function Spliced(file: Bytes, at: nat, part: Bytes): Bytes
    requires at + |part| <= |file|
  {
    file[..at] + part + file[at + |part|..]
  }

  /** The part of `m` in the shard bytes [pos, stop). */
  function PartOf(shard: Bytes, m: Item, pos: nat, stop: nat): Bytes
    requires m.begin <= m.end <= |shard| && pos <= stop
  {
    shard[m.begin + Arrived(m, pos)..m.begin + Arrived(m, stop)]
  }

  lemma PartGrows(file: Bytes, shard: Bytes, m: Item, pos: nat, stop: nat)
    requires Fits(m, shard, |file|) && pos <= stop && Placed(file, shard, m, Arrived(m, pos))
    ensures m.out + Arrived(m, stop) <= |file|
    ensures Placed(Spliced(file, m.out + Arrived(m, pos), PartOf(shard, m, pos, stop)), shard, m, Arrived(m, stop))
  {
    var a, b := Arrived(m, pos), Arrived(m, stop);
    var part := PartOf(shard, m, pos, stop);
    var next := Spliced(file, m.out + a, part);
    assert next[m.out..m.out + b] == file[m.out..m.out + a] + part;
    assert shard[m.begin..m.begin + b] == shard[m.begin..m.begin + a] + part;
  }

  lemma OthersKeep(file: Bytes, shard: Bytes, m: Item, x: Item, at: nat, part: Bytes, n: nat)
    requires Fits(m, shard, |file|) && Fits(x, shard, |file|) && Apart(m, x) && Placed(file, shard, x, n)
    requires m.out <= at && at + |part| <= m.out + Len(m)
    ensures Placed(Spliced(file, at, part), shard, x, n)
  {
    var next := Spliced(file, at, part);
    forall k | x.out <= k < x.out + n ensures next[k] == file[k] {
    }
    assert next[x.out..x.out + n] == file[x.out..x.out + n];
  }

  /** `m` has everything before `pos`: in the file, and in the running digest `fed`. */
  ghost predicate HasUpTo(file: Bytes, shard: Bytes, m: Item, fed: Bytes, pos: nat) {
    && Fits(m, shard, |file|) && Placed(file, shard, m, Arrived(m, pos))
    && fed == shard[m.begin..m.begin + Arrived(m, pos)]
  }

  lemma SliceOfSlice(b: Bytes, pos: nat, stop: nat, lo: nat, hi: nat)
    requires pos <= lo <= hi <= stop <= |b|
    ensures b[pos..stop][lo - pos..hi - pos] == b[lo..hi]
  {
    var l, r := b[pos..stop][lo - pos..hi - pos], b[lo..hi];
    assert |l| == |r|;
    forall i | 0 <= i < |l| ensures l[i] == r[i] {
      assert l[i] == b[pos..stop][lo - pos + i];
    }
  }

  lemma MemberTakes(file: Bytes, shard: Bytes, m: Item, fed: Bytes, pos: nat, stop: nat)
    requires pos <= stop && HasUpTo(file, shard, m, fed, pos)
    ensures m.out + Arrived(m, stop) <= |file|
    ensures HasUpTo(Spliced(file, m.out + Arrived(m, pos), PartOf(shard, m, pos, stop)), shard, m,
                    fed + PartOf(shard, m, pos, stop), stop)
  {
    PartGrows(file, shard, m, pos, stop);
    var a, b := Arrived(m, pos), Arrived(m, stop);
    assert shard[m.begin..m.begin + a] + shard[m.begin + a..m.begin + b] == shard[m.begin..m.begin + b];
  }

  lemma NothingNew(file: Bytes, shard: Bytes, m: Item, pos: nat, stop: nat)
    requires Fits(m, shard, |file|) && pos <= stop &&
               (stop <= m.begin || m.end <= pos || m.begin == m.end || pos == stop)
    ensures m.out + Arrived(m, stop) <= |file| && PartOf(shard, m, pos, stop) == []
    ensures Spliced(file, m.out + Arrived(m, pos), []) == file
  {
    var at := m.out + Arrived(m, pos);
    assert file[..at] + [] + file[at..] == file;
  }

  lemma ShareOfBlob(shard: Bytes, m: Item, pos: nat, stop: nat, lo: nat, hi: nat)
    requires pos <= stop <= |shard| && m.begin <= m.end <= |shard|
    requires lo == Max(pos, m.begin) && hi == (if stop <= m.end then stop else m.end) && lo < hi
    ensures lo - m.begin == Arrived(m, pos) && hi - m.begin == Arrived(m, stop) <= Len(m)
    ensures shard[pos..stop][lo - pos..hi - pos] == PartOf(shard, m, pos, stop)
  {
    SliceOfSlice(shard, pos, stop, lo, hi);
  }

  /** One member's share of one chunk. */
  method ScatterMember(shard: Bytes, blob: Bytes, out: array<byte>, m: Item, pos: nat, stop: nat, fed: Bytes)
      returns (more: Bytes)
    requires pos <= stop <= |shard| && blob == shard[pos..stop] && Fits(m, shard, out.Length)
    modifies out
    ensures m.out + Arrived(m, stop) <= |old(out[..])|
    ensures out[..] == Spliced(old(out[..]), m.out + Arrived(m, pos), PartOf(shard, m, pos, stop))
    ensures more == fed + PartOf(shard, m, pos, stop)
  {
    var lo, hi := Max(pos, m.begin), if stop <= m.end then stop else m.end;
    if lo >= hi {
      NothingNew(out[..], shard, m, pos, stop);
      return fed;
    }
    ShareOfBlob(shard, m, pos, stop, lo, hi);
    var part := blob[lo - pos..hi - pos];
    WriteAt(out, m.out + (lo - m.begin), part);
    more := fed + part;
  }

  /** Inside a chunk: the first `n` members have everything before `stop`, the others everything before `pos`. */
  ghost predicate AllUpTo(file: Bytes, shard: Bytes, members: seq<Item>, digests: seq<Bytes>, n: nat, pos: nat,
                          stop: nat) {
    && |digests| == |members|
    && forall i | 0 <= i < |members| :: MemberHas(file, shard, members, digests, n, pos, stop, i)
  }

  ghost predicate MemberHas(file: Bytes, shard: Bytes, members: seq<Item>, digests: seq<Bytes>, n: nat, pos: nat,
                            stop: nat, i: nat)
    requires i < |members| == |digests|
  {
    HasUpTo(file, shard, members[i], digests[i], if i < n then stop else pos)
  }

  lemma OtherStays(file: Bytes, shard: Bytes, m: Item, x: Item, fed: Bytes, at: nat, part: Bytes, pos: nat)
    requires Fits(m, shard, |file|) && Apart(m, x) && HasUpTo(file, shard, x, fed, pos)
    requires m.out <= at && at + |part| <= m.out + Len(m)
    ensures HasUpTo(Spliced(file, at, part), shard, x, fed, pos)
  {
    OthersKeep(file, shard, m, x, at, part, Arrived(x, pos));
  }

  /** Its share written, member n has everything before `stop`. */
  lemma OwnShare(file: Bytes, shard: Bytes, members: seq<Item>, digests: seq<Bytes>, n: nat, pos: nat, stop: nat)
    requires n < |members| == |digests| && pos <= stop && MemberHas(file, shard, members, digests, n, pos, stop, n)
    ensures Fits(members[n], shard, |file|) && members[n].out + Arrived(members[n], stop) <= |file|
    ensures var m := members[n];
            MemberHas(Spliced(file, m.out + Arrived(m, pos), PartOf(shard, m, pos, stop)), shard, members,
                      digests[n := digests[n] + PartOf(shard, m, pos, stop)], n + 1, pos, stop, n)
  {
    MemberTakes(file, shard, members[n], digests[n], pos, stop);
  }

  /** A share of member n leaves what the others have. */
  lemma OthersShare(file: Bytes, shard: Bytes, members: seq<Item>, digests: seq<Bytes>, n: nat, pos: nat, stop: nat,
                    i: nat, at: nat, part: Bytes, more: Bytes)
    requires i < |members| == |digests| && n < |members| && i != n && AllApart(members)
    requires MemberHas(file, shard, members, digests, n, pos, stop, i) && Fits(members[n], shard, |file|)
    requires members[n].out <= at && at + |part| <= members[n].out + Len(members[n])
    ensures MemberHas(Spliced(file, at, part), shard, members, digests[n := more], n + 1, pos, stop, i)
  {
    assert Apart(members[n], members[i]);
    OtherStays(file, shard, members[n], members[i], digests[i], at, part, if i < n then stop else pos);
  }

  lemma MemberStep(file: Bytes, shard: Bytes, members: seq<Item>, digests: seq<Bytes>, n: nat, pos: nat, stop: nat)
    requires n < |members| && AllApart(members) && pos <= stop && AllUpTo(file, shard, members, digests, n, pos, stop)
    ensures Fits(members[n], shard, |file|) && members[n].out + Arrived(members[n], stop) <= |file|
    ensures var m := members[n];
            AllUpTo(Spliced(file, m.out + Arrived(m, pos), PartOf(shard, m, pos, stop)), shard, members,
                    digests[n := digests[n] + PartOf(shard, m, pos, stop)], n + 1, pos, stop)
  {
    OwnShare(file, shard, members, digests, n, pos, stop);
    var m, part := members[n], PartOf(shard, members[n], pos, stop);
    var at, more := m.out + Arrived(m, pos), digests[n] + part;
    var next, fed, taken := Spliced(file, at, part), digests[n := more], n + 1;
    forall i | 0 <= i < |members| ensures MemberHas(next, shard, members, fed, taken, pos, stop, i) {
      if i != n { OthersShare(file, shard, members, digests, n, pos, stop, i, at, part, more); }
    }
  }

  /** One chunk: every member takes its share of the blob. */
  method ScatterChunk(shard: Bytes, out: array<byte>, members: seq<Item>, pos: nat, stop: nat, fed: seq<Bytes>)
      returns (digests: seq<Bytes>)
    requires pos <= stop <= |shard| && AllApart(members) && AllUpTo(out[..], shard, members, fed, 0, pos, stop)
    modifies out
    ensures OnlyInside(old(out[..]), out[..], members)
    ensures AllUpTo(out[..], shard, members, digests, |members|, pos, stop)
  {
    var blob := shard[pos..stop];
    digests := fed;
    ghost var first := out[..];
    for n := 0 to |members|
      invariant OnlyInside(first, out[..], members) && AllUpTo(out[..], shard, members, digests, n, pos, stop)
    {
      ghost var next := MemberMoves(first, out[..], shard, members, digests, n, pos, stop);
      var more := ScatterMember(shard, blob, out, members[n], pos, stop, digests[n]);
      assert out[..] == next;
      digests := digests[n := more];
    }
  }

  /** The file behind member n's share, and that nothing else moved. */
  lemma MemberMoves(first: Bytes, file: Bytes, shard: Bytes, members: seq<Item>, digests: seq<Bytes>, n: nat, pos: nat,
                    stop: nat)
      returns (next: Bytes)
    requires n < |members| && AllApart(members) && pos <= stop && AllUpTo(file, shard, members, digests, n, pos, stop)
    requires OnlyInside(first, file, members)
    ensures Fits(members[n], shard, |file|) && members[n].out + Arrived(members[n], stop) <= |file|
    ensures next == Spliced(file, members[n].out + Arrived(members[n], pos), PartOf(shard, members[n], pos, stop))
    ensures OnlyInside(first, next, members)
    ensures AllUpTo(next, shard, members, digests[n := digests[n] + PartOf(shard, members[n], pos, stop)],
                    n + 1, pos, stop)
  {
    var m := members[n];
    MemberStep(file, shard, members, digests, n, pos, stop);
    next := Spliced(file, m.out + Arrived(m, pos), PartOf(shard, m, pos, stop));
    SpliceInside(first, file, members, n, m.out + Arrived(m, pos), PartOf(shard, m, pos, stop));
  }

  lemma SpliceInside(first: Bytes, file: Bytes, members: seq<Item>, n: nat, at: nat, part: Bytes)
    requires n < |members| && OnlyInside(first, file, members)
    requires members[n].out <= at && at + |part| <= members[n].out + Len(members[n]) <= |file|
    ensures OnlyInside(first, Spliced(file, at, part), members)
  {
    var next := Spliced(file, at, part);
    forall k: nat | k < |first| && (forall i | 0 <= i < |members| :: !Within(k, members[i]))
      ensures next[k] == first[k]
    {
      assert !Within(k, members[n]);
    }
  }

  lemma FirstChunk(file: Bytes, shard: Bytes, members: seq<Item>, digests: seq<Bytes>, pos: nat, stop: nat)
    requires AllUpTo(file, shard, members, digests, 0, pos, pos)
    ensures AllUpTo(file, shard, members, digests, 0, pos, stop)
  {
    forall i | 0 <= i < |members| ensures MemberHas(file, shard, members, digests, 0, pos, stop, i) {
      assert MemberHas(file, shard, members, digests, 0, pos, pos, i);
    }
  }

  /** Behind a chunk every member is ready for the next one. */
  lemma NextChunk(file: Bytes, shard: Bytes, members: seq<Item>, digests: seq<Bytes>, pos: nat, stop: nat)
    requires AllUpTo(file, shard, members, digests, |members|, pos, stop)
    ensures AllUpTo(file, shard, members, digests, 0, stop, stop)
  {
    forall i | 0 <= i < |members| ensures MemberHas(file, shard, members, digests, 0, stop, stop, i) {
      assert MemberHas(file, shard, members, digests, |members|, pos, stop, i);
    }
  }

  /** One coalesced group, cut into requests of at most `chunk` bytes. */
  method ScatterGroup(shard: Bytes, out: array<byte>, g: Group, chunk: nat) returns (digests: seq<Bytes>)
    requires chunk >= 1 && g.begin <= g.end <= |shard| && AllApart(g.members)
    requires forall i | 0 <= i < |g.members| ::
               Fits(g.members[i], shard, out.Length) && g.begin <= g.members[i].begin && g.members[i].end <= g.end
    modifies out
    ensures |digests| == |g.members| && OnlyInside(old(out[..]), out[..], g.members)
    ensures forall i | 0 <= i < |g.members| :: IsCopy(out[..], shard, g.members[i], digests[i])
  {
    var members := g.members;
    digests := seq(|members|, _ => []);
    ghost var first := out[..];
    var pos := g.begin;
    while pos < g.end
      invariant g.begin <= pos <= g.end && OnlyInside(first, out[..], members)
      invariant AllUpTo(out[..], shard, members, digests, 0, pos, pos)
    {
      var stop := if pos + chunk <= g.end then pos + chunk else g.end;
      ghost var middle := out[..];
      FirstChunk(middle, shard, members, digests, pos, stop);
      digests := ScatterChunk(shard, out, members, pos, stop, digests);
      InsideTwice(first, middle, out[..], members);
      NextChunk(out[..], shard, members, digests, pos, stop);
      pos := stop;
    }
    forall i | 0 <= i < |members| ensures IsCopy(out[..], shard, members[i], digests[i]) {
      assert MemberHas(out[..], shard, members, digests, 0, pos, pos, i);
    }
  }

  /** The slice of the file is the shard's slice, and the digest was fed exactly those bytes in order. */
  ghost predicate IsCopy(file: Bytes, shard: Bytes, m: Item, fed: Bytes) {
    && Fits(m, shard, |file|)
    && file[m.out..m.out + Len(m)] == shard[m.begin..m.end]
    && fed == shard[m.begin..m.end]
  }

  lemma InsideTwice(a: Bytes, b: Bytes, c: Bytes, members: seq<Item>)
    requires OnlyInside(a, b, members) && OnlyInside(b, c, members)
    ensures OnlyInside(a, c, members)
  {
  }

  // ----- One shard: coalesce, then scatter every group

  lemma {:induction false} InsertApart(x: Item, s: seq<Item>)
    requires AllApart(s) && forall i | 0 <= i < |s| :: Apart(x, s[i])
    ensures AllApart(InsertItem(x, s)) && multiset(InsertItem(x, s)) == multiset(s) + multiset{x}
  {
    if s == [] || Before(x, s[0]) {
    } else {
      InsertApart(x, s[1..]);
      assert s == [s[0]] + s[1..];
      var rest := InsertItem(x, s[1..]);
      forall j | 0 <= j < |rest| ensures Apart(s[0], rest[j]) {
        assert rest[j] in multiset(rest);
        if rest[j] != x {
          var k :| 0 <= k < |s[1..]| && s[1..][k] == rest[j];
          assert Apart(s[0], s[k + 1]);
        }
      }
    }
  }

  lemma {:induction false} SortedApart(items: seq<Item>)
    requires AllApart(items)
    ensures AllApart(SortItems(items)) && multiset(SortItems(items)) == multiset(items)
  {
    if items != [] {
      SortedApart(items[1..]);
      var rest := SortItems(items[1..]);
      assert items == [items[0]] + items[1..];
      forall i | 0 <= i < |rest| ensures Apart(items[0], rest[i]) {
        assert rest[i] in multiset(rest);
        var k :| 0 <= k < |items[1..]| && items[1..][k] == rest[i];
        assert Apart(items[0], items[k + 1]);
      }
      InsertApart(items[0], rest);
    }
  }

  lemma CopyKept(file: Bytes, next: Bytes, shard: Bytes, x: Item, fed: Bytes, members: seq<Item>)
    requires IsCopy(file, shard, x, fed) && OnlyInside(file, next, members)
    requires forall i | 0 <= i < |members| :: Apart(x, members[i])
    ensures IsCopy(next, shard, x, fed)
  {
    forall k: nat | x.out <= k < x.out + Len(x) ensures next[k] == file[k] {
      forall i | 0 <= i < |members| ensures !Within(k, members[i]) {
        assert Apart(x, members[i]);
      }
    }
    assert next[x.out..x.out + Len(x)] == file[x.out..x.out + Len(x)];
  }

  lemma InsideMore(a: Bytes, b: Bytes, members: seq<Item>, more: seq<Item>)
    requires OnlyInside(a, b, members) && forall x | x in members :: x in more
    ensures OnlyInside(a, b, more)
  {
    forall k: nat | k < |a| && (forall i | 0 <= i < |more| :: !Within(k, more[i])) ensures b[k] == a[k] {
      forall i | 0 <= i < |members| ensures !Within(k, members[i]) {
        assert members[i] in more;
      }
    }
  }

  /** Every item of the group gets its bytes; items of other groups keep theirs. */
  method FetchOne(shard: Bytes, out: array<byte>, ghost s: seq<Item>, ghost i: nat, ghost j: nat, g: Group, chunk: nat,
                  before: map<Item, Bytes>)
      returns (digests: map<Item, Bytes>)
    requires chunk >= 1 && IsHull(s, i, j, g) && AllApart(s) && InOrder(s)
    requires forall x | x in s :: Fits(x, shard, out.Length)
    requires forall k | 0 <= k < i :: s[k] in before && IsCopy(out[..], shard, s[k], before[s[k]])
    modifies out
    ensures OnlyInside(old(out[..]), out[..], s)
    ensures forall k | 0 <= k < j :: s[k] in digests && IsCopy(out[..], shard, s[k], digests[s[k]])
  {
    ghost var file := out[..];
    HullHolds(s, i, j, g);
    forall k | i <= k < j ensures s[k].end <= |shard| {
      assert s[k] in s;
    }
    MaxEndReached(s, i, j, |shard|);
    var fed := ScatterGroup(shard, out, g, chunk);
    InsideMore(file, out[..], g.members, s);
    EarlierKept(file, out[..], shard, s, i, j, before);
    digests := RecordDigests(out[..], shard, s, i, j, g.members, fed, before);
  }

  /** Each member's finished digest, beside the ones of earlier groups. */
  method RecordDigests(ghost file: Bytes, ghost shard: Bytes, ghost s: seq<Item>, ghost i: nat, ghost j: nat,
                       members: seq<Item>, fed: seq<Bytes>, before: map<Item, Bytes>)
      returns (digests: map<Item, Bytes>)
    requires i <= j <= |s| && members == s[i..j] && |fed| == |members|
    requires forall n | 0 <= n < |members| :: IsCopy(file, shard, members[n], fed[n])
    requires forall k | 0 <= k < i :: s[k] in before && IsCopy(file, shard, s[k], before[s[k]])
    ensures forall k | 0 <= k < j :: s[k] in digests && IsCopy(file, shard, s[k], digests[s[k]])
  {
    digests := before;
    for n := 0 to |fed|
      invariant forall k | 0 <= k < i + n :: s[k] in digests && IsCopy(file, shard, s[k], digests[s[k]])
    {
      assert members[n] == s[i + n] && IsCopy(file, shard, s[i + n], fed[n]);
      digests := digests[members[n] := fed[n]];
    }
  }

  lemma EarlierKept(file: Bytes, next: Bytes, shard: Bytes, s: seq<Item>, i: nat, j: nat, digests: map<Item, Bytes>)
    requires i <= j <= |s| && AllApart(s) && OnlyInside(file, next, s[i..j])
    requires forall k | 0 <= k < i :: s[k] in digests && IsCopy(file, shard, s[k], digests[s[k]])
    ensures forall k | 0 <= k < i :: IsCopy(next, shard, s[k], digests[s[k]])
  {
    forall k | 0 <= k < i ensures IsCopy(next, shard, s[k], digests[s[k]]) {
      forall n | 0 <= n < |s[i..j]| ensures Apart(s[k], s[i..j][n]) {
        assert s[i..j][n] == s[i + n];
      }
      CopyKept(file, next, shard, s[k], digests[s[k]], s[i..j]);
    }
  }

  lemma HullHolds(s: seq<Item>, i: nat, j: nat, g: Group)
    requires IsHull(s, i, j, g) && InOrder(s)
    ensures AllApart(s) ==> AllApart(g.members)
    ensures forall n | 0 <= n < |g.members| ::
              g.members[n] in s && g.begin <= g.members[n].begin && g.members[n].end <= g.end
  {
    forall n | 0 <= n < |g.members|
      ensures g.members[n] in s && g.begin <= g.members[n].begin && g.members[n].end <= g.end
    {
      assert g.members[n] == s[i + n];
      assert n > 0 ==> Before(s[i], s[i + n]);
      MaxEndBounds(s, i, i + n, j);
    }
    if AllApart(s) {
      forall a, b | 0 <= a < b < |g.members| ensures Apart(g.members[a], g.members[b]) {
        assert Apart(s[i + a], s[i + b]);
      }
    }
  }

  lemma {:induction false} MaxEndReached(s: seq<Item>, i: nat, j: nat, limit: nat)
    requires i < j <= |s| && forall k | i <= k < j :: s[k].end <= limit
    ensures MaxEnd(s, i, j) <= limit
    decreases j
  {
    if j > i + 1 { MaxEndReached(s, i, j - 1, limit); }
  }

  method FetchShard(shard: Bytes, out: array<byte>, items: seq<Item>, maxGap: nat, maxSpan: nat, chunk: nat)
      returns (digests: map<Item, Bytes>)
    requires chunk >= 1 && AllApart(items)
    requires forall x | x in items :: Fits(x, shard, out.Length)
    modifies out
    ensures OnlyInside(old(out[..]), out[..], items)
    ensures forall x | x in items :: x in digests && IsCopy(out[..], shard, x, digests[x])
  {
    ghost var first := out[..];
    var s := SortItems(items);
    SortedInOrder(items);
    SortedApart(items);
    SameElements(items, s);
    assert forall i | 0 <= i < |items| :: items[i] in items;
    var groups;
    ghost var cuts;
    groups, cuts := CoalesceRanges(items, maxGap, maxSpan);
    digests := map[];
    for k := 0 to |groups|
      invariant OnlyInside(first, out[..], s)
      invariant forall n | 0 <= n < cuts[k] :: s[n] in digests && IsCopy(out[..], shard, s[n], digests[s[n]])
    {
      assert IsHull(s, cuts[k], cuts[k + 1], groups[k]);
      ghost var file := out[..];
      digests := FetchOne(shard, out, s, cuts[k], cuts[k + 1], groups[k], chunk, digests);
      InsideTwice(first, file, out[..], s);
    }
    InsideMore(first, out[..], s, items);
    forall x | x in items ensures x in digests && IsCopy(out[..], shard, x, digests[x]) {
      assert x in s;
      var n :| 0 <= n < |s| && s[n] == x;
    }
  }

  lemma SameElements(a: seq<Item>, b: seq<Item>)
    requires multiset(a) == multiset(b)
    ensures forall x :: x in a <==> x in b
  {
    forall x ensures x in a <==> x in b {
      assert x in a <==> x in multiset(a);
      assert x in b <==> x in multiset(b);
    }
  }

  // ----- build_safetensors_header: where each tensor lands

  function Numel(shape: seq<nat>): nat {
    if shape == [] then 1 else Numel(shape[..|shape| - 1]) * shape[|shape| - 1]
  }

  datatype Tensor = Tensor(shape: seq<nat>, elem: nat)

  function SizeOf(t: Tensor): nat {
    Numel(t.shape) * t.elem
  }

  /** Offsets are contiguous from 0, without holes or overlap. */
  ghost predicate Contiguous(tensors: seq<Tensor>, offsets: seq<nat>, total: nat) {
    && |offsets| == |tensors|
    && (tensors == [] ==> total == 0)
    && (tensors != [] ==> offsets[0] == 0 && total == offsets[|offsets| - 1] + SizeOf(tensors[|tensors| - 1]))
    && forall i | 0 < i < |tensors| :: offsets[i] == offsets[i - 1] + SizeOf(tensors[i - 1])
  }

  method LayOut(tensors: seq<Tensor>) returns (offsets: seq<nat>, total: nat)
    ensures Contiguous(tensors, offsets, total)
  {
    offsets, total := [], 0;
    for i := 0 to |tensors|
      invariant Contiguous(tensors[..i], offsets, total)
    {
      ghost var was, before := offsets, total;
      var n := Product(tensors[i].shape);
      offsets := offsets + [total];
      total := total + n * tensors[i].elem;
      OneMoreTensor(tensors, i, was, before);
    }
    assert tensors[..|tensors|] == tensors;
  }

  method Product(shape: seq<nat>) returns (n: nat)
    ensures n == Numel(shape)
  {
    n := 1;
    for d := 0 to |shape|
      invariant n == Numel(shape[..d])
    {
      assert shape[..d + 1][..d] == shape[..d];
      n := n * shape[d];
    }
    assert shape[..|shape|] == shape;
  }

  lemma OneMoreTensor(tensors: seq<Tensor>, i: nat, offsets: seq<nat>, total: nat)
    requires i < |tensors| && Contiguous(tensors[..i], offsets, total)
    ensures Contiguous(tensors[..i + 1], offsets + [total], total + SizeOf(tensors[i]))
  {
  }

  lemma {:induction false} ContiguousApart(tensors: seq<Tensor>, offsets: seq<nat>, total: nat, i: nat, j: nat)
    requires Contiguous(tensors, offsets, total) && i < j <= |tensors|
    ensures offsets[i] + SizeOf(tensors[i]) <= if j < |tensors| then offsets[j] else total
    decreases j
  {
    if i < j - 1 { ContiguousApart(tensors, offsets, total, i, j - 1); }
  }

  // ----- fetch_group: the whole output file

  /** A tensor of the selection: its shard, its byte range there, its place in the file, verified by an earlier run. */
  datatype Entry = Entry(shard: nat, item: Item, verified: bool)

  function ItemsOf(entries: seq<Entry>, shard: nat): seq<Item> {
    if entries == [] then []
    else if entries[0].shard == shard && !entries[0].verified then [entries[0].item] + ItemsOf(entries[1..], shard)
    else ItemsOf(entries[1..], shard)
  }

  /** The layout of the output file: header, then the entries one behind the other. */
  ghost predicate LaidOut(entries: seq<Entry>, header: nat, file: nat) {
    && (forall i | 0 <= i < |entries| ::
          header <= entries[i].item.out && entries[i].item.out + Len(entries[i].item) <= file)
    && (forall i, j | 0 <= i < j < |entries| :: entries[i].item.out + Len(entries[i].item) <= entries[j].item.out)
  }

  /** The header builder's offsets give such a layout. */
  lemma HeaderLaysOut(tensors: seq<Tensor>, offsets: seq<nat>, total: nat, entries: seq<Entry>, header: nat)
    requires Contiguous(tensors, offsets, total) && |entries| == |tensors|
    requires forall i | 0 <= i < |entries| ::
               Len(entries[i].item) == SizeOf(tensors[i]) && entries[i].item.out == header + offsets[i]
    ensures LaidOut(entries, header, header + total)
  {
    forall i | 0 <= i < |entries| ensures entries[i].item.out + Len(entries[i].item) <= header + total {
      ContiguousApart(tensors, offsets, total, i, |tensors|);
    }
    forall i, j | 0 <= i < j < |entries| ensures entries[i].item.out + Len(entries[i].item) <= entries[j].item.out {
      ContiguousApart(tensors, offsets, total, i, j);
    }
  }

  lemma {:induction false} ItemsComplete(entries: seq<Entry>, shard: nat)
    ensures forall x :: x in ItemsOf(entries, shard) <==>
              exists i :: 0 <= i < |entries| && entries[i].shard == shard && !entries[i].verified
                          && entries[i].item == x
  {
    if entries != [] {
      var e, tail := entries[0], entries[1..];
      ItemsComplete(tail, shard);
      forall x ensures x in ItemsOf(entries, shard) <==>
        exists i :: 0 <= i < |entries| && entries[i].shard == shard && !entries[i].verified && entries[i].item == x
      {
        if x in ItemsOf(tail, shard) {
          var i :| 0 <= i < |tail| && tail[i].shard == shard && !tail[i].verified && tail[i].item == x;
          assert entries[i + 1] == tail[i];
        }
        if i :| 0 < i < |entries| && entries[i].shard == shard && !entries[i].verified && entries[i].item == x {
          assert tail[i - 1] == entries[i];
        }
      }
    }
  }

  lemma {:induction false} ItemsApart(entries: seq<Entry>, shard: nat, header: nat, file: nat)
    requires LaidOut(entries, header, file)
    ensures AllApart(ItemsOf(entries, shard))
  {
    if entries != [] {
      var tail := entries[1..];
      forall i, j | 0 <= i < j < |tail| ensures tail[i].item.out + Len(tail[i].item) <= tail[j].item.out {
        assert tail[i] == entries[i + 1] && tail[j] == entries[j + 1];
      }
      ItemsApart(tail, shard, header, file);
      ItemsComplete(tail, shard);
      var rest := ItemsOf(tail, shard);
      forall k | 0 <= k < |rest| ensures Apart(entries[0].item, rest[k]) {
        assert rest[k] in rest;
        var i :| 0 <= i < |tail| && tail[i].shard == shard && !tail[i].verified && tail[i].item == rest[k];
        assert tail[i] == entries[i + 1];
      }
    }
  }

  lemma TodoHasItem(entries: seq<Entry>, e: Entry)
    requires e in entries && !e.verified
    ensures e.item in ItemsOf(entries, e.shard)
  {
    ItemsComplete(entries, e.shard);
    var i :| 0 <= i < |entries| && entries[i] == e;
    assert entries[i].shard == e.shard && entries[i].item == e.item;
  }

  /** The entries of the next shard, behind those of the shards before it. */
  method NextShard(shards: seq<Bytes>, out: array<byte>, entries: seq<Entry>, header: nat,
                   maxGap: nat, maxSpan: nat, chunk: nat, digests: seq<map<Item, Bytes>>, ghost first: Bytes)
      returns (more: seq<map<Item, Bytes>>)
    requires chunk >= 1 && LaidOut(entries, header, out.Length) && |digests| < |shards|
    requires forall e | e in entries :: e.shard < |shards| && Fits(e.item, shards[e.shard], out.Length)
    requires Untouched(first, out[..], entries) && AllCopied(out[..], shards, entries, digests, |digests|)
    modifies out
    ensures |more| == |digests| + 1 && digests <= more
    ensures Untouched(first, out[..], entries) && AllCopied(out[..], shards, entries, more, |more|)
  {
    var n := |digests|;
    var items := ItemsOf(entries, n);
    ItemsApart(entries, n, header, out.Length);
    ItemsComplete(entries, n);
    ghost var file := out[..];
    var fed := FetchShard(shards[n], out, items, maxGap, maxSpan, chunk);
    EntriesKept(file, out[..], shards, entries, header, digests, n);
    StillUntouched(first, file, out[..], entries, n);
    more := digests + [fed];
    forall e | e in entries && !e.verified && e.shard < n + 1
      ensures e.item in more[e.shard] && IsCopy(out[..], shards[e.shard], e.item, more[e.shard][e.item])
    {
      if e.shard == n { TodoHasItem(entries, e); } else { assert more[e.shard] == digests[e.shard]; }
    }
  }

  /** All entries of all shards: `out` already has its final size and its header. */
  method FetchGroup(shards: seq<Bytes>, out: array<byte>, entries: seq<Entry>, header: nat,
                    maxGap: nat, maxSpan: nat, chunk: nat) returns (digests: seq<map<Item, Bytes>>)
    requires chunk >= 1 && LaidOut(entries, header, out.Length)
    requires forall e | e in entries :: e.shard < |shards| && Fits(e.item, shards[e.shard], out.Length)
    modifies out
    ensures |digests| == |shards|
    ensures forall e | e in entries && !e.verified ::
              e.item in digests[e.shard] && IsCopy(out[..], shards[e.shard], e.item, digests[e.shard][e.item])
    ensures forall e | e in entries && e.verified ::
              out[e.item.out..e.item.out + Len(e.item)] == old(out[e.item.out..e.item.out + Len(e.item)])
    ensures forall k | 0 <= k < out.Length && k < header :: out[k] == old(out[k])
  {
    ghost var first := out[..];
    digests := [];
    for n := 0 to |shards|
      invariant |digests| == n && Untouched(first, out[..], entries)
      invariant AllCopied(out[..], shards, entries, digests, n)
    {
      digests := NextShard(shards, out, entries, header, maxGap, maxSpan, chunk, digests, first);
    }
    VerifiedUntouched(first, out[..], entries, header);
  }

  ghost predicate AllCopied(file: Bytes, shards: seq<Bytes>, entries: seq<Entry>, digests: seq<map<Item, Bytes>>,
                            n: nat)
    requires n <= |digests| && n <= |shards|
  {
    forall e | e in entries && !e.verified && e.shard < n ::
      e.item in digests[e.shard] && IsCopy(file, shards[e.shard], e.item, digests[e.shard][e.item])
  }

  /** Bytes outside every slice still to be fetched are as they were. */
  ghost predicate Untouched(before: Bytes, after: Bytes, entries: seq<Entry>) {
    && |after| == |before|
    && forall k: nat |
         k < |before| && (forall i | 0 <= i < |entries| :: entries[i].verified || !Within(k, entries[i].item)) ::
         after[k] == before[k]
  }

  lemma StillUntouched(first: Bytes, file: Bytes, next: Bytes, entries: seq<Entry>, n: nat)
    requires Untouched(first, file, entries) && OnlyInside(file, next, ItemsOf(entries, n))
    ensures Untouched(first, next, entries)
  {
    var items := ItemsOf(entries, n);
    ItemsComplete(entries, n);
    forall k: nat | k < |first| && (forall i | 0 <= i < |entries| :: entries[i].verified || !Within(k, entries[i].item))
      ensures next[k] == first[k]
    {
      forall i | 0 <= i < |items| ensures !Within(k, items[i]) {
        assert items[i] in items;
        var j :| 0 <= j < |entries| && entries[j].shard == n && !entries[j].verified && entries[j].item == items[i];
      }
    }
  }

  lemma EntriesApart(entries: seq<Entry>, header: nat, file: nat, a: Entry, b: Entry)
    requires LaidOut(entries, header, file) && a in entries && b in entries && a != b
    ensures Apart(a.item, b.item)
  {
    var i :| 0 <= i < |entries| && entries[i] == a;
    var j :| 0 <= j < |entries| && entries[j] == b;
  }

  lemma EntriesKept(file: Bytes, next: Bytes, shards: seq<Bytes>, entries: seq<Entry>, header: nat,
                    digests: seq<map<Item, Bytes>>, n: nat)
    requires n == |digests| <= |shards| && LaidOut(entries, header, |file|) &&
               OnlyInside(file, next, ItemsOf(entries, n))
    requires AllCopied(file, shards, entries, digests, n)
    ensures AllCopied(next, shards, entries, digests, n)
  {
    var items := ItemsOf(entries, n);
    ItemsComplete(entries, n);
    forall e | e in entries && !e.verified && e.shard < n
      ensures IsCopy(next, shards[e.shard], e.item, digests[e.shard][e.item])
    {
      forall i | 0 <= i < |items| ensures Apart(e.item, items[i]) {
        assert items[i] in items;
        var j :| 0 <= j < |entries| && entries[j].shard == n && !entries[j].verified && entries[j].item == items[i];
        EntriesApart(entries, header, |file|, e, entries[j]);
      }
      CopyKept(file, next, shards[e.shard], e.item, digests[e.shard][e.item], items);
    }
  }

  lemma VerifiedUntouched(first: Bytes, last: Bytes, entries: seq<Entry>, header: nat)
    requires LaidOut(entries, header, |first|) && Untouched(first, last, entries)
    ensures forall e | e in entries && e.verified ::
              e.item.out + Len(e.item) <= |first|
              && last[e.item.out..e.item.out + Len(e.item)] == first[e.item.out..e.item.out + Len(e.item)]
    ensures forall k | 0 <= k < |first| && k < header :: last[k] == first[k]
  {
    forall e | e in entries && e.verified
      ensures e.item.out + Len(e.item) <= |first|
      ensures last[e.item.out..e.item.out + Len(e.item)] == first[e.item.out..e.item.out + Len(e.item)]
    {
      forall k: nat | Within(k, e.item) ensures last[k] == first[k] {
        forall i | 0 <= i < |entries| ensures entries[i].verified || !Within(k, entries[i].item) {
          if !entries[i].verified { EntriesApart(entries, header, |first|, e, entries[i]); }
        }
      }
    }
  }
}
