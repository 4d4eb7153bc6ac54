/** The manifest of tools/fetch-dense-originals.py: an output file fetched over any number of killed runs. */
module DenseResume {
  import opened Common
  import opened DenseFetch

  /** A tensor of the plan: its shard, and its byte range there and in the output file. */
  datatype Piece = Piece(shard: nat, item: Item)

  /** One run: whether the layout on disk was not this plan, the limits, before which shard's record it dies
      (None: it does not), and what it has then left in the slices it was writing. */
  datatype Try = Try(anew: bool, maxGap: nat, maxSpan: nat, chunk: nat, dies: Option<nat>, junk: Bytes)

  function EntriesOf(plan: seq<Piece>, recorded: seq<Option<Bytes>>): (entries: seq<Entry>)
    requires |recorded| == |plan|
    ensures |entries| == |plan|
  {
    seq(|plan|, i requires 0 <= i < |plan| => Entry(plan[i].shard, plan[i].item, recorded[i].Some?))
  }

  class Download {
    const shards: seq<Bytes>
    const plan: seq<Piece>
    const header: nat
    const sha: Bytes -> Bytes
    const out: array<byte>
    var manifest: seq<Option<Bytes>>   // the digest recorded for each tensor, by an earlier run or this one

    /** Every tensor lies in its shard, and the slices stand behind the header one behind the other. */
    ghost predicate Planned() {
      && (forall i | 0 <= i < |plan| ::
            plan[i].shard < |shards| && header <= plan[i].item.out &&
            Fits(plan[i].item, shards[plan[i].shard], out.Length))
      && (forall i, j | 0 <= i < j < |plan| :: plan[i].item.out + Len(plan[i].item) <= plan[j].item.out)
    }

    function Original(i: nat): Bytes
      requires Planned() && i < |plan|
    {
      shards[plan[i].shard][plan[i].item.begin..plan[i].item.end]
    }

    function Slice(file: Bytes, i: nat): Bytes
      requires Planned() && i < |plan| && |file| == out.Length
    {
      file[plan[i].item.out..plan[i].item.out + Len(plan[i].item)]
    }

    /** A digest of these is that of the shard's slice. */
    ghost predicate Genuine(recorded: seq<Option<Bytes>>)
      requires Planned()
    {
      |recorded| == |plan| && forall i | 0 <= i < |plan| :: recorded[i].Some? ==> recorded[i].value == sha(Original(i))
    }

    /** What every run keeps, wherever it dies and whatever it leaves in the file. */
    ghost predicate Valid() reads this`manifest {
      Planned() && Genuine(manifest)
    }

    /** The record of tensor i that the bytes on disk confirm. */
    function Confirmed(file: Bytes, i: nat): Option<Bytes>
      requires Planned() && i < |plan| == |manifest| && |file| == out.Length
      reads this`manifest
    {
      if manifest[i].Some? && sha(Slice(file, i)) == manifest[i].value then manifest[i] else None
    }

    constructor (shards: seq<Bytes>, plan: seq<Piece>, header: nat, sha: Bytes -> Bytes, out: array<byte>)
      ensures this.shards == shards && this.plan == plan && this.header == header && this.sha == sha && this.out == out
      ensures manifest == seq(|plan|, _ => None)
    {
      this.shards, this.plan, this.header, this.sha, this.out := shards, plan, header, sha, out;
      manifest := seq(|plan|, _ => None);
    }

    /** The re-verification at the start of a run. */
    method Verify(anew: bool) returns (recorded: seq<Option<Bytes>>)
      requires Valid()
      ensures |recorded| == |plan| && Genuine(recorded)
      ensures forall i | 0 <= i < |plan| :: recorded[i] == if anew then None else Confirmed(out[..], i)
    {
      recorded := [];
      for i := 0 to |plan|
        invariant |recorded| == i
        invariant forall j | 0 <= j < i :: recorded[j] == if anew then None else Confirmed(out[..], j)
      {
        recorded := recorded + [if anew then None else Confirmed(out[..], i)];
      }
    }

    /** A run that dies inside a shard has left anything in the slices it was writing. */
    method Tear(items: seq<Item>, junk: Bytes)
      requires |junk| == out.Length && forall x | x in items :: x.out + Len(x) <= out.Length
      modifies out
      ensures OnlyInside(old(out[..]), out[..], items)
    {
      ghost var first := out[..];
      for n := 0 to |items|
        invariant OnlyInside(first, out[..], items)
      {
        var x := items[n];
        assert x in items;
        SpliceInside(first, out[..], items, n, x.out, junk[x.out..x.out + Len(x)]);
        WriteAt(out, x.out, junk[x.out..x.out + Len(x)]);
      }
    }

    /** The plan as the entries of one run. */
    lemma PlanLaidOut(recorded: seq<Option<Bytes>>)
      requires Planned() && |recorded| == |plan|
      ensures LaidOut(EntriesOf(plan, recorded), header, out.Length)
      ensures forall e | e in EntriesOf(plan, recorded) ::
                e.shard < |shards| && Fits(e.item, shards[e.shard], out.Length)
    {
    }

    /** What the records of one run are made of: the confirmed ones, and those of the shards fetched so far. */
    ghost predicate RecordedUpTo(start: seq<Option<Bytes>>, recorded: seq<Option<Bytes>>, n: nat)
      requires Planned()
    {
      && |start| == |plan| && Genuine(recorded)
      && forall i | 0 <= i < |plan| :: recorded[i].Some? <==> start[i].Some? || plan[i].shard < n
    }

    lemma StartsRecorded(start: seq<Option<Bytes>>)
      requires Planned() && Genuine(start)
      ensures RecordedUpTo(start, start, 0)
    {
    }

    /** A fetched tensor's digest is that of the bytes fed to it. */
    method Record(recorded: seq<Option<Bytes>>, n: nat, fed: map<Item, Bytes>, ghost start: seq<Option<Bytes>>)
        returns (more: seq<Option<Bytes>>)
      requires Planned() && RecordedUpTo(start, recorded, n)
      requires forall i | 0 <= i < |plan| && start[i].None? && plan[i].shard == n ::
                 plan[i].item in fed && fed[plan[i].item] == Original(i)
      ensures RecordedUpTo(start, more, n + 1)
    {
      more := [];
      for i := 0 to |plan|
        invariant |more| == i
        invariant forall j | 0 <= j < i :: more[j].Some? ==> more[j].value == sha(Original(j))
        invariant forall j | 0 <= j < i :: more[j].Some? <==> start[j].Some? || plan[j].shard < n + 1
      {
        var record := recorded[i];
        if record.None? && plan[i].shard == n {
          record := Some(sha(fed[plan[i].item]));
        }
        more := more + [record];
      }
    }

    /** What the entries of one shard were fed is what the shard holds. */
    lemma FedOriginals(file: Bytes, start: seq<Option<Bytes>>, digests: seq<map<Item, Bytes>>, n: nat)
      requires Planned() && |start| == |plan| && n < |digests| <= |shards|
      requires AllCopied(file, shards, EntriesOf(plan, start), digests, |digests|)
      ensures forall i | 0 <= i < |plan| && start[i].None? && plan[i].shard == n ::
                plan[i].item in digests[n] && digests[n][plan[i].item] == Original(i)
    {
      var entries := EntriesOf(plan, start);
      forall i | 0 <= i < |plan| && start[i].None? && plan[i].shard == n
        ensures plan[i].item in digests[n] && digests[n][plan[i].item] == Original(i)
      {
        assert entries[i] in entries;
        assert IsCopy(file, shards[n], plan[i].item, digests[n][plan[i].item]);
      }
    }

    /** Every slice of the file has the digest of its shard's slice, and that is what is recorded. */
    ghost predicate AllDigestsRight()
      requires Planned()
      reads this`manifest, out
    {
      && |manifest| == |plan|
      && forall i | 0 <= i < |plan| ::
           manifest[i] == Some(sha(Original(i))) && sha(Slice(out[..], i)) == sha(Original(i))
    }

    lemma AllRight(first: Bytes, last: Bytes, start: seq<Option<Bytes>>, digests: seq<map<Item, Bytes>>, i: nat)
      requires Planned() && Genuine(start) && i < |plan| && |first| == |last| == out.Length
      requires start[i].Some? ==> sha(Slice(first, i)) == start[i].value
      requires Untouched(first, last, EntriesOf(plan, start)) && |digests| == |shards|
      requires AllCopied(last, shards, EntriesOf(plan, start), digests, |shards|)
      ensures sha(Slice(last, i)) == sha(Original(i))
      ensures start[i].Some? ==> Slice(last, i) == Slice(first, i)
    {
      var entries := EntriesOf(plan, start);
      PlanLaidOut(start);
      assert entries[i] in entries;
      if start[i].Some? {
        VerifiedUntouched(first, last, entries, header);
      } else {
        assert IsCopy(last, shards[plan[i].shard], plan[i].item, digests[plan[i].shard][plan[i].item]);
      }
    }

    /** One run, over whatever is in the file. The manifest is rewritten behind every shard. */
    method Run(t: Try) returns (finished: bool)
      requires Valid() && t.chunk >= 1 && |t.junk| == out.Length
      modifies this`manifest, out
      ensures Valid()
      ensures finished <==> t.dies.None? || t.dies.value > |shards|
      ensures finished ==> AllDigestsRight()
      ensures forall i | 0 <= i < |plan| && !t.anew && old(Confirmed(out[..], i).Some?) ::
                Slice(out[..], i) == old(Slice(out[..], i))
      ensures forall k | 0 <= k < out.Length && k < header :: out[k] == old(out[k])
    {
      ghost var first := out[..];
      var start := Verify(t.anew);
      var entries, recorded := EntriesOf(plan, start), start;
      var digests: seq<map<Item, Bytes>> := [];
      PlanLaidOut(start);
      StartsRecorded(start);
      for n := 0 to |shards|
        invariant |digests| == n && Valid() && RecordedUpTo(start, recorded, n)
        invariant t.dies.None? || t.dies.value >= n
        invariant Untouched(first, out[..], entries) && AllCopied(out[..], shards, entries, digests, n)
      {
        if t.dies == Some(n) {
          ItemsComplete(entries, n);
          ghost var file := out[..];
          Tear(ItemsOf(entries, n), t.junk);
          StillUntouched(first, file, out[..], entries, n);
          KeptVerified(first, out[..], start);
          return false;
        }
        digests := NextShard(shards, out, entries, header, t.maxGap, t.maxSpan, t.chunk, digests, first);
        FedOriginals(out[..], start, digests, n);
        recorded := Record(recorded, n, digests[n], start);
        if ItemsOf(entries, n) != [] {
          manifest := recorded;
        }
      }
      KeptVerified(first, out[..], start);
      if t.dies == Some(|shards|) {
        return false;
      }
      manifest := recorded;
      forall i | 0 <= i < |plan| ensures sha(Slice(out[..], i)) == sha(Original(i)) {
        AllRight(first, out[..], start, digests, i);
      }
      finished := true;
    }

    lemma KeptVerified(first: Bytes, last: Bytes, start: seq<Option<Bytes>>)
      requires Planned() && |start| == |plan| && |first| == out.Length && Untouched(first, last, EntriesOf(plan, start))
      ensures |last| == |first|
      ensures forall i | 0 <= i < |plan| && start[i].Some? :: Slice(last, i) == Slice(first, i)
      ensures forall k | 0 <= k < |first| && k < header :: last[k] == first[k]
    {
      var entries := EntriesOf(plan, start);
      PlanLaidOut(start);
      VerifiedUntouched(first, last, entries, header);
      forall i | 0 <= i < |plan| && start[i].Some? ensures Slice(last, i) == Slice(first, i) {
        assert entries[i] in entries;
      }
    }

    /** Digests that match only equal bytes. */
    ghost predicate NoCollision() {
      forall a: Bytes, b: Bytes :: sha(a) == sha(b) ==> a == b
    }

    /** Killed runs one after the other, until one finishes: then every slice is its shard's, whether this run
        fetched it or an earlier one did. */
    method Runs(tries: seq<Try>) returns (finished: bool)
      requires Valid() && forall t | t in tries :: t.chunk >= 1 && |t.junk| == out.Length
      modifies this`manifest, out
      ensures Valid()
      ensures finished <==> exists t :: t in tries && (t.dies.None? || t.dies.value > |shards|)
      ensures finished ==> AllDigestsRight()
      ensures finished && NoCollision() ==> forall i | 0 <= i < |plan| :: Slice(out[..], i) == Original(i)
    {
      finished := false;
      var n := 0;
      while n < |tries| && !finished
        invariant n <= |tries| && Valid() && (finished ==> n > 0 && AllDigestsRight())
        invariant finished ==> tries[n - 1] in tries && (tries[n - 1].dies.None? || tries[n - 1].dies.value > |shards|)
        invariant !finished ==>
                    forall k | 0 <= k < n :: !(tries[k].dies.None? || tries[k].dies.value > |shards|)
        decreases |tries| - n
      {
        assert tries[n] in tries;
        finished := Run(tries[n]);
        n := n + 1;
      }
    }
  }
}
