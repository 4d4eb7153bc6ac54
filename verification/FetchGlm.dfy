/** One file of the resumable download: tools/fetch-glm.py. */
module FetchGlm {
  import opened Common

  const MAX_MISMATCHES: nat := 3

  /** The API record of a file. */
  datatype Meta = Meta(size: nat, sha256: Option<Bytes>, blob: Option<Bytes>)

  /** Digests stay abstract: sha256 of the bytes, and the git blob id of a size and bytes. */
  datatype Hash = Hash(sha256: Bytes -> Bytes, git: (nat, Bytes) -> Bytes)

  /** The `.verified` file; a kill inside the write leaves a torn one. */
  datatype Marker = Torn | Marker(size: nat, sha256: Bytes, blob: Bytes)

  datatype Files = OnDisk(part: Option<Bytes>, final: Option<Bytes>, verified: Option<Marker>)

  datatype Decision = Done | Overlong | Resume

  function Decide(have: nat, expected: nat): Decision {
    if have == expected then Done else if have > expected then Overlong else Resume
  }

  function Have(f: Files): nat {
    if f.part.Some? then |f.part.value| else 0
  }

  /** check_hashes: the digest the record has decides; a record with neither refuses nothing. */
  predicate HashesMatch(meta: Meta, sha256: Bytes, git: Bytes) {
    && (meta.sha256.Some? ==> sha256 == meta.sha256.value)
    && (meta.sha256.None? && meta.blob.Some? ==> git == meta.blob.value)
  }

  predicate Matches(h: Hash, meta: Meta, b: Bytes) {
    HashesMatch(meta, h.sha256(b), h.git(meta.size, b))
  }

  predicate MarkerAgrees(m: Marker, meta: Meta) {
    && m.Marker?
    && m.size == meta.size
    && (if meta.sha256.Some? then m.sha256 == meta.sha256.value else meta.blob == Some(m.blob))
  }

  /** is_verified: no hashing, the marker is trusted. */
  predicate IsVerified(f: Files, meta: Meta) {
    && f.final.Some? && f.verified.Some?
    && |f.final.value| == meta.size
    && MarkerAgrees(f.verified.value, meta)
  }

  /** Every shard has a sha256 and every small file a blob id (check_table, the API). */
  predicate HasDigest(meta: Meta) {
    meta.sha256.Some? || meta.blob.Some?
  }

  /** What the marker is trusted for: the bytes on disk are the record's. */
  ghost predicate Genuine(h: Hash, meta: Meta, f: Files) {
    IsVerified(f, meta) ==>
      var b := f.final.value;
      |b| == meta.size &&
      if meta.sha256.Some? then h.sha256(b) == meta.sha256.value
      else meta.blob == Some(h.git(meta.size, b))
  }

  // ----- fetch_file as a machine that can be stopped between any two file operations

  /** Where the program stands; behind the hashing it carries the digests it will write. */
  datatype Pc =
    | Entry
    | Starting
    | Fetching(mismatches: nat)
    | Checked(sha256: Bytes, git: Bytes)
    | Placed(sha256: Bytes, git: Bytes)
    | Finished

  datatype Dl = Dl(pc: Pc, files: Files)

  ghost predicate Skip(meta: Meta, a: Dl, b: Dl) {
    a.pc == Entry && IsVerified(a.files, meta) && b == a.(pc := Finished)
  }

  ghost predicate Begin(meta: Meta, a: Dl, b: Dl) {
    && a.pc == Entry && !IsVerified(a.files, meta)
    && b == if a.files.final.Some? then Dl(Starting, a.files.(part := None)) else Dl(Fetching(0), a.files)
  }

  /** A final file without a good marker goes back to `.part` to be hashed. */
  ghost predicate Demote(a: Dl, b: Dl) {
    a.pc == Starting && a.files.final.Some? && b == Dl(Fetching(0), a.files.(part := a.files.final, final := None))
  }

  /** A transfer run leaves anything at all in `.part`. */
  ghost predicate Transferred(meta: Meta, a: Dl, b: Dl) {
    && a.pc.Fetching? && Decide(Have(a.files), meta.size) == Resume
    && b == a.(files := a.files.(part := b.files.part))
  }

  ghost predicate DropOverlong(meta: Meta, a: Dl, b: Dl) {
    && a.pc.Fetching? && Decide(Have(a.files), meta.size) == Overlong
    && b == a.(files := a.files.(part := None))
  }

  /** The state a hash mismatch is found in. */
  predicate BadHash(h: Hash, meta: Meta, a: Dl) {
    && a.pc.Fetching? && a.files.part.Some? && Decide(Have(a.files), meta.size) == Done
    && !Matches(h, meta, a.files.part.value)
  }

  ghost predicate Mismatch(h: Hash, meta: Meta, a: Dl, b: Dl) {
    && BadHash(h, meta, a)
    && b.files == a.files.(part := None)
    && b.pc == if a.pc.mismatches + 1 >= MAX_MISMATCHES then Finished else Fetching(a.pc.mismatches + 1)
  }

  ghost predicate Match(h: Hash, meta: Meta, a: Dl, b: Dl) {
    && a.pc.Fetching? && a.files.part.Some? && Decide(Have(a.files), meta.size) == Done
    && Matches(h, meta, a.files.part.value)
    && b == a.(pc := Checked(h.sha256(a.files.part.value), h.git(meta.size, a.files.part.value)))
  }

  ghost predicate Place(a: Dl, b: Dl) {
    a.pc.Checked? && b == Dl(Placed(a.pc.sha256, a.pc.git), a.files.(final := a.files.part, part := None))
  }

  ghost predicate OpenMarker(a: Dl, b: Dl) {
    a.pc.Placed? && b == a.(files := a.files.(verified := Some(Torn)))
  }

  ghost predicate WriteMarker(meta: Meta, a: Dl, b: Dl) {
    && a.pc.Placed? && a.files.verified == Some(Torn)
    && b == Dl(Finished, a.files.(verified := Some(Marker(meta.size, a.pc.sha256, a.pc.git))))
  }

  ghost predicate GiveUp(a: Dl, b: Dl) {
    a.pc.Fetching? && b == a.(pc := Finished)
  }

  ghost predicate Next(h: Hash, meta: Meta, a: Dl, b: Dl) {
    || Skip(meta, a, b) || Begin(meta, a, b) || Demote(a, b) || Transferred(meta, a, b) || DropOverlong(meta, a, b)
    || Mismatch(h, meta, a, b) || Match(h, meta, a, b) || Place(a, b) || OpenMarker(a, b) || WriteMarker(meta, a, b)
    || GiveUp(a, b)
  }

  /** A kill, or a new call: the files stay, the program starts over. */
  ghost predicate Restart(a: Dl, b: Dl) {
    b == a.(pc := Entry)
  }

  ghost predicate Sound(h: Hash, meta: Meta, d: Dl) {
    var f := d.files;
    && (f.verified.Some? && MarkerAgrees(f.verified.value, meta) && f.final.Some? && |f.final.value| == meta.size
        ==> Matches(h, meta, f.final.value))
    && (d.pc.Checked? ==>
          f.final.None? && f.part.Some? && |f.part.value| == meta.size && Matches(h, meta, f.part.value))
    && (d.pc.Placed? && f.final.Some? ==> |f.final.value| == meta.size && Matches(h, meta, f.final.value))
    && (d.pc.Fetching? ==> f.final.None? && d.pc.mismatches < MAX_MISMATCHES)
  }

  lemma SoundIsGenuine(h: Hash, meta: Meta, d: Dl)
    requires Sound(h, meta, d)
    ensures Genuine(h, meta, d.files)
  {
  }

  lemma StepKeepsSound(h: Hash, meta: Meta, a: Dl, b: Dl)
    requires Sound(h, meta, a) && (Next(h, meta, a, b) || Restart(a, b))
    ensures Sound(h, meta, b)
  {
  }

  /** Any number of calls, transfers and kills. */
  ghost predicate IsRun(h: Hash, meta: Meta, run: seq<Dl>) {
    run != [] && forall i | 0 < i < |run| :: Next(h, meta, run[i - 1], run[i]) || Restart(run[i - 1], run[i])
  }

  /** A verified file has the record's size and digest in every state a download can be stopped in. */
  lemma {:induction false} VerifiedIsGenuine(h: Hash, meta: Meta, run: seq<Dl>, i: nat)
    requires IsRun(h, meta, run) && i < |run|
    requires run[0].pc == Entry && Genuine(h, meta, run[0].files)
    ensures Sound(h, meta, run[i]) && Genuine(h, meta, run[i].files)
  {
    if i > 0 {
      VerifiedIsGenuine(h, meta, run, i - 1);
      StepKeepsSound(h, meta, run[i - 1], run[i]);
    }
    SoundIsGenuine(h, meta, run[i]);
  }

  // ----- A call whose final file is gone: whether it can still bring bytes

  ghost predicate IsPath(h: Hash, meta: Meta, path: seq<Dl>) {
    path != [] && forall i | 0 < i < |path| :: Next(h, meta, path[i - 1], path[i])
  }

  /** It stands before its transfers with something to transfer or to check, or right before the placing. */
  predicate CanFetch(meta: Meta, d: Dl) {
    d.pc.Checked? || ((d.pc == Entry || d.pc.Fetching?) && (meta.size > 0 || d.files.part.Some?))
  }

  /** Otherwise it brings nothing any more. */
  lemma CannotFetch(h: Hash, meta: Meta, a: Dl, b: Dl)
    requires Next(h, meta, a, b) && a.files.final.None? && !CanFetch(meta, a)
    ensures b.files.final.None? && b.files.part == a.files.part && !CanFetch(meta, b)
  {
  }

  /** And then a path of the call changes `.part`: a transfer, an overlong or a mismatched file, or a placing. */
  lemma FetchPath(h: Hash, meta: Meta, d: Dl) returns (path: seq<Dl>)
    requires Sound(h, meta, d) && d.files.final.None? && CanFetch(meta, d)
    ensures IsPath(h, meta, path) && path[0] == d && path[|path| - 1].files.part != d.files.part
  {
    if d.pc == Entry {
      var begun := d.(pc := Fetching(0));
      assert Begin(meta, d, begun);
      path := FetchFrom(h, meta, begun);
      path := [d] + path;
    } else if d.pc.Checked? {
      var placed := Places(h, meta, d);
      path := [d, placed];
    } else {
      path := FetchFrom(h, meta, d);
    }
  }

  lemma Places(h: Hash, meta: Meta, d: Dl) returns (e: Dl)
    requires d.pc.Checked? && d.files.part.Some?
    ensures Next(h, meta, d, e) && e.files.final == d.files.part && e.files.part.None?
  {
    e := Dl(Placed(d.pc.sha256, d.pc.git), d.files.(final := d.files.part, part := None));
    assert Place(d, e);
  }

  lemma MatchPath(h: Hash, meta: Meta, d: Dl) returns (path: seq<Dl>)
    requires d.pc.Fetching? && d.files.part.Some? && |d.files.part.value| == meta.size
    requires Matches(h, meta, d.files.part.value)
    ensures IsPath(h, meta, path) && path[0] == d
    ensures path[|path| - 1].files.final == d.files.part && path[|path| - 1].files.part.None?
  {
    var checked := d.(pc := Checked(h.sha256(d.files.part.value), h.git(meta.size, d.files.part.value)));
    assert Match(h, meta, d, checked);
    var placed := Places(h, meta, checked);
    path := [d, checked, placed];
  }

  lemma FetchFrom(h: Hash, meta: Meta, d: Dl) returns (path: seq<Dl>)
    requires d.pc.Fetching? && (meta.size > 0 || d.files.part.Some?)
    ensures IsPath(h, meta, path) && path[0] == d && path[|path| - 1].files.part != d.files.part
  {
    if Have(d.files) < meta.size {
      var more := d.(files := d.files.(part := if d.files.part.Some? then None else Some([])));
      assert Transferred(meta, d, more);
      path := [d, more];
    } else if Have(d.files) == meta.size && Matches(h, meta, d.files.part.value) {
      path := MatchPath(h, meta, d);
    } else {
      var dropped := DropPart(h, meta, d);
      path := [d, dropped];
    }
  }

  lemma DropPart(h: Hash, meta: Meta, d: Dl) returns (e: Dl)
    requires d.pc.Fetching? && d.files.part.Some? && Have(d.files) >= meta.size
    requires Have(d.files) == meta.size ==> !Matches(h, meta, d.files.part.value)
    ensures Next(h, meta, d, e) && e.files == d.files.(part := None)
    ensures d.pc.mismatches + 1 < MAX_MISMATCHES ==> e.pc.Fetching?
  {
    e := d.(files := d.files.(part := None));
    if Have(d.files) == meta.size {
      e := e.(pc := if d.pc.mismatches + 1 >= MAX_MISMATCHES then Finished else Fetching(d.pc.mismatches + 1));
      assert Mismatch(h, meta, d, e);
    } else {
      assert DropOverlong(meta, d, e);
    }
  }

  /** A whole call with something to fetch: it places a part file that matches, or fetches any bytes at all. */
  lemma AnyBytes(h: Hash, meta: Meta, d: Dl, bytes: Bytes) returns (path: seq<Dl>)
    requires d.pc == Entry && d.files.final.None? && meta.size > 0
    ensures IsPath(h, meta, path) && path[0] == d
    ensures var e := path[|path| - 1].files;
            if d.files.part.Some? && |d.files.part.value| == meta.size && Matches(h, meta, d.files.part.value)
            then e.final == d.files.part && e.part.None?
            else e.part == Some(bytes)
  {
    var begun := d.(pc := Fetching(0));
    assert Begin(meta, d, begun);
    if Have(d.files) < meta.size {
      var fetched := Transfers(h, meta, begun, bytes);
      path := [d, begun, fetched];
    } else if Have(d.files) == meta.size && Matches(h, meta, d.files.part.value) {
      path := MatchPath(h, meta, begun);
      path := [d] + path;
    } else {
      var dropped := DropPart(h, meta, begun);
      var fetched := Transfers(h, meta, dropped, bytes);
      path := [d, begun, dropped, fetched];
    }
  }

  lemma Transfers(h: Hash, meta: Meta, d: Dl, bytes: Bytes) returns (e: Dl)
    requires d.pc.Fetching? && Have(d.files) < meta.size
    ensures Next(h, meta, d, e) && e.pc == d.pc && e.files == d.files.(part := Some(bytes))
  {
    e := d.(files := d.files.(part := Some(bytes)));
    assert Transferred(meta, d, e);
  }

  // ----- fetch_file itself, against an adversarial transfer

  /** One pass through the transfer part of the loop: what the disk check said and what the transfer left. */
  datatype Transfer = Transfer(space: bool, exitOk: bool, lowSpace: bool, permanent: bool, part: Option<Bytes>)

  datatype Result = Skipped | Fetched | TooManyMismatches | Refused | Permanent | MissingPart | Interrupted

  function MismatchesIn(h: Hash, meta: Meta, run: seq<Dl>): nat {
    if |run| < 2 then 0
    else MismatchesIn(h, meta, run[..|run| - 1]) + if BadHash(h, meta, run[|run| - 2]) then 1 else 0
  }

  /** Adds one legal step to a recorded run. */
  ghost function Extended(h: Hash, meta: Meta, run: seq<Dl>, d: Dl): (longer: seq<Dl>)
    requires IsRun(h, meta, run) && Next(h, meta, run[|run| - 1], d)
    ensures IsRun(h, meta, longer) && longer[0] == run[0] && longer[|longer| - 1] == d
    ensures MismatchesIn(h, meta, longer)
         == MismatchesIn(h, meta, run) + if BadHash(h, meta, run[|run| - 1]) then 1 else 0
  {
    var longer := run + [d];
    assert longer[..|run|] == run && longer[|longer| - 2] == run[|run| - 1];
    longer
  }

  /** `run` started in `first` and the disk is now `files`, with `m` mismatches behind it. */
  ghost predicate Recorded(h: Hash, meta: Meta, run: seq<Dl>, first: Files, last: Dl, m: nat) {
    && IsRun(h, meta, run) && run[0] == Dl(Entry, first) && run[|run| - 1] == last
    && MismatchesIn(h, meta, run) == m
  }

  /** The bytes the first look at `.part` finds. */
  function Prepared(f: Files): Option<Bytes> {
    if f.final.Some? then f.final else f.part
  }

  /** An empty record can only be met by an empty file that is already there. */
  predicate EmptyAndGood(h: Hash, meta: Meta, p: Option<Bytes>) {
    p == Some([]) && Matches(h, meta, [])
  }

  class File {
    const h: Hash
    const meta: Meta
    var part: Option<Bytes>
    var final: Option<Bytes>
    var verified: Option<Marker>

    function State(): Files
      reads this
    {
      OnDisk(part, final, verified)
    }

    constructor (h: Hash, meta: Meta, files: Files)
      ensures this.h == h && this.meta == meta && State() == files
    {
      this.h, this.meta := h, meta;
      part, final, verified := files.part, files.final, files.verified;
    }

    /** `.part` is complete: hash it, then drop it or publish it with its marker. */
    method Settle(mismatches: nat, ghost first: Files, ghost before: seq<Dl>)
        returns (good: bool, counted: nat, ghost run: seq<Dl>)
      requires part.Some? && Decide(Have(State()), meta.size) == Done && mismatches < MAX_MISMATCHES && final.None?
      requires Recorded(h, meta, before, first, Dl(Fetching(mismatches), State()), mismatches)
      modifies `part, `final, `verified
      ensures counted == mismatches + if good then 0 else 1
      ensures good <==> old(Matches(h, meta, part.value))
      ensures good ==> (IsVerified(State(), meta) <==> HasDigest(meta))
      ensures Recorded(h, meta, run, first,
                       Dl(if good || counted >= MAX_MISMATCHES then Finished else Fetching(counted), State()), counted)
      ensures !good ==> part.None? && final.None?
    {
      run := before;
      var sha256, git := h.sha256(part.value), h.git(meta.size, part.value);
      if !HashesMatch(meta, sha256, git) {
        good, counted := false, mismatches + 1;
        part := None;
        ghost var next := Dl(if counted >= MAX_MISMATCHES then Finished else Fetching(counted), State());
        assert Mismatch(h, meta, run[|run| - 1], next);
        run := Extended(h, meta, run, next);
        return;
      }
      good, counted := true, mismatches;
      assert Match(h, meta, run[|run| - 1], Dl(Checked(sha256, git), State()));
      run := Extended(h, meta, run, Dl(Checked(sha256, git), State()));
      final, part := part, None;
      assert Place(run[|run| - 1], Dl(Placed(sha256, git), State()));
      run := Extended(h, meta, run, Dl(Placed(sha256, git), State()));
      verified := Some(Torn);
      assert OpenMarker(run[|run| - 1], Dl(Placed(sha256, git), State()));
      run := Extended(h, meta, run, Dl(Placed(sha256, git), State()));
      verified := Some(Marker(meta.size, sha256, git));
      assert WriteMarker(meta, run[|run| - 1], Dl(Finished, State()));
      run := Extended(h, meta, run, Dl(Finished, State()));
    }

    /** A file on disk without a good marker is moved back to `.part`. */
    method Prepare() returns (ghost run: seq<Dl>)
      requires !IsVerified(State(), meta)
      modifies `part, `final
      ensures final.None? && Recorded(h, meta, run, old(State()), Dl(Fetching(0), State()), 0)
      ensures part == old(Prepared(State()))
    {
      run := [Dl(Entry, State())];
      if final.Some? {
        part := None;
        assert Begin(meta, run[0], Dl(Starting, State()));
        run := Extended(h, meta, run, Dl(Starting, State()));
        part, final := final, None;
        assert Demote(run[|run| - 1], Dl(Fetching(0), State()));
      } else {
        assert Begin(meta, run[0], Dl(Fetching(0), State()));
      }
      run := Extended(h, meta, run, Dl(Fetching(0), State()));
    }

    /** What can happen on an empty record: the prepared file decides, and no transfer is tried. */
    ghost predicate EmptyRun(r: Result, p: Option<Bytes>, mismatches: nat, prepared: Option<Bytes>) {
      && (r == Interrupted ==>
            (p == prepared && mismatches == 0) || (p.None? && mismatches <= 1 && !EmptyAndGood(h, meta, prepared)))
      && (r == Fetched ==> EmptyAndGood(h, meta, prepared))
      && (r == Interrupted || r == Fetched || r == MissingPart)
    }

    /** Runs until it returns or `transfers` is used up; `run` records every state the disk passes through. */
    method FetchFile(transfers: seq<Transfer>) returns (r: Result, ghost run: seq<Dl>)
      requires Genuine(h, meta, State())
      modifies `part, `final, `verified
      ensures IsRun(h, meta, run) && run[0] == Dl(Entry, old(State())) && run[|run| - 1].files == State()
      ensures Genuine(h, meta, State())
      ensures r == Skipped <==> old(IsVerified(State(), meta))
      ensures r == Skipped ==> State() == old(State())
      ensures r == Fetched ==> (IsVerified(State(), meta) <==> HasDigest(meta))
      ensures MismatchesIn(h, meta, run) <= MAX_MISMATCHES
      ensures r == TooManyMismatches <==> MismatchesIn(h, meta, run) == MAX_MISMATCHES
      ensures r == MissingPart <==>
                meta.size == 0 && !old(IsVerified(State(), meta)) && !EmptyAndGood(h, meta, old(Prepared(State())))
    {
      ghost var first := State();
      if IsVerified(State(), meta) {
        return Skipped, [Dl(Entry, State())];
      }
      run := Prepare();
      var mismatches, used := 0, 0;
      r := Interrupted;
      while r == Interrupted
        invariant used <= |transfers| && mismatches <= MAX_MISMATCHES
        invariant r in {Interrupted, Fetched, TooManyMismatches, Refused, Permanent, MissingPart}
        invariant exists pc :: Recorded(h, meta, run, first, Dl(pc, State()), mismatches)
        invariant r == Interrupted ==> Recorded(h, meta, run, first, Dl(Fetching(mismatches), State()), mismatches)
        invariant r == Interrupted ==> final.None?
        invariant r == TooManyMismatches <==> mismatches == MAX_MISMATCHES
        invariant r == Fetched ==> (IsVerified(State(), meta) <==> HasDigest(meta))
        invariant r == MissingPart ==> meta.size == 0 && !EmptyAndGood(h, meta, Prepared(first))
        invariant meta.size == 0 ==> EmptyRun(r, part, mismatches, Prepared(first))
        decreases r == Interrupted, |transfers| - used, if part.Some? then 1 else 0
      {
        match Decide(Have(State()), meta.size)
        case Overlong =>
          part := None;
          assert DropOverlong(meta, run[|run| - 1], Dl(Fetching(mismatches), State()));
          run := Extended(h, meta, run, Dl(Fetching(mismatches), State()));
        case Done =>
          if part.None? {
            r := MissingPart;
          } else {
            var good;
            good, mismatches, run := Settle(mismatches, first, run);
            r := if good then Fetched else if mismatches >= MAX_MISMATCHES then TooManyMismatches else r;
          }
        case Resume =>
          if used == |transfers| {
            break;
          }
          var t := transfers[used];
          used := used + 1;
          if !t.space {
            r := Refused;
          } else {
            part := t.part;
            assert Transferred(meta, run[|run| - 1], Dl(Fetching(mismatches), State()));
            run := Extended(h, meta, run, Dl(Fetching(mismatches), State()));
            if !(t.exitOk && Have(State()) == meta.size) && !t.lowSpace && t.permanent {
              r := Permanent;
            }
          }
      }
      VerifiedIsGenuine(h, meta, run, |run| - 1);
    }
  }
}
