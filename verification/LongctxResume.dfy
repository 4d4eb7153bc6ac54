/** The resumable sparse dump: cmd_run of oracle/ref_longctx_logits.py. */
module LongctxResume {
  import opened Common
  import opened LongctxRun

  /** The forward stays abstract: the state before the first token, what one chunk of ids makes of a
      state (attention cache and convolution carry), and the logits of a row of that chunk. */
  datatype Ref<!Id, !St, L> = Ref(empty: St, step: (St, seq<Id>) -> St, logits: (St, seq<Id>, nat) -> L)

  /** The ids, the plan's rows sorted, --chunk and --save-every. */
  datatype Job<!Id, !St, L> = Job(ref: Ref<Id, St, L>, ids: seq<Id>, plan: seq<nat>, chunk: nat, saveEvery: nat)

  datatype RowsFile = NoRows | TornRows | Rows(list: seq<nat>)
  datatype StateFile<St> = NoState | TornState | Saved(tokens: nat, state: St, chunks: nat)

  /** When the process dies: at the write after `writes` more, which completes, or is cut short. */
  datatype Power = Steady | FailsAt(writes: nat, cut: Option<nat>)

  datatype Refusal =
    NoIds | PlanOutside | RowsUnreadable | WrongPlan | DumpWithoutState | StateUnreadable | StatePastEnd |
    RowsWithoutState | RowsOutOfOrder | RowsLost
  datatype Outcome = Refused(why: Refusal) | Killed(insideOnRows: bool) | Finished

  ghost predicate WellFormed<Id, St, L>(job: Job<Id, St, L>) {
    job.chunk >= 1 && Ascending(job.plan)
  }

  function ChunkEnd<Id, St, L>(job: Job<Id, St, L>, done: nat): (end: nat)
    requires done < |job.ids| && job.chunk >= 1
    ensures done < end <= |job.ids|
  {
    if done + job.chunk <= |job.ids| then done + job.chunk else |job.ids|
  }

  /** The logits of row r in a run that stands before token `done` with state `st`. */
  function LogitsFrom<Id, St, L>(job: Job<Id, St, L>, done: nat, st: St, r: nat): L
    requires job.chunk >= 1 && done <= r < |job.ids|
    decreases r - done
  {
    var end := ChunkEnd(job, done);
    var seg := job.ids[done..end];
    if r < end then job.ref.logits(st, seg, r - done) else LogitsFrom(job, end, job.ref.step(st, seg), r)
  }

  /** What one run from the first token to the last writes for these rows. */
  ghost function Uninterrupted<Id, St, L>(job: Job<Id, St, L>, rows: seq<nat>): (d: seq<L>)
    requires job.chunk >= 1
    requires forall r | r in rows :: r < |job.ids|
    ensures |d| == |rows|
  {
    seq(|rows|, i requires 0 <= i < |rows| => assert rows[i] in rows; LogitsFrom(job, 0, job.ref.empty, rows[i]))
  }

  /** A state that continues exactly as the uninterrupted run does. */
  ghost predicate OnTrack<Id, St, L>(job: Job<Id, St, L>, done: nat, st: St)
    requires job.chunk >= 1
  {
    done <= |job.ids| &&
    forall r | done <= r < |job.ids| :: LogitsFrom(job, done, st, r) == LogitsFrom(job, 0, job.ref.empty, r)
  }

  lemma ChunkStaysOnTrack<Id, St, L>(job: Job<Id, St, L>, done: nat, st: St)
    requires job.chunk >= 1 && done < |job.ids| && OnTrack(job, done, st)
    ensures var end := ChunkEnd(job, done); OnTrack(job, end, job.ref.step(st, job.ids[done..end]))
  {
    var end := ChunkEnd(job, done);
    forall r | end <= r < |job.ids|
      ensures LogitsFrom(job, end, job.ref.step(st, job.ids[done..end]), r) == LogitsFrom(job, 0, job.ref.empty, r)
    {
      assert LogitsFrom(job, done, st, r) == LogitsFrom(job, end, job.ref.step(st, job.ids[done..end]), r);
    }
  }

  // ----- the plan against the rows file

  function Left(plan: seq<nat>, rows: seq<nat>): seq<nat> {
    if plan == [] then []
    else if plan[0] in rows then Left(plan[1..], rows)
    else [plan[0]] + Left(plan[1..], rows)
  }

  function Kept(plan: seq<nat>, rows: seq<nat>): seq<nat> {
    if plan == [] then []
    else if plan[0] in rows then [plan[0]] + Kept(plan[1..], rows)
    else Kept(plan[1..], rows)
  }

  lemma {:induction false} LeftAscending(plan: seq<nat>, rows: seq<nat>)
    requires Ascending(plan)
    ensures Ascending(Left(plan, rows))
    ensures forall r :: r in Left(plan, rows) <==> r in plan && r !in rows
  {
    if plan != [] {
      LeftAscending(plan[1..], rows);
      assert plan == [plan[0]] + plan[1..];
      var rest := Left(plan[1..], rows);
      forall k | 0 <= k < |rest| ensures plan[0] < rest[k] {
        assert rest[k] in plan[1..];
      }
    }
  }

  lemma {:induction false} SplitPlan(a: seq<nat>, b: seq<nat>, rows: seq<nat>)
    ensures Left(a + b, rows) == Left(a, rows) + Left(b, rows)
    ensures Kept(a + b, rows) == Kept(a, rows) + Kept(b, rows)
  {
    if a == [] {
      assert a + b == b;
      assert [] + Left(b, rows) == Left(b, rows) && [] + Kept(b, rows) == Kept(b, rows);
    } else {
      SplitPlan(a[1..], b, rows);
      var c := a + b;
      assert c[1..] == a[1..] + b && c[0] == a[0];
      LeadingRow(a[0], Left(a[1..], rows), Left(b, rows));
      LeadingRow(a[0], Kept(a[1..], rows), Kept(b, rows));
    }
  }

  lemma LeadingRow(r: nat, a: seq<nat>, b: seq<nat>)
    ensures [r] + (a + b) == ([r] + a) + b
  {
  }

  lemma {:induction false} AllWritten(plan: seq<nat>, rows: seq<nat>)
    requires forall k | 0 <= k < |plan| :: plan[k] in rows
    ensures Left(plan, rows) == [] && Kept(plan, rows) == plan
  {
    if plan != [] { AllWritten(plan[1..], rows); }
  }

  lemma {:induction false} NoneWritten(plan: seq<nat>, rows: seq<nat>)
    requires forall k | 0 <= k < |plan| :: plan[k] !in rows
    ensures Left(plan, rows) == plan && Kept(plan, rows) == []
  {
    if plan != [] { NoneWritten(plan[1..], rows); }
  }

  /** Rows that open the plan pass the order check, and what is left is the rest of the plan. */
  lemma PrefixPasses(plan: seq<nat>, rows: seq<nat>)
    requires Ascending(plan) && rows <= plan
    ensures Left(plan, rows) == plan[|rows|..] && Kept(plan, rows) == rows
  {
    var rest := plan[|rows|..];
    assert plan == rows + rest;
    SplitPlan(rows, rest, rows);
    AllWritten(rows, rows);
    forall k | 0 <= k < |rest| ensures rest[k] !in rows {
      forall i | 0 <= i < |rows| ensures rows[i] != rest[k] {
        assert plan[i] < plan[|rows| + k];
      }
    }
    NoneWritten(rest, rows);
  }

  lemma PrefixMembers(plan: seq<nat>, rows: seq<nat>)
    requires rows <= plan
    ensures forall r | r in rows :: r in plan
  {
    forall r | r in rows ensures r in plan {
      var k :| 0 <= k < |rows| && rows[k] == r;
      assert plan[k] == r;
    }
  }

  lemma {:induction false} KeptAscending(plan: seq<nat>, rows: seq<nat>)
    requires Ascending(plan)
    ensures Ascending(Kept(plan, rows))
    ensures forall r :: r in Kept(plan, rows) <==> r in plan && r in rows
  {
    if plan != [] {
      KeptAscending(plan[1..], rows);
      assert plan == [plan[0]] + plan[1..];
      var rest := Kept(plan[1..], rows);
      forall k | 0 <= k < |rest| ensures plan[0] < rest[k] {
        assert rest[k] in plan[1..];
      }
    }
  }

  lemma FirstIsLeast(a: seq<nat>, r: nat)
    requires Ascending(a) && r in a
    ensures a[0] <= r
  {
    var k :| 0 <= k < |a| && a[k] == r;
    assert k == 0 || a[0] < a[k];
  }

  lemma TailMembers(a: seq<nat>, r: nat)
    requires a != [] && Ascending(a)
    ensures r in a[1..] <==> r in a && r != a[0]
  {
    assert a == [a[0]] + a[1..];
    forall k | 0 <= k < |a[1..]| ensures a[1..][k] != a[0] { assert a[0] < a[k + 1]; }
  }

  lemma {:induction false} SameRowsSameOrder(a: seq<nat>, b: seq<nat>)
    requires Ascending(a) && Ascending(b) && forall r :: r in a <==> r in b
    ensures a == b
  {
    if a == [] {
      if b != [] { HasMember(b); }
    } else {
      assert a[0] in b;
      assert b[0] in a;
      FirstIsLeast(a, b[0]);
      FirstIsLeast(b, a[0]);
      forall r ensures r in a[1..] <==> r in b[1..] {
        TailMembers(a, r);
        TailMembers(b, r);
      }
      SameRowsSameOrder(a[1..], b[1..]);
      assert a == [a[0]] + a[1..] && b == [b[0]] + b[1..];
    }
  }

  /** The order check passes exactly the ascending selections from the plan, with gaps or without. */
  lemma OrderCheckPasses(plan: seq<nat>, rows: seq<nat>)
    requires Ascending(plan)
    ensures rows == Kept(plan, rows) <==> Ascending(rows) && forall r | r in rows :: r in plan
  {
    KeptAscending(plan, rows);
    if Ascending(rows) && forall r | r in rows :: r in plan {
      SameRowsSameOrder(rows, Kept(plan, rows));
    }
  }

  lemma HasMember(s: seq<nat>)
    requires s != []
    ensures exists r :: r in s
  {
    assert s[0] in s;
  }

  /** `sorted(want)` split at start_token. */
  method CountBelow(want: seq<nat>, start: nat) returns (wi: nat)
    requires Ascending(want)
    ensures wi <= |want|
    ensures forall x | 0 <= x < |want| :: want[x] < start <==> x < wi
  {
    wi := 0;
    while wi < |want| && want[wi] < start
      invariant wi <= |want|
      invariant forall x | 0 <= x < wi :: want[x] < start
    {
      wi := wi + 1;
    }
  }

  // ----- the three files, and cmd_run

  /** Every row that was not there before lies below `end`. */
  ghost predicate OnlyBelow(rows: seq<nat>, before: seq<nat>, end: nat) {
    forall r | r in rows :: r in before || r < end
  }

  lemma BelowTwice(rows: seq<nat>, had: seq<nat>, before: seq<nat>, end: nat, done: nat)
    requires OnlyBelow(rows, had, end) && OnlyBelow(had, before, done) && done <= end
    ensures OnlyBelow(rows, before, end)
  {
  }

  class Output<Id, St, L> {
    const job: Job<Id, St, L>
    var dump: Option<seq<L>>
    var rowsFile: RowsFile
    var stateFile: StateFile<St>
    var power: Power

    constructor (job: Job<Id, St, L>, power: Power)
      ensures this.job == job && this.power == power
      ensures dump == None && rowsFile == NoRows && stateFile == NoState
    {
      this.job := job;
      this.power := power;
      dump, rowsFile, stateFile := None, NoRows, NoState;
    }

    function Written(): seq<L> reads this {
      if dump.None? then [] else dump.value
    }

    function DoneRows(): seq<nat> reads this {
      if rowsFile.Rows? then rowsFile.list else []
    }

    /** Logits in the dump that the rows file does not account for. */
    ghost function Surplus(): int reads this {
      |Written()| - |DoneRows()|
    }

    ghost predicate InSync()
      requires job.chunk >= 1 && forall r | r in DoneRows() :: r < |job.ids|
      reads this
    {
      Written() == Uninterrupted(job, DoneRows())
    }

    /** The dump holds the rows' logits, or more logits than rows. */
    ghost predicate Accounted(written: seq<L>, rows: seq<nat>)
      requires job.chunk >= 1
    {
      (forall r | r in rows :: r < |job.ids|) && (written == Uninterrupted(job, rows) || |written| > |rows|)
    }

    /** The saved state claims no row that is not in `rows`. */
    ghost predicate StateKnows(rows: seq<nat>)
      requires job.chunk >= 1
      reads this`stateFile
    {
      stateFile.Saved? ==>
        OnTrack(job, stateFile.tokens, stateFile.state) && forall r | r in job.plan && r < stateFile.tokens :: r in rows
    }

    /** What every kill and resume keeps: the rows file is a prefix of the plan, and the dump holds the
        rows' logits in that order or more logits than rows. */
    ghost predicate Valid() reads this {
      && WellFormed(job)
      && (rowsFile.TornRows? ||
          (&& DoneRows() <= job.plan
           && Accounted(Written(), DoneRows())
           && (rowsFile.Rows? ==> dump.Some?)
           && StateKnows(DoneRows())))
    }

    /** The checks before the run, in the program's order. */
    function Admit(): Option<Refusal> reads this {
      if job.ids == [] then Some(NoIds)
      else if exists r :: r in job.plan && r + 2 > |job.ids| then Some(PlanOutside)
      else if rowsFile.TornRows? then Some(RowsUnreadable)
      else if exists r :: r in DoneRows() && r !in job.plan then Some(WrongPlan)
      else if dump.Some? && stateFile.NoState? then Some(DumpWithoutState)
      else if stateFile.TornState? then Some(StateUnreadable)
      else if stateFile.Saved? && stateFile.tokens > |job.ids| then Some(StatePastEnd)
      else if stateFile.NoState? && DoneRows() != [] then Some(RowsWithoutState)
      else if DoneRows() != Kept(job.plan, DoneRows()) then Some(RowsOutOfOrder)
      else None
    }

    ghost predicate PlanFits() {
      job.ids != [] && forall r | r in job.plan :: r + 2 <= |job.ids|
    }

    /** On files this program left behind, only a torn file or a dump without a state is refused. */
    lemma AdmitsUnlessTorn()
      requires Valid() && PlanFits()
      ensures Admit() == None <==>
              !rowsFile.TornRows? && !stateFile.TornState? && (stateFile.NoState? ==> dump.None?)
    {
      if !rowsFile.TornRows? {
        PrefixPasses(job.plan, DoneRows());
        PrefixMembers(job.plan, DoneRows());
      }
    }

    /** One write: whether the process outlives it, and how much of it lands (None: all). */
    method Write() returns (alive: bool, cut: Option<nat>)
      modifies this`power
      ensures alive ==> cut == None
      ensures old(power) == Steady ==> alive && power == Steady
      ensures old(power) == FailsAt(0, None) ==> !alive && cut == None
    {
      match power
      case Steady => alive, cut := true, None;
      case FailsAt(n, c) =>
        if n == 0 {
          alive, cut := false, c;
        } else {
          power := FailsAt(n - 1, c);
          alive, cut := true, None;
        }
    }

    /** Appends the logits, then rewrites the rows file. */
    method OnRows(here: seq<nat>, logits: seq<L>, before: seq<nat>) returns (alive: bool, inside: bool)
      modifies this`power, this`dump, this`rowsFile
      ensures dump.Some? && old(Written()) <= Written()
      ensures alive ==> !inside
      ensures !inside ==> Written() == old(Written()) + logits && rowsFile == Rows(before + here)
      ensures inside ==> rowsFile == old(rowsFile) || rowsFile == TornRows
      ensures old(power) == Steady ==> alive && power == Steady
      ensures old(power) == FailsAt(0, None) ==>
                !alive && inside && rowsFile == old(rowsFile) && Written() == old(Written()) + logits
    {
      var cut: Option<nat>;
      alive, cut := Write();
      var landed := if cut.Some? && cut.value <= |logits| then cut.value else |logits|;
      dump := Some(Written() + logits[..landed]);
      assert logits[..|logits|] == logits;
      if !alive {
        return false, true;
      }
      alive, cut := Write();
      rowsFile := if cut == None then Rows(before + here) else TornRows;
      inside := cut.Some?;
    }

    method SaveState(tokens: nat, state: St, chunks: nat) returns (alive: bool)
      modifies this`power, this`stateFile
      ensures stateFile == TornState || stateFile == Saved(tokens, state, chunks)
      ensures alive ==> stateFile.Saved?
      ensures old(power) == Steady ==> alive && power == Steady
    {
      var cut: Option<nat>;
      alive, cut := Write();
      stateFile := if cut == None then Saved(tokens, state, chunks) else TornState;
    }

    /** The rows of one chunk: their logits are handed to on_rows, if there are any. */
    method ChunkRows(want: seq<nat>, wi: nat, done: nat, st: St, before: seq<nat>)
        returns (next: nat, after: seq<nat>, alive: bool, inside: bool)
      requires WellFormed(job) && done < |job.ids| && Ascending(want) && wi <= |want|
      requires forall x | wi <= x < |want| :: want[x] >= done
      requires !rowsFile.TornRows? && DoneRows() == before
      modifies this`power, this`dump, this`rowsFile
      ensures wi <= next <= |want| && forall x | wi <= x < |want| :: want[x] < ChunkEnd(job, done) <==> x < next
      ensures after == before + want[wi..next]
      ensures alive ==> !inside
      ensures !inside ==> !rowsFile.TornRows? && DoneRows() == after
      ensures !inside ==> Written() == old(Written()) + RowLogits(want[wi..next], done, st)
      ensures inside ==> (rowsFile == old(rowsFile) && old(Written()) <= Written()) || rowsFile == TornRows
      ensures dump == old(dump) || dump.Some?
      ensures rowsFile.Rows? ==> dump.Some? || old(rowsFile.Rows?)
      ensures old(power) == Steady ==> alive && power == Steady
      ensures old(power) == FailsAt(0, None) && next > wi ==>
                !alive && inside && rowsFile == old(rowsFile) && |Written()| > |old(Written())|
    {
      var end := ChunkEnd(job, done);
      next := wi;
      while next < |want| && want[next] < end
        invariant wi <= next <= |want|
        invariant forall x | wi <= x < next :: want[x] < end
      {
        next := next + 1;
      }
      var here := want[wi..next];
      after := before + here;
      if here == [] {
        alive, inside := true, false;
        assert Written() + [] == Written();
      } else {
        alive, inside := OnRows(here, RowLogits(here, done, st), before);
      }
    }

    function RowLogits(here: seq<nat>, done: nat, st: St): (l: seq<L>)
      requires job.chunk >= 1 && done < |job.ids| && forall x | 0 <= x < |here| :: here[x] >= done
      ensures |l| == |here|
    {
      seq(|here|, i requires 0 <= i < |here| => job.ref.logits(st, job.ids[done..ChunkEnd(job, done)], here[i] - done))
    }

    /** Between two chunks of a run that began on files this program left behind. */
    ghost predicate Midway(done: nat, st: St, rows: seq<nat>, todo: seq<nat>) reads this {
      && WellFormed(job) && PlanFits() && Valid()
      && !rowsFile.TornRows? && DoneRows() == rows
      && OnTrack(job, done, st)
      && (forall r | r in job.plan && r < done :: r in rows)
      && todo == job.plan[|rows|..]
    }

    /** One chunk: its wanted rows are written, and the state moves on. */
    method Advance(want: seq<nat>, wi: nat, done: nat, st: St, before: seq<nat>, ghost ok: bool)
        returns (next: nat, after: seq<nat>, state: St, alive: bool, inside: bool)
      requires WellFormed(job) && done < |job.ids| && Ascending(want) && wi <= |want|
      requires forall x | wi <= x < |want| :: want[x] >= done
      requires !rowsFile.TornRows? && DoneRows() == before
      requires ok ==> Midway(done, st, before, want[wi..])
      modifies this`power, this`dump, this`rowsFile
      ensures wi <= next <= |want| && forall x | next <= x < |want| :: want[x] >= ChunkEnd(job, done)
      ensures alive ==> !inside
      ensures !inside ==> !rowsFile.TornRows? && DoneRows() == after && Surplus() == old(Surplus())
      ensures ok ==> Valid()
      ensures ok && !inside ==> Midway(ChunkEnd(job, done), state, after, want[next..])
      ensures OnlyBelow(after, before, ChunkEnd(job, done))
      ensures old(power) == Steady ==> alive && power == Steady
      ensures old(power) == FailsAt(0, None) && wi < |want| && want[wi] < ChunkEnd(job, done) ==>
                !alive && inside && rowsFile == old(rowsFile) && Surplus() > old(Surplus())
    {
      var end := ChunkEnd(job, done);
      ghost var was := Written();
      assert ok ==> Accounted(was, before) && StateKnows(before);
      next, after, alive, inside := ChunkRows(want, wi, done, st, before);
      state := job.ref.step(st, job.ids[done..end]);
      OnlyChunkAdded(before, want, wi, next, end);
      if ok && !inside {
        PlanSplits(want, wi, next, before);
        StillMidway(done, st, before, want[wi..next], want[next..], was);
      } else if ok && !rowsFile.TornRows? {
        StillValid(before, was);
      }
    }

    lemma OnlyChunkAdded(before: seq<nat>, want: seq<nat>, wi: nat, next: nat, end: nat)
      requires wi <= next <= |want| && forall x | wi <= x < next :: want[x] < end
      ensures OnlyBelow(before + want[wi..next], before, end)
    {
      var here := want[wi..next];
      forall r | r in before + here && r !in before ensures r < end {
        var x :| 0 <= x < |here| && here[x] == r;
        assert want[wi + x] == r;
      }
    }

    /** A kill inside on_rows before the rows file is touched: logits may be in surplus, rows are not. */
    lemma StillValid(before: seq<nat>, was: seq<L>)
      requires WellFormed(job) && Accounted(was, before) && StateKnows(before) && before <= job.plan
      requires !rowsFile.TornRows? && DoneRows() == before && (rowsFile.Rows? ==> dump.Some?) && was <= Written()
      ensures Valid()
    {
    }

    /** After the chunk's rows are written, the run stands behind the chunk. */
    lemma StillMidway(done: nat, st: St, before: seq<nat>, here: seq<nat>, rest: seq<nat>, was: seq<L>)
      requires WellFormed(job) && PlanFits() && done < |job.ids| && OnTrack(job, done, st)
      requires Accounted(was, before) && StateKnows(before)
      requires before + here <= job.plan && rest == job.plan[|before + here|..]
      requires forall x | 0 <= x < |rest| :: rest[x] >= ChunkEnd(job, done)
      requires forall x | 0 <= x < |here| :: done <= here[x] < ChunkEnd(job, done)
      requires !rowsFile.TornRows? && DoneRows() == before + here && (rowsFile.Rows? ==> dump.Some?)
      requires Written() == was + RowLogits(here, done, st)
      ensures var end := ChunkEnd(job, done); Midway(end, job.ref.step(st, job.ids[done..end]), before + here, rest)
    {
      ChunkStaysOnTrack(job, done, st);
      SeenAfter(before, here, rest, ChunkEnd(job, done));
      LogitsExtend(before, here, done, st);
    }

    /** The chunk's rows come next in the plan. */
    lemma PlanSplits(want: seq<nat>, wi: nat, next: nat, before: seq<nat>)
      requires wi <= next <= |want| && before <= job.plan && want[wi..] == job.plan[|before|..]
      ensures before + want[wi..next] <= job.plan
      ensures want[next..] == job.plan[|before + want[wi..next]|..]
    {
      var n := next - wi;
      assert want[wi..next] == want[wi..][..n] && want[next..] == want[wi..][n..];
      assert job.plan == job.plan[..|before|] + job.plan[|before|..];
    }

    /** Every planned row before the chunk's end is then written. */
    lemma SeenAfter(before: seq<nat>, here: seq<nat>, rest: seq<nat>, end: nat)
      requires before + here <= job.plan && rest == job.plan[|before + here|..]
      requires forall x | 0 <= x < |rest| :: rest[x] >= end
      ensures forall r | r in job.plan && r < end :: r in before + here
    {
      forall r | r in job.plan && r < end ensures r in before + here {
        forall k | |before + here| <= k < |job.plan| ensures job.plan[k] >= end {
          assert rest[k - |before + here|] == job.plan[k];
        }
        var k :| 0 <= k < |job.plan| && job.plan[k] == r;
        assert (before + here)[k] == r;
      }
    }

    /** The logits of the chunk's rows are those of the uninterrupted run. */
    lemma LogitsExtend(before: seq<nat>, here: seq<nat>, done: nat, st: St)
      requires job.chunk >= 1 && done < |job.ids| && OnTrack(job, done, st)
      requires forall r | r in before :: r < |job.ids|
      requires forall x | 0 <= x < |here| :: done <= here[x] < ChunkEnd(job, done)
      ensures forall r | r in before + here :: r < |job.ids|
      ensures Uninterrupted(job, before + here) == Uninterrupted(job, before) + RowLogits(here, done, st)
    {
      forall r | r in before + here ensures r < |job.ids| {
        if r !in before { assert r in here; }
      }
      forall x | 0 <= x < |here|
        ensures RowLogits(here, done, st)[x] == LogitsFrom(job, 0, job.ref.empty, here[x])
      {
        assert LogitsFrom(job, done, st, here[x]) == LogitsFrom(job, 0, job.ref.empty, here[x]);
      }
    }

    /** Nothing planned before the saved token is missing. */
    lemma NoneSkipped(rows: seq<nat>, done: nat, want: seq<nat>, wi: nat)
      requires Ascending(job.plan) && rows <= job.plan && want == Left(job.plan, rows) && wi <= |want|
      requires forall r | r in job.plan && r < done :: r in rows
      requires forall x | 0 <= x < |want| :: want[x] < done <==> x < wi
      ensures wi == 0 && want[wi..] == job.plan[|rows|..]
    {
      LeftAscending(job.plan, rows);
      PrefixPasses(job.plan, rows);
      if want != [] {
        assert want[0] in want;
      }
    }

    /** The first write of a run is the logits of a row in its first chunk, and it is the last one. */
    predicate DiesAtFirst(power: Power, want: seq<nat>, first: nat, start: nat)
      requires job.chunk >= 1
    {
      && power == FailsAt(0, None) && start < |job.ids|
      && first < |want| && want[first] < ChunkEnd(job, start)
    }

    /** A checkpoint claims no more than what is written. */
    method Checkpoint(tokens: nat, st: St, chunks: nat, ghost ok: bool, ghost rows: seq<nat>, ghost todo: seq<nat>)
        returns (alive: bool)
      requires ok ==> Midway(tokens, st, rows, todo)
      modifies this`power, this`stateFile
      ensures ok ==> Midway(tokens, st, rows, todo)
      ensures stateFile == TornState || stateFile == Saved(tokens, st, chunks)
      ensures alive ==> stateFile.Saved?
      ensures old(power) == Steady ==> alive && power == Steady
    {
      alive := SaveState(tokens, st, chunks);
    }

    /** A checkpoint every --save-every chunks. */
    method Sink(tokens: nat, st: St, chunks: nat, lastSave: nat, ghost ok: bool, ghost rows: seq<nat>,
                ghost todo: seq<nat>)
        returns (alive: bool, last: nat)
      requires ok ==> Midway(tokens, st, rows, todo)
      modifies this`power, this`stateFile
      ensures ok ==> Midway(tokens, st, rows, todo)
      ensures stateFile == old(stateFile) || (chunks - lastSave >= job.saveEvery &&
                (stateFile == TornState || stateFile == Saved(tokens, st, chunks)))
      ensures last == if chunks - lastSave >= job.saveEvery && alive then chunks else lastSave
      ensures old(power) == Steady ==> alive && power == Steady
    {
      alive, last := true, lastSave;
      if chunks - lastSave >= job.saveEvery {
        alive := Checkpoint(tokens, st, chunks, ok, rows, todo);
        if alive { last := chunks; }
      }
    }

    /** One round of the loop: a chunk and its checkpoint; `died` says where the process died. */
    method Round(want: seq<nat>, wi: nat, done: nat, st: St, before: seq<nat>, chunks: nat, lastSave: nat,
                 ghost ok: bool)
        returns (next: nat, after: seq<nat>, state: St, last: nat, died: Option<bool>)
      requires WellFormed(job) && done < |job.ids| && Ascending(want) && wi <= |want|
      requires forall x | wi <= x < |want| :: want[x] >= done
      requires !rowsFile.TornRows? && DoneRows() == before
      requires ok ==> Midway(done, st, before, want[wi..])
      modifies this`power, this`dump, this`rowsFile, this`stateFile
      ensures wi <= next <= |want| && forall x | next <= x < |want| :: want[x] >= ChunkEnd(job, done)
      ensures OnlyBelow(after, before, ChunkEnd(job, done))
      ensures ok ==> Valid()
      ensures died != Some(true) ==> !rowsFile.TornRows? && DoneRows() == after && Surplus() == old(Surplus())
      ensures ok && died == None ==> Midway(ChunkEnd(job, done), state, after, want[next..])
      ensures old(power) == Steady ==> died == None && power == Steady
      ensures DiesAtFirst(old(power), want, wi, done) ==>
                died == Some(true) && rowsFile == old(rowsFile) && stateFile == old(stateFile) &&
                Surplus() > old(Surplus())
    {
      var alive, inside;
      last := lastSave;
      next, after, state, alive, inside := Advance(want, wi, done, st, before, ok);
      if !alive {
        died := Some(inside);
        return;
      }
      alive, last := Sink(ChunkEnd(job, done), state, chunks, lastSave, ok, after, want[next..]);
      died := if alive then None else Some(false);
    }

    /** Runner.run with cmd_run's callbacks: chunk by chunk, a checkpoint every --save-every chunks. */
    method RunChunks(want: seq<nat>, first: nat, start: nat, initial: St, saved: nat, maxChunks: Option<nat>,
                     ghost ok: bool)
        returns (done: nat, st: St, rows: seq<nat>, lastSave: nat, died: Option<bool>)
      requires WellFormed(job) && start <= |job.ids| && Ascending(want) && first <= |want|
      requires forall x | first <= x < |want| :: want[x] >= start
      requires !rowsFile.TornRows?
      requires ok ==> Midway(start, initial, DoneRows(), want[first..])
      modifies this`power, this`dump, this`rowsFile, this`stateFile
      ensures ok ==> Valid()
      ensures died != Some(true) ==> !rowsFile.TornRows? && Surplus() == old(Surplus())
      ensures died == None ==> DoneRows() == rows && (maxChunks == None ==> done == |job.ids|)
      ensures died == None && ok ==> exists todo :: Midway(done, st, rows, todo)
      ensures died == None ==> OnlyBelow(rows, old(DoneRows()), done)
      ensures died == None && maxChunks == Some(1) && start < |job.ids| ==> done == ChunkEnd(job, start)
      ensures old(power) == Steady ==> died == None && power == Steady
      ensures DiesAtFirst(old(power), want, first, start) ==>
                died == Some(true) && rowsFile == old(rowsFile) && stateFile == old(stateFile) &&
                Surplus() > old(Surplus())
    {
      done, st, rows, lastSave, died := start, initial, DoneRows(), saved, None;
      var wi: nat, chunksDone := first, 0;
      ghost var before, surplus, dies := rows, Surplus(), DiesAtFirst(power, want, first, start);
      ghost var wasRows, wasState := rowsFile, stateFile;
      while done < |job.ids|
        invariant done <= |job.ids| && wi <= |want| && died == None
        invariant forall x | wi <= x < |want| :: want[x] >= done
        invariant !rowsFile.TornRows? && DoneRows() == rows
        invariant Surplus() == surplus && OnlyBelow(rows, before, done)
        invariant ok ==> Midway(done, st, rows, want[wi..])
        invariant old(power) == Steady ==> power == Steady
        invariant maxChunks == Some(1) ==> chunksDone == 0 && done == start
        invariant dies ==> done == start && wi == first && DiesAtFirst(power, want, first, start)
        invariant dies ==> rowsFile == wasRows && stateFile == wasState
      {
        var end := ChunkEnd(job, done);
        chunksDone := chunksDone + 1;
        ghost var had := rows;
        wi, rows, st, lastSave, died := Round(want, wi, done, st, rows, chunksDone, lastSave, ok);
        if died.Some? {
          return;
        }
        BelowTwice(rows, had, before, end, done);
        done := end;
        if maxChunks.Some? && chunksDone >= maxChunks.value {
          break;
        }
      }
      assert ok ==> Midway(done, st, rows, want[wi..]);
    }

    /** A run that got through the ids has written the whole plan. */
    lemma AllPlanned(st: St, rows: seq<nat>, todo: seq<nat>)
      requires Midway(|job.ids|, st, rows, todo)
      ensures rows == job.plan
    {
      LeftAscending(job.plan, rows);
      PrefixPasses(job.plan, rows);
      var rest := job.plan[|rows|..];
      if rest != [] { HasMember(rest); }
    }

    /** Where the next run starts. */
    function StartToken(): nat reads this`stateFile {
      if stateFile.Saved? then stateFile.tokens else 0
    }

    /** The first chunk of the next run has a planned row that is not written. */
    ghost predicate RowsAhead() reads this {
      && job.chunk >= 1 && StartToken() < |job.ids|
      && exists r :: r in job.plan && r !in DoneRows() && r < ChunkEnd(job, StartToken())
    }

    /** A finished run of one chunk: the state stands behind the chunk, and no row behind it was written. */
    ghost predicate OneChunkFurther(start: nat, before: seq<nat>)
      requires job.chunk >= 1 && start < |job.ids| && stateFile.Saved?
      reads this
    {
      stateFile.tokens == ChunkEnd(job, start) && OnlyBelow(DoneRows(), before, stateFile.tokens)
    }

    lemma FirstRowAhead(want: seq<nat>)
      requires Ascending(job.plan) && RowsAhead() && want == Left(job.plan, DoneRows())
      ensures want != [] && want[0] < ChunkEnd(job, StartToken())
    {
      LeftAscending(job.plan, DoneRows());
      var r :| r in job.plan && r !in DoneRows() && r < ChunkEnd(job, StartToken());
      FirstIsLeast(want, r);
    }

    /** What is left of the plan, and where the run starts. */
    method Begin() returns (want: seq<nat>, wi: nat, start: nat, initial: St, saved: nat)
      requires WellFormed(job) && Admit() == None
      ensures Ascending(want) && wi <= |want| && forall x | wi <= x < |want| :: want[x] >= start
      ensures start == StartToken() <= |job.ids|
      ensures Valid() ==> wi == 0 && Midway(start, initial, DoneRows(), want[wi..])
      ensures Valid() && RowsAhead() && power == FailsAt(0, None) ==> DiesAtFirst(power, want, wi, start)
    {
      want := Left(job.plan, DoneRows());
      LeftAscending(job.plan, DoneRows());
      start, initial, saved := 0, job.ref.empty, 0;
      if stateFile.Saved? {
        start, initial, saved := stateFile.tokens, stateFile.state, stateFile.chunks;
      }
      wi := CountBelow(want, start);
      if Valid() { NoneSkipped(DoneRows(), start, want, wi); }
      if RowsAhead() { FirstRowAhead(want); }
    }

    /** cmd_run after its checks. */
    method Resume(maxChunks: Option<nat>) returns (outcome: Outcome)
      requires WellFormed(job) && Admit() == None
      modifies this`power, this`dump, this`rowsFile, this`stateFile
      ensures outcome.Refused? ==> outcome.why == RowsLost
      ensures old(Valid()) ==> Valid() && outcome != Refused(RowsLost)
      ensures outcome != Killed(true) ==> !rowsFile.TornRows? && Surplus() == old(Surplus())
      ensures old(Valid()) && outcome == Finished && maxChunks == None ==>
                DoneRows() == job.plan && stateFile.Saved? && stateFile.tokens == |job.ids|
      ensures outcome == Finished && maxChunks == Some(1) && old(StartToken()) < |job.ids| ==>
                stateFile.Saved? && OneChunkFurther(old(StartToken()), old(DoneRows()))
      ensures old(power) == Steady && old(Valid()) ==> outcome == Finished
      ensures old(power) == FailsAt(0, None) && old(Valid()) && old(RowsAhead()) ==>
                outcome == Killed(true) && rowsFile == old(rowsFile) && stateFile == old(stateFile) &&
                Surplus() > old(Surplus())
    {
      ghost var ok, before := Valid(), DoneRows();
      var want, wi, start, initial, saved := Begin();
      var skipped := want[..wi];
      var done, st, rows, lastSave, died := RunChunks(want, wi, start, initial, saved, maxChunks, ok);
      if died.Some? {
        return Killed(died.value);
      }
      if exists r :: r in skipped && r !in rows {
        return Refused(RowsLost);
      }
      assert OnlyBelow(rows, before, done);
      outcome := Finish(done, st, rows, lastSave, ok);
    }

    /** The last checkpoint. */
    method Finish(done: nat, st: St, rows: seq<nat>, lastSave: nat, ghost ok: bool) returns (outcome: Outcome)
      requires !rowsFile.TornRows? && DoneRows() == rows && (ok ==> exists todo :: Midway(done, st, rows, todo))
      modifies this`power, this`stateFile
      ensures outcome == Finished || outcome == Killed(false)
      ensures ok ==> Valid() && (done == |job.ids| ==> rows == job.plan)
      ensures DoneRows() == rows
      ensures outcome == Finished ==> stateFile == Saved(done, st, lastSave + 1)
      ensures old(power) == Steady ==> outcome == Finished
    {
      ghost var todo: seq<nat> := [];
      if ok {
        todo :| Midway(done, st, rows, todo);
        if done == |job.ids| { AllPlanned(st, rows, todo); }
      }
      var alive := Checkpoint(done, st, lastSave + 1, ok, rows, todo);
      outcome := if alive then Finished else Killed(false);
    }

    /** cmd_run over whatever files are there. On files of earlier runs it refuses or finishes the plan,
        and the finished dump is the uninterrupted run's exactly when no logits were in surplus before. */
    method CmdRun(maxChunks: Option<nat>) returns (outcome: Outcome)
      requires WellFormed(job)
      modifies this`power, this`dump, this`rowsFile, this`stateFile
      ensures old(Admit()).Some? ==>
                && outcome == Refused(old(Admit()).value)
                && dump == old(dump) && rowsFile == old(rowsFile) && stateFile == old(stateFile)
      ensures old(Admit()) == None && outcome.Refused? ==> outcome.why == RowsLost
      ensures old(Valid()) ==> Valid() && outcome != Refused(RowsLost)
      ensures outcome != Killed(true) ==> Surplus() == old(Surplus())
      ensures old(Valid()) && outcome == Finished && maxChunks == None ==>
                !rowsFile.TornRows? && DoneRows() == job.plan && stateFile.Saved? && stateFile.tokens == |job.ids|
      ensures old(Valid()) && outcome == Finished ==>
                !rowsFile.TornRows? && (InSync() <==> old(Surplus()) == 0)
      ensures outcome == Finished && maxChunks == Some(1) && old(StartToken()) < |job.ids| ==>
                stateFile.Saved? && OneChunkFurther(old(StartToken()), old(DoneRows()))
      ensures old(power) == Steady && old(Admit()) == None && old(Valid()) ==> outcome == Finished
      ensures old(power) == FailsAt(0, None) && old(Admit()) == None && old(Valid()) && old(RowsAhead()) ==>
                outcome == Killed(true) && rowsFile == old(rowsFile) && stateFile == old(stateFile) &&
                Surplus() > old(Surplus())
    {
      var refusal := Admit();
      if refusal.Some? {
        return Refused(refusal.value);
      }
      outcome := Resume(maxChunks);
    }

    /** A run killed between the two writes of on_rows: over a checkpoint the next run finishes the plan with a
        dump that is wrong; without one it refuses. */
    method KillBetweenWrites() returns (first: Outcome, second: Outcome)
      requires Valid() && PlanFits() && Admit() == None && RowsAhead() && power == FailsAt(0, None)
      modifies this
      ensures first == Killed(true)
      ensures old(stateFile.Saved?) ==>
                second == Finished && !rowsFile.TornRows? && DoneRows() == job.plan && !InSync()
      ensures !old(stateFile.Saved?) ==> second == Refused(DumpWithoutState)
    {
      AdmitsUnlessTorn();
      first := CmdRun(None);
      power := Steady;
      AdmitsUnlessTorn();
      second := CmdRun(None);
    }
  }

  /** From no files at all: one chunk, a run killed between the two writes, and a run that finishes. */
  method ThreeRuns<Id, St, L>(job: Job<Id, St, L>) returns (out: Output<Id, St, L>, outcomes: seq<Outcome>)
    requires WellFormed(job) && job.chunk < |job.ids| && forall r | r in job.plan :: r + 2 <= |job.ids|
    requires exists r :: r in job.plan && job.chunk <= r < ChunkEnd(job, job.chunk)
    ensures outcomes == [Finished, Killed(true), Finished]
    ensures fresh(out) && out.job == job && !out.rowsFile.TornRows? && out.DoneRows() == job.plan && !out.InSync()
  {
    out := new Output(job, Steady);
    assert Uninterrupted(job, []) == [];
    assert out.Valid();
    out.AdmitsUnlessTorn();
    var first := out.CmdRun(Some(1));
    assert out.RowsAhead();
    out.AdmitsUnlessTorn();
    out.power := FailsAt(0, None);
    var second, third := out.KillBetweenWrites();
    outcomes := [first, second, third];
  }
}
