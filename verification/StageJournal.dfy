/** The supervisor's incremental journal check: class `Journal` of tools/glm-stage.py. */
module StageJournal {
  import opened Common

  const BLOB_START: nat := 12

  datatype Rec = Rec(index: nat, pad: nat, sha: Bytes, name: string, off: nat, len: nat)

  /** Text parsing and the digest stay abstract: the check is the same for every choice of them. */
  datatype Codec = Codec(isHead: Bytes -> bool, parse: Bytes -> Option<Rec>, hash: Bytes -> Bytes)

  /** What the check remembers between refreshes. */
  datatype Prefix = Prefix(head: bool, pos: nat, last: Bytes, blobEnd: nat, n: nat, names: set<string>)

  const EMPTY := Prefix(false, 0, [], 0, 0, {})

  datatype Scanned = BadHead | Upto(prefix: Prefix)

  function Zeros(n: nat): Bytes {
    seq(n, _ => 0)
  }

  /** The record extends a prefix of `n` records that ends at `blobEnd`. */
  predicate Fits(k: Codec, n: nat, blobEnd: nat, rec: Rec, container: Option<Bytes>) {
    && container.Some?
    && rec.index == n
    && rec.off == blobEnd + rec.pad
    && ReadAt(container.value, BLOB_START + blobEnd, rec.pad) == Zeros(rec.pad)
    && (var blob := ReadAt(container.value, BLOB_START + rec.off, rec.len);
        |blob| == rec.len && k.hash(blob) == rec.sha)
  }

  /** One line of the loop: the state behind it, or none when the line is not taken. */
  type Step = (Prefix, Bytes) -> Option<Prefix>

  function StepWith(k: Codec, container: Option<Bytes>): Step {
    (st: Prefix, line: Bytes) => Take(k, st, line, container)
  }

  function Take(k: Codec, st: Prefix, line: Bytes, container: Option<Bytes>): Option<Prefix> {
    var moved := st.(pos := st.pos + |line|, last := line);
    if !st.head then
      if k.isHead(line) then Some(moved.(head := true)) else None
    else
      match k.parse(line)
      case None => None
      case Some(rec) =>
        if Fits(k, st.n, st.blobEnd, rec, container)
        then Some(moved.(n := st.n + 1, blobEnd := rec.off + rec.len, names := st.names + {rec.name}))
        else None
  }

  function Scan(step: Step, st: Prefix, data: Bytes): Scanned
    decreases |data|
  {
    var m := LineLength(data);
    if m == 0 then Upto(st)
    else
      match step(st, data[..m])
      case Some(next) => Scan(step, next, data[m..])
      case None => if st.head then Upto(st) else BadHead
  }

  lemma ScanStep(step: Step, st: Prefix, d: Bytes, m: nat, next: Prefix)
    requires m == LineLength(d) > 0 && step(st, d[..m]) == Some(next)
    ensures Scan(step, st, d) == Scan(step, next, d[m..])
  {
  }

  lemma ScanStops(step: Step, st: Prefix, d: Bytes)
    requires LineLength(d) == 0 || step(st, d[..LineLength(d)]).None?
    ensures Scan(step, st, d) == if LineLength(d) == 0 || st.head then Upto(st) else BadHead
  {
  }

  /** What a new check object computes from the two files. */
  function Fresh(k: Codec, journal: Bytes, container: Option<Bytes>): Scanned {
    Scan(StepWith(k, container), EMPTY, journal)
  }

  /** The journal no longer starts with what was verified: it shrank, or the last verified line changed. */
  predicate Rewritten(st: Prefix, journal: Bytes)
    requires |st.last| <= st.pos
  {
    st.pos > 0 && (|journal| < st.pos || journal[st.pos - |st.last|..st.pos] != st.last)
  }

  function Refreshed(k: Codec, st: Prefix, journal: Bytes, container: Option<Bytes>): Scanned
    requires |st.last| <= st.pos
  {
    if Rewritten(st, journal) then Fresh(k, journal, container)
    else Scan(StepWith(k, container), st, journal[st.pos..])
  }

  lemma DropDrop(d: Bytes, m: nat, x: nat)
    requires m + x <= |d|
    ensures d[m..][x..] == d[m + x..]
  {
  }

  datatype Outcome = NoJournal | HeadRefused | Names(names: set<string>)

  datatype Stop = AtEnd | AtRecord | AtHead

  class Journal {
    const k: Codec
    var head: bool
    var pos: nat
    var lastLine: Bytes
    var blobEnd: nat
    var n: nat
    var names: set<string>
    var stuck: Option<nat>

    function State(): Prefix
      reads this
    {
      Prefix(head, pos, lastLine, blobEnd, n, names)
    }

    ghost predicate Valid()
      reads this
    {
      BehindLines() && (stuck.Some? ==> stuck.value == n && head)
    }

    /** Before the head line nothing is remembered. */
    ghost predicate BehindLines()
      reads this
    {
      |lastLine| <= pos && (head <==> pos > 0) && (pos == 0 ==> State() == EMPTY)
    }

    constructor (k: Codec)
      ensures Valid() && State() == EMPTY && stuck == None && this.k == k
    {
      this.k := k;
      head, pos, lastLine, blobEnd, n, names, stuck := false, 0, [], 0, 0, {}, None;
    }

    method Reset()
      modifies this
      ensures Valid() && State() == EMPTY && stuck == None
    {
      head, pos, lastLine, blobEnd, n, names, stuck := false, 0, [], 0, 0, {}, None;
    }

    /** Takes the record if it extends the verified prefix. */
    method Check(rec: Rec, container: Option<Bytes>) returns (ok: bool)
      modifies `n, `blobEnd, `names
      ensures ok == Fits(k, old(n), old(blobEnd), rec, container)
      ensures ok ==> n == old(n) + 1 && blobEnd == rec.off + rec.len && names == old(names) + {rec.name}
      ensures !ok ==> n == old(n) && blobEnd == old(blobEnd) && names == old(names)
    {
      if container.None? || rec.index != n || rec.off != blobEnd + rec.pad {
        return false;
      }
      if ReadAt(container.value, BLOB_START + blobEnd, rec.pad) != Zeros(rec.pad) {
        return false;
      }
      var blob := ReadAt(container.value, BLOB_START + rec.off, rec.len);
      if |blob| != rec.len || k.hash(blob) != rec.sha {
        return false;
      }
      n := n + 1;
      blobEnd := rec.off + rec.len;
      names := names + {rec.name};
      ok := true;
    }

    /** One line of the loop: head line or record; false when the line is not taken. */
    method TakeLine(line: Bytes, container: Option<Bytes>) returns (ok: bool)
      modifies `head, `pos, `lastLine, `n, `blobEnd, `names
      ensures ok == old(Take(k, State(), line, container)).Some?
      ensures ok ==> State() == old(Take(k, State(), line, container)).value
      ensures ok ==> head && pos == old(pos) + |line| && lastLine == line && old(n) <= n
      ensures !ok ==> State() == old(State())
    {
      if !head {
        if !k.isHead(line) {
          return false;
        }
        head := true;
      } else {
        var rec := k.parse(line);
        if rec.None? {
          return false;
        }
        var fits := Check(rec.value, container);
        if !fits {
          return false;
        }
      }
      pos := pos + |line|;
      lastLine := line;
      ok := true;
    }

    /** One round of the loop: one line is taken, or the reason to stop. */
    method NextLine(file: Bytes, container: Option<Bytes>) returns (stop: Option<Stop>)
      requires BehindLines() && pos <= |file|
      modifies `head, `pos, `lastLine, `n, `blobEnd, `names
      ensures BehindLines() && pos <= |file| && old(n) <= n && (old(head) ==> head)
      ensures stop.None? ==> old(pos) < pos
      ensures stop.None? ==>
                Scan(StepWith(k, container), State(), file[pos..]) ==
                  old(Scan(StepWith(k, container), State(), file[pos..]))
      ensures stop.Some? ==> State() == old(State())
      ensures stop.Some? ==>
                stop.value == if LineLength(file[pos..]) == 0 then AtEnd else if head then AtRecord else AtHead
      ensures stop.Some? ==>
                old(Scan(StepWith(k, container), State(), file[pos..])) ==
                  if stop.value == AtHead then BadHead else Upto(State())
    {
      var rest := file[pos..];
      var m := LineLength(rest);
      ghost var before := State();
      if m == 0 {
        ScanStops(StepWith(k, container), before, rest);
        return Some(AtEnd);
      }
      var isRecord := head;
      var ok := TakeLine(rest[..m], container);
      if !ok {
        ScanStops(StepWith(k, container), before, rest);
        return Some(if isRecord then AtRecord else AtHead);
      }
      ScanStep(StepWith(k, container), before, rest, m, State());
      assert rest[m..] == file[pos..];
      stop := None;
    }

    /** The loop: takes lines from `pos` on until one is not taken or none is complete. */
    method Extend(file: Bytes, container: Option<Bytes>) returns (stop: Stop)
      requires BehindLines() && pos <= |file|
      modifies `head, `pos, `lastLine, `n, `blobEnd, `names
      ensures BehindLines() && old(n) <= n && pos <= |file| && (stop == AtRecord ==> head) && (old(head) ==> head)
      ensures match old(Scan(StepWith(k, container), State(), file[pos..]))
              case BadHead => stop == AtHead && State() == EMPTY
              case Upto(p) => State() == p && stop == (if LineLength(file[pos..]) > 0 then AtRecord else AtEnd)
    {
      ghost var target := Scan(StepWith(k, container), State(), file[pos..]);
      while true
        invariant BehindLines() && pos <= |file| && old(n) <= n && (old(head) ==> head)
        invariant Scan(StepWith(k, container), State(), file[pos..]) == target
        decreases |file| - pos
      {
        var reason := NextLine(file, container);
        if reason.Some? {
          return reason.value;
        }
      }
    }

    /** Starts over when the journal is no longer the one the prefix was read from. */
    method Rewind(file: Bytes, ghost container: Option<Bytes>)
      requires Valid()
      modifies this
      ensures Valid() && pos <= |file|
      ensures Scan(StepWith(k, container), State(), file[pos..]) == old(Refreshed(k, State(), file, container))
      ensures (State() == old(State()) && stuck == old(stuck)) || (State() == EMPTY && stuck == None)
    {
      assert file[0..] == file;
      if pos > 0 {
        if |file| < pos || file[pos - |lastLine|..pos] != lastLine {
          Reset();
        }
      }
    }

    method Refresh(journal: Option<Bytes>, container: Option<Bytes>) returns (r: Outcome)
      requires Valid()
      modifies this
      ensures Valid()
      ensures journal.None? <==> r == NoJournal
      ensures journal.None? ==> State() == old(State()) && stuck == old(stuck)
      ensures journal.Some? ==>
                match old(Refreshed(k, State(), journal.value, container))
                case BadHead => r == HeadRefused
                case Upto(p) => r == Names(p.names) && State() == p
      ensures r == HeadRefused ==> State() == EMPTY && stuck == None
      ensures r.Names? ==> pos <= |journal.value|
      ensures r.Names? && LineLength(journal.value[pos..]) > 0 ==> stuck == Some(n)
      ensures r.Names? && LineLength(journal.value[pos..]) == 0 ==>
                stuck == None || (stuck == old(stuck) && n == old(n))
    {
      if journal.None? {
        return NoJournal;
      }
      var file := journal.value;
      Rewind(file, container);
      var stop := Extend(file, container);
      if stop == AtHead {
        return HeadRefused;
      }
      if stop == AtRecord {
        stuck := Some(n);
      }
      if stuck.Some? && stuck.value != n {
        stuck := None;
      }
      r := Names(names);
    }
  }

  // ----- Incremental but exact, while the files grow and over converter resumes

  /** A container that only grows: absent or a prefix of what comes later. */
  ghost predicate Grows(older: Option<Bytes>, newer: Option<Bytes>) {
    older.Some? ==> newer.Some? && older.value <= newer.value
  }

  /** The two files at one moment. */
  datatype Snapshot = Snapshot(journal: Bytes, container: Option<Bytes>)

  /** The container still holds what it held below `end`. */
  ghost predicate SameBelow(older: Option<Bytes>, newer: Option<Bytes>, end: nat) {
    older.Some? && newer.Some? && older.value[..if end <= |older.value| then end else |older.value|] <= newer.value
  }

  /** `b` still holds what a check of `a` verified. */
  ghost predicate HoldsVerified(a: Snapshot, b: Snapshot, p: Prefix) {
    && p.pos <= |a.journal| && p.pos <= |b.journal| && b.journal[..p.pos] == a.journal[..p.pos]
    && (p.n > 0 ==> SameBelow(a.container, b.container, BLOB_START + p.blobEnd))
  }

  ghost predicate Keeps(k: Codec, a: Snapshot, b: Snapshot) {
    Fresh(k, a.journal, a.container).Upto? ==> HoldsVerified(a, b, Fresh(k, a.journal, a.container).prefix)
  }

  ghost predicate Grown(a: Snapshot, b: Snapshot) {
    a.journal <= b.journal && Grows(a.container, b.container)
  }

  /** A converter resume: the records that re-hash stay, the container is cut behind the last of them. */
  ghost predicate Resumed(k: Codec, a: Snapshot, b: Snapshot) {
    && Fresh(k, a.journal, a.container).Upto?
    && var p := Fresh(k, a.journal, a.container).prefix;
       && p.pos <= |a.journal| && b.journal == a.journal[..p.pos]
       && (p.n > 0 ==> SameBelow(a.container, b.container, BLOB_START + p.blobEnd))
  }

  /** What every step does: position, count and end move on, names are only added. */
  ghost predicate MovesAt(step: Step, st: Prefix, line: Bytes) {
    step(st, line).Some? ==>
      var next := step(st, line).value;
      && next.pos == st.pos + |line| && next.last == line && next.head && st.names <= next.names
      && st.n <= next.n && st.blobEnd <= next.blobEnd && (st.head ==> next.n == st.n + 1)
  }

  ghost predicate Moves(step: Step) {
    forall st, line :: MovesAt(step, st, line)
  }

  lemma StepsMove(k: Codec, c: Option<Bytes>)
    ensures Moves(StepWith(k, c))
  {
  }

  lemma ReadKept(f: Bytes, g: Bytes, end: nat, at: nat, len: nat)
    requires SameBelow(Some(f), Some(g), end) && |ReadAt(f, at, len)| == len && at + len <= end
    ensures ReadAt(g, at, len) == ReadAt(f, at, len)
  {
  }

  /** A record that ends below the kept end fits in both containers or in neither. */
  lemma FitsKept(k: Codec, n: nat, blobEnd: nat, rec: Rec, c0: Option<Bytes>, c1: Option<Bytes>, end: nat)
    requires Fits(k, n, blobEnd, rec, c0) && SameBelow(c0, c1, end) && BLOB_START + rec.off + rec.len <= end
    ensures Fits(k, n, blobEnd, rec, c1)
  {
    ReadKept(c0.value, c1.value, end, BLOB_START + blobEnd, rec.pad);
    ReadKept(c0.value, c1.value, end, BLOB_START + rec.off, rec.len);
  }

  /** `p` is a state a scan from `st` over `d` can stop in: it carries the line it stands behind. */
  ghost predicate Stands(st: Prefix, p: Prefix, d: Bytes) {
    && st.pos <= p.pos <= st.pos + |d| && st.n <= p.n && st.blobEnd <= p.blobEnd && st.names <= p.names
    && (p == st ||
        (&& p.head && |p.last| <= p.pos - st.pos
         && p.last == d[p.pos - st.pos - |p.last|..p.pos - st.pos]))
  }

  lemma {:induction false} ScanStands(step: Step, st: Prefix, d: Bytes)
    requires Moves(step) && Scan(step, st, d).Upto?
    ensures Stands(st, Scan(step, st, d).prefix, d)
    decreases |d|
  {
    var m := LineLength(d);
    if m > 0 && step(st, d[..m]).Some? {
      assert MovesAt(step, st, d[..m]);
      var next := step(st, d[..m]).value;
      ScanStands(step, next, d[m..]);
      StandsLater(st, next, Scan(step, st, d).prefix, d, m);
    }
  }

  lemma StandsLater(st: Prefix, next: Prefix, p: Prefix, d: Bytes, m: nat)
    requires m <= |d| && next.pos == st.pos + m && next.last == d[..m] && next.head && Stands(next, p, d[m..])
    requires st.n <= next.n && st.blobEnd <= next.blobEnd && st.names <= next.names
    ensures Stands(st, p, d)
  {
    var x := p.pos - next.pos;
    if p != next {
      assert d[m..][x - |p.last|..x] == d[m + x - |p.last|..m + x];
    } else {
      assert d[0..m] == d[..m];
    }
  }

  /** A line that lies in the kept part is a line of the newer journal. */
  lemma SameFirstLine(d0: Bytes, d1: Bytes, keep: nat)
    requires 0 < LineLength(d0) <= keep <= |d0| && keep <= |d1| && d0[..keep] == d1[..keep]
    ensures var m := LineLength(d0); LineLength(d1) == m && d1[..m] == d0[..m]
    ensures var m := LineLength(d0); d0[m..][..keep - m] == d1[m..][..keep - m]
  {
    var m := LineLength(d0);
    LineLengthPrefix(d0, keep);
    LineLengthGrows(d0[..keep], d1);
    assert d1[..m] == d1[..keep][..m] == d0[..keep][..m] == d0[..m];
    assert d0[m..][..keep - m] == d0[..keep][m..] && d1[m..][..keep - m] == d1[..keep][m..];
  }

  lemma LineLengthPrefix(d: Bytes, keep: nat)
    requires 0 < LineLength(d) <= keep <= |d|
    ensures LineLength(d[..keep]) == LineLength(d)
  {
    LineLengthIs(d[..keep], LineLength(d));
  }

  /** `newer` takes every line that `older` takes on the way to `p`, the same way. */
  ghost predicate KeepsAt(older: Step, newer: Step, p: Prefix, st: Prefix, line: Bytes) {
    older(st, line).Some? && older(st, line).value.n <= p.n && older(st, line).value.blobEnd <= p.blobEnd ==>
      newer(st, line) == older(st, line)
  }

  ghost predicate KeepsUpTo(older: Step, newer: Step, p: Prefix) {
    forall st, line :: KeepsAt(older, newer, p, st, line)
  }

  lemma StepsKept(k: Codec, c0: Option<Bytes>, c1: Option<Bytes>, p: Prefix)
    requires p.n > 0 ==> SameBelow(c0, c1, BLOB_START + p.blobEnd)
    ensures KeepsUpTo(StepWith(k, c0), StepWith(k, c1), p)
  {
    forall st: Prefix, line ensures KeepsAt(StepWith(k, c0), StepWith(k, c1), p, st, line) {
      if Take(k, st, line, c0).Some? {
        var next := Take(k, st, line, c0).value;
        if st.head && next.n <= p.n && next.blobEnd <= p.blobEnd {
          FitsKept(k, st.n, st.blobEnd, k.parse(line).value, c0, c1, BLOB_START + p.blobEnd);
        }
      }
    }
  }

  /** The first line of a scan, and that the scan stops behind it. */
  lemma FirstStep(step: Step, st: Prefix, d: Bytes, p: Prefix) returns (m: nat, next: Prefix)
    requires Moves(step) && Scan(step, st, d) == Upto(p)
    requires LineLength(d) > 0 && step(st, d[..LineLength(d)]).Some?
    ensures m == LineLength(d) && step(st, d[..m]) == Some(next) && Scan(step, next, d[m..]) == Upto(p)
    ensures next.pos == st.pos + m <= p.pos <= st.pos + |d| && next.head && (st.head ==> next.n == st.n + 1)
    ensures st.n <= next.n <= p.n && next.blobEnd <= p.blobEnd
  {
    m := LineLength(d);
    next := step(st, d[..m]).value;
    assert MovesAt(step, st, d[..m]);
    ScanStands(step, next, d[m..]);
  }

  /** A scan of files that keep what the older scan verified passes through the state it stopped in. */
  lemma {:induction false} ScanResumes(older: Step, newer: Step, st: Prefix, d0: Bytes, d1: Bytes, p: Prefix)
      returns (rest: Bytes)
    requires Moves(older) && KeepsUpTo(older, newer, p) && Scan(older, st, d0) == Upto(p)
    requires st.pos <= p.pos && p.pos - st.pos <= |d0| && p.pos - st.pos <= |d1|
    requires d0[..p.pos - st.pos] == d1[..p.pos - st.pos]
    ensures rest == d1[p.pos - st.pos..] && Scan(newer, st, d1) == Scan(newer, p, rest)
    decreases |d0|
  {
    if LineLength(d0) > 0 && older(st, d0[..LineLength(d0)]).Some? {
      var m, next := FirstStep(older, st, d0, p);
      SameFirstLine(d0, d1, p.pos - st.pos);
      assert KeepsAt(older, newer, p, st, d0[..m]);
      rest := ScanResumes(older, newer, next, d0[m..], d1[m..], p);
      DropDrop(d1, m, p.pos - next.pos);
    } else {
      rest := d1;
    }
  }

  lemma StandsUnchanged(p: Prefix, j0: Bytes, j1: Bytes)
    requires Stands(EMPTY, p, j0) && p.pos <= |j1| && j1[..p.pos] == j0[..p.pos]
    ensures |p.last| <= p.pos && !Rewritten(p, j1)
  {
    if p != EMPTY {
      assert p.last == j0[..p.pos][p.pos - |p.last|..] == j1[p.pos - |p.last|..p.pos];
    }
  }

  /** One refresh over files that keep what was verified computes what a new object computes, and never
      loses a name. */
  lemma RefreshIsFresh(k: Codec, a: Snapshot, b: Snapshot)
    requires Fresh(k, a.journal, a.container).Upto? && Keeps(k, a, b)
    ensures var p := Fresh(k, a.journal, a.container).prefix;
            && Stands(EMPTY, p, a.journal) && |p.last| <= p.pos && !Rewritten(p, b.journal)
            && Refreshed(k, p, b.journal, b.container) == Fresh(k, b.journal, b.container)
            && (Fresh(k, b.journal, b.container).Upto? ==>
                  Stands(p, Fresh(k, b.journal, b.container).prefix, b.journal[p.pos..]))
            && (p.head ==> Fresh(k, b.journal, b.container).Upto?)
  {
    StepsMove(k, a.container);
    StepsMove(k, b.container);
    ScanStands(StepWith(k, a.container), EMPTY, a.journal);
    var p := Fresh(k, a.journal, a.container).prefix;
    StepsKept(k, a.container, b.container, p);
    var rest := ScanResumes(StepWith(k, a.container), StepWith(k, b.container), EMPTY, a.journal, b.journal, p);
    StandsUnchanged(p, a.journal, b.journal);
    if Fresh(k, b.journal, b.container).Upto? { ScanStands(StepWith(k, b.container), p, b.journal[p.pos..]); }
    if p.head { HeadNeverBad(StepWith(k, b.container), p, b.journal[p.pos..]); }
  }

  /** Growth keeps what was verified, and so does a resume. */
  lemma ChangesKeep(k: Codec, a: Snapshot, b: Snapshot)
    requires Grown(a, b) || Resumed(k, a, b)
    ensures Keeps(k, a, b)
  {
    if Fresh(k, a.journal, a.container).Upto? {
      var p := Fresh(k, a.journal, a.container).prefix;
      StepsMove(k, a.container);
      ScanStands(StepWith(k, a.container), EMPTY, a.journal);
      if p.n > 0 { CountedNeedsContainer(k, a.container, EMPTY, a.journal); }
    }
  }

  lemma {:induction false} CountedNeedsContainer(k: Codec, c: Option<Bytes>, st: Prefix, d: Bytes)
    requires Scan(StepWith(k, c), st, d).Upto? && Scan(StepWith(k, c), st, d).prefix.n > st.n
    ensures c.Some?
    decreases |d|
  {
    var m := LineLength(d);
    var next := Take(k, st, d[..m], c).value;
    if next.n == st.n { CountedNeedsContainer(k, c, next, d[m..]); }
  }

  lemma KeepsTwice(k: Codec, a: Snapshot, b: Snapshot, c: Snapshot)
    requires Keeps(k, a, b) && Keeps(k, b, c)
    ensures Keeps(k, a, c)
  {
    if Fresh(k, a.journal, a.container).Upto? {
      var p := Fresh(k, a.journal, a.container).prefix;
      RefreshIsFresh(k, a, b);
      if Fresh(k, b.journal, b.container).Upto? {
        HoldsTwice(a, b, c, p, Fresh(k, b.journal, b.container).prefix);
      }
    }
  }

  lemma HoldsTwice(a: Snapshot, b: Snapshot, c: Snapshot, p: Prefix, q: Prefix)
    requires HoldsVerified(a, b, p) && HoldsVerified(b, c, q) && p.pos <= q.pos && p.n <= q.n && p.blobEnd <= q.blobEnd
    ensures HoldsVerified(a, c, p)
  {
    assert c.journal[..p.pos] == c.journal[..q.pos][..p.pos] == b.journal[..q.pos][..p.pos] == b.journal[..p.pos];
    if p.n > 0 {
      var end := BLOB_START + p.blobEnd;
      var f, g, h := a.container.value, b.container.value, c.container.value;
      var x := if end <= |f| then end else |f|;
      var y := if BLOB_START + q.blobEnd <= |g| then BLOB_START + q.blobEnd else |g|;
      assert f[..x] == g[..x] == g[..y][..x] == h[..y][..x] == h[..x];
    }
  }

  /** The files over time: every change is a growth or a converter resume. */
  ghost predicate History(k: Codec, files: seq<Snapshot>) {
    forall i | 0 < i < |files| :: Grown(files[i - 1], files[i]) || Resumed(k, files[i - 1], files[i])
  }

  lemma {:induction false} HistoryKeeps(k: Codec, files: seq<Snapshot>, i: nat, j: nat)
    requires History(k, files) && i <= j < |files|
    ensures Keeps(k, files[i], files[j])
    decreases j
  {
    if i < j {
      HistoryKeeps(k, files, i, j - 1);
      ChangesKeep(k, files[j - 1], files[j]);
      KeepsTwice(k, files[i], files[j - 1], files[j]);
    } else {
      assert Grown(files[i], files[i]);
      ChangesKeep(k, files[i], files[i]);
    }
  }

  /** The moments of the refreshes, in order. */
  predicate Moments(at: seq<nat>, n: nat) {
    (forall i | 0 <= i < |at| :: at[i] < n) && forall i, j | 0 <= i <= j < |at| :: at[i] <= at[j]
  }

  /** The state after the refreshes, each from the state the one before left; a refused head leaves nothing. */
  function AfterAll(k: Codec, files: seq<Snapshot>, at: seq<nat>): Scanned
    requires Moments(at, |files|)
  {
    if at == [] then Upto(EMPTY)
    else
      var now := files[at[|at| - 1]];
      match AfterAll(k, files, at[..|at| - 1])
      case BadHead => Fresh(k, now.journal, now.container)
      case Upto(p) => if |p.last| <= p.pos then Refreshed(k, p, now.journal, now.container) else BadHead
  }

  /** Any number of refreshes at any moments of any history equals one fresh check of the files at the last. */
  lemma {:induction false} IncrementalIsExact(k: Codec, files: seq<Snapshot>, at: seq<nat>)
    requires History(k, files) && at != [] && Moments(at, |files|)
    ensures var now := files[at[|at| - 1]]; AfterAll(k, files, at) == Fresh(k, now.journal, now.container)
  {
    var now := files[at[|at| - 1]];
    var before := at[..|at| - 1];
    if before == [] {
      assert now.journal[0..] == now.journal;
      assert AfterAll(k, files, before) == Upto(EMPTY);
    } else {
      IncrementalIsExact(k, files, before);
      var prev := files[before[|before| - 1]];
      HistoryKeeps(k, files, before[|before| - 1], at[|at| - 1]);
      if Fresh(k, prev.journal, prev.container).Upto? { RefreshIsFresh(k, prev, now); }
    }
  }

  /** One refresh more: the state behind it follows from the state before it and the files of that moment. */
  lemma AfterOneMore(k: Codec, files: seq<Snapshot>, at: seq<nat>, i: nat)
    requires Moments(at, |files|) && i < |at|
    ensures var now := files[at[i]];
            AfterAll(k, files, at[..i + 1]) ==
              match AfterAll(k, files, at[..i])
              case BadHead => Fresh(k, now.journal, now.container)
              case Upto(p) => if |p.last| <= p.pos then Refreshed(k, p, now.journal, now.container) else BadHead
  {
    assert at[..i + 1][..i] == at[..i];
  }

  /** From the start a refresh is a fresh check. */
  lemma RefreshedFromStart(k: Codec, journal: Bytes, container: Option<Bytes>)
    ensures Refreshed(k, EMPTY, journal, container) == Fresh(k, journal, container)
  {
    assert journal[0..] == journal;
  }

  /** One object over a whole history. */
  method Watch(k: Codec, files: seq<Snapshot>, at: seq<nat>) returns (r: Outcome)
    requires History(k, files) && at != [] && Moments(at, |files|)
    ensures var now := files[at[|at| - 1]];
            r == match Fresh(k, now.journal, now.container)
                 case BadHead => HeadRefused
                 case Upto(p) => Names(p.names)
  {
    var journal := new Journal(k);
    r := NoJournal;
    assert at[..0] == [];
    for i := 0 to |at|
      invariant journal.Valid() && journal.k == k && Moments(at[..i], |files|)
      invariant match AfterAll(k, files, at[..i])
                case BadHead => r == HeadRefused && journal.State() == EMPTY
                case Upto(p) => (i > 0 ==> r == Names(p.names)) && journal.State() == p
    {
      var now := files[at[i]];
      AfterOneMore(k, files, at, i);
      RefreshedFromStart(k, now.journal, now.container);
      r := journal.Refresh(Some(now.journal), now.container);
    }
    assert at[..|at|] == at;
    IncrementalIsExact(k, files, at);
  }

  lemma BadHeadStays(k: Codec, a: Snapshot, b: Snapshot)
    requires Grown(a, b) && Fresh(k, a.journal, a.container) == BadHead
    ensures Fresh(k, b.journal, b.container) == BadHead
  {
    var m := LineLength(a.journal);
    LineLengthGrows(a.journal, b.journal);
    assert a.journal[..m] == b.journal[..m];
    StepsMove(k, a.container);
    if k.isHead(a.journal[..m]) {
      HeadNeverBad(StepWith(k, a.container), Take(k, EMPTY, a.journal[..m], a.container).value, a.journal[m..]);
    }
  }

  lemma {:induction false} HeadNeverBad(step: Step, st: Prefix, data: Bytes)
    requires Moves(step) && st.head
    ensures Scan(step, st, data).Upto?
    decreases |data|
  {
    var m := LineLength(data);
    if m > 0 && step(st, data[..m]).Some? {
      assert MovesAt(step, st, data[..m]);
      HeadNeverBad(step, step(st, data[..m]).value, data[m..]);
    }
  }

  // ----- What the prefix is: the longest run of records that verify

  function EndOf(k: Codec, recs: seq<Bytes>, m: nat): nat
    requires m <= |recs|
  {
    if m == 0 || k.parse(recs[m - 1]).None? then 0
    else k.parse(recs[m - 1]).value.off + k.parse(recs[m - 1]).value.len
  }

  predicate RecordFits(k: Codec, recs: seq<Bytes>, i: nat, c: Option<Bytes>)
    requires i < |recs|
  {
    k.parse(recs[i]).Some? && Fits(k, i, EndOf(k, recs, i), k.parse(recs[i]).value, c)
  }

  /** The first `m` record lines verify: in sequence, contiguous, zero padded, with matching digests. */
  ghost predicate Verified(k: Codec, recs: seq<Bytes>, m: nat, c: Option<Bytes>) {
    m <= |recs| && forall i | 0 <= i < m :: RecordFits(k, recs, i, c)
  }

  function NamesOf(k: Codec, recs: seq<Bytes>): set<string> {
    set i | 0 <= i < |recs| && k.parse(recs[i]).Some? :: k.parse(recs[i]).value.name
  }

  ghost predicate Longest(k: Codec, recs: seq<Bytes>, p: Prefix, c: Option<Bytes>) {
    && Verified(k, recs, p.n, c) && !Verified(k, recs, p.n + 1, c)
    && p.blobEnd == EndOf(k, recs, p.n) && p.names == NamesOf(k, recs[..p.n])
  }

  /** `st` stands behind the first `m` records. */
  ghost predicate Behind(k: Codec, st: Prefix, recs: seq<Bytes>, m: nat, c: Option<Bytes>) {
    && st.head && st.n == m && Verified(k, recs, m, c)
    && st.blobEnd == EndOf(k, recs, m) && st.names == NamesOf(k, recs[..m])
  }

  lemma {:induction false} ScanTakesLongest(k: Codec, st: Prefix, data: Bytes, c: Option<Bytes>, recs: seq<Bytes>,
                                            m: nat)
    requires Behind(k, st, recs, m, c) && recs[m..] == Lines(data)
    ensures var r := Scan(StepWith(k, c), st, data); r.Upto? && Longest(k, recs, r.prefix, c)
    decreases |data|
  {
    var len := LineLength(data);
    if len > 0 {
      assert recs[m] == data[..len] && recs[m + 1..] == Lines(data[len..]);
      OneRecord(k, st, recs, m, c);
      if Take(k, st, recs[m], c).Some? {
        ScanTakesLongest(k, Take(k, st, recs[m], c).value, data[len..], c, recs, m + 1);
      }
    }
  }

  lemma OneRecord(k: Codec, st: Prefix, recs: seq<Bytes>, m: nat, c: Option<Bytes>)
    requires Behind(k, st, recs, m, c) && m < |recs|
    ensures Take(k, st, recs[m], c).Some? <==> RecordFits(k, recs, m, c)
    ensures Take(k, st, recs[m], c).Some? ==> Behind(k, Take(k, st, recs[m], c).value, recs, m + 1, c)
  {
    if Take(k, st, recs[m], c).Some? { NamesSnoc(k, recs, m); }
  }

  lemma NamesSnoc(k: Codec, recs: seq<Bytes>, m: nat)
    requires m < |recs| && k.parse(recs[m]).Some?
    ensures NamesOf(k, recs[..m + 1]) == NamesOf(k, recs[..m]) + {k.parse(recs[m]).value.name}
  {
    var a, b := recs[..m], recs[..m + 1];
    forall x | x in NamesOf(k, a) ensures x in NamesOf(k, b) {
      var i :| 0 <= i < |a| && k.parse(a[i]).Some? && k.parse(a[i]).value.name == x;
      assert b[i] == a[i];
    }
    assert b[m] == recs[m];
  }

  /** A fresh check of a journal with a good head line stops exactly where the records stop verifying. */
  lemma FreshIsLongestPrefix(k: Codec, journal: Bytes, c: Option<Bytes>)
    requires Lines(journal) != [] && k.isHead(Lines(journal)[0])
    ensures Fresh(k, journal, c).Upto?
    ensures var recs, p := Lines(journal)[1..], Fresh(k, journal, c).prefix;
            && Verified(k, recs, p.n, c)
            && (forall m | m > p.n :: !Verified(k, recs, m, c))
            && p.blobEnd == EndOf(k, recs, p.n) && p.names == NamesOf(k, recs[..p.n])
  {
    var len, recs := LineLength(journal), Lines(journal)[1..];
    var st := Take(k, EMPTY, journal[..len], c).value;
    assert NamesOf(k, recs[..0]) == {};
    assert recs[0..] == recs;
    ScanTakesLongest(k, st, journal[len..], c, recs, 0);
    var p := Fresh(k, journal, c).prefix;
    forall m | m > p.n ensures !Verified(k, recs, m, c) {
      VerifiedShorter(k, recs, p.n + 1, m, c);
    }
  }

  lemma VerifiedShorter(k: Codec, recs: seq<Bytes>, n: nat, m: nat, c: Option<Bytes>)
    requires n <= m
    ensures Verified(k, recs, m, c) ==> Verified(k, recs, n, c)
  {
  }

  // ----- What a resume leaves of the journal: the verified lines, still verified

  lemma LinesCons(d: Bytes, m: nat)
    requires m == LineLength(d) > 0
    ensures Lines(d) == [d[..m]] + Lines(d[m..])
  {
  }

  lemma FirstKeptLine(d: Bytes, m: nat, keep: nat)
    requires 0 < m == LineLength(d) <= keep <= |d|
    ensures Lines(d[..keep]) == [d[..m]] + Lines(d[m..][..keep - m])
  {
    var e := d[..keep];
    LineLengthPrefix(d, keep);
    LinesCons(e, m);
    assert e[..m] == d[..m] && e[m..] == d[m..][..keep - m];
  }

  /** The lines of the first `keep` bytes are the first n lines. */
  ghost predicate CutsLines(d: Bytes, keep: nat, n: nat) {
    keep <= |d| && n <= |Lines(d)| && Lines(d[..keep]) == Lines(d)[..n]
  }

  lemma CutsOneMore(d: Bytes, m: nat, keep: nat, n: nat)
    requires m == LineLength(d) > 0 && CutsLines(d[m..], keep, n)
    ensures CutsLines(d, m + keep, n + 1)
  {
    LinesCons(d, m);
    FirstKeptLine(d, m, m + keep);
    var rest := Lines(d[m..]);
    assert ([d[..m]] + rest)[..n + 1] == [d[..m]] + rest[..n];
  }

  lemma CutsNone(d: Bytes)
    ensures CutsLines(d, 0, 0)
  {
    assert d[..0] == [];
  }

  /** What a scan takes behind the head line, in bytes and in lines. */
  lemma {:induction false} KeptLines(step: Step, st: Prefix, d: Bytes, p: Prefix) returns (keep: nat, n: nat)
    requires Moves(step) && Scan(step, st, d) == Upto(p) && st.head
    ensures p.pos == st.pos + keep && p.n == st.n + n && CutsLines(d, keep, n)
    decreases |d|
  {
    if LineLength(d) > 0 && step(st, d[..LineLength(d)]).Some? {
      var m, next := FirstStep(step, st, d, p);
      keep, n := KeptLines(step, next, d[m..], p);
      CutsOneMore(d, m, keep, n);
      keep, n := m + keep, n + 1;
    } else {
      keep, n := 0, 0;
      CutsNone(d);
    }
  }

  lemma HeadStep(k: Codec, c: Option<Bytes>, d: Bytes) returns (m: nat, st: Prefix)
    requires Lines(d) != [] && k.isHead(Lines(d)[0])
    ensures m == LineLength(d) > 0 && st == Prefix(true, m, d[..m], 0, 0, {})
    ensures Fresh(k, d, c) == Scan(StepWith(k, c), st, d[m..])
  {
    m := LineLength(d);
    LinesCons(d, m);
    st := Take(k, EMPTY, d[..m], c).value;
    ScanStep(StepWith(k, c), EMPTY, d, m, st);
  }

  lemma KeptBehindHead(k: Codec, c: Option<Bytes>, st: Prefix, d: Bytes, m: nat, p: Prefix)
    requires m == LineLength(d) > 0 && st.head && st.pos == m && st.n == 0
    requires Scan(StepWith(k, c), st, d[m..]) == Upto(p)
    ensures CutsLines(d, p.pos, p.n + 1)
  {
    StepsMove(k, c);
    var keep, n := KeptLines(StepWith(k, c), st, d[m..], p);
    CutsOneMore(d, m, keep, n);
  }

  /** The head line and the records a fresh check took are the lines of the part it took. */
  lemma KeptJournalLines(k: Codec, now: Snapshot, p: Prefix)
    requires Lines(now.journal) != [] && k.isHead(Lines(now.journal)[0])
    requires Fresh(k, now.journal, now.container) == Upto(p)
    ensures CutsLines(now.journal, p.pos, p.n + 1)
  {
    var m, st := HeadStep(k, now.container, now.journal);
    KeptBehindHead(k, now.container, st, now.journal, m, p);
  }

  lemma {:induction false} EndsRise(k: Codec, recs: seq<Bytes>, i: nat, n: nat, c: Option<Bytes>)
    requires Verified(k, recs, n, c) && i <= n
    ensures EndOf(k, recs, i) <= EndOf(k, recs, n)
    decreases n
  {
    if i < n {
      assert RecordFits(k, recs, n - 1, c);
      EndsRise(k, recs, i, n - 1, c);
    }
  }

  /** A resume leaves exactly the head line and the verified records, and they verify in what it leaves. */
  lemma ResumeKeepsVerified(k: Codec, a: Snapshot, b: Snapshot)
    requires Resumed(k, a, b) && Lines(a.journal) != [] && k.isHead(Lines(a.journal)[0])
    ensures var p := Fresh(k, a.journal, a.container).prefix;
            && p.n + 1 <= |Lines(a.journal)| && Lines(b.journal) == Lines(a.journal)[..p.n + 1]
            && Verified(k, Lines(b.journal)[1..], p.n, b.container)
  {
    var p := Fresh(k, a.journal, a.container).prefix;
    KeptJournalLines(k, a, p);
    FreshIsLongestPrefix(k, a.journal, a.container);
    var recs, kept := Lines(a.journal)[1..], Lines(b.journal)[1..];
    assert kept == recs[..p.n];
    forall i | 0 <= i < p.n ensures RecordFits(k, kept, i, b.container) {
      StillFits(k, recs, i, p.n, a.container, b.container);
      assert EndOf(k, kept, i) == EndOf(k, recs, i);
    }
  }

  lemma StillFits(k: Codec, recs: seq<Bytes>, i: nat, n: nat, c0: Option<Bytes>, c1: Option<Bytes>)
    requires Verified(k, recs, n, c0) && i < n && SameBelow(c0, c1, BLOB_START + EndOf(k, recs, n))
    ensures RecordFits(k, recs, i, c1)
  {
    assert RecordFits(k, recs, i, c0);
    EndsRise(k, recs, i + 1, n, c0);
    FitsKept(k, i, EndOf(k, recs, i), k.parse(recs[i]).value, c0, c1, BLOB_START + EndOf(k, recs, n));
  }
}
