/** The stale-snapshot checker and the prefix cache it checks: tools/cache_stale_rollbacks.py. */
module StaleScan {
  import opened Common

  /** A log line the checker looks at. A decision line may also carry the words of a reset. */
  datatype Event =
    | Decision(warm: bool, heldLen: nat, point: nat, snapshots: seq<nat>, reusable: Option<seq<nat>>, reset: bool)
    | Reset
    | Snapshot(pos: nat)
    | Other

  datatype Kind = Chosen | Held
  datatype Violation = Violation(at: nat, kind: Kind, pos: nat)
  datatype Report = Report(decisions: nat, warm: nat, rollbacks: nat, violations: seq<Violation>)

  /** Logs from before `reusable` are read from `snapshots`. */
  function Listing(e: Event): seq<nat>
    requires e.Decision?
  {
    if e.reusable.Some? then e.reusable.value else e.snapshots
  }

  predicate IsWarm(e: Event) {
    e.Decision? && e.warm
  }

  /** The line lists q above its shared prefix. */
  predicate Bypasses(e: Event, q: nat) {
    IsWarm(e) && q in Listing(e) && q > e.heldLen
  }

  predicate CleanSlate(e: Event) {
    e.Reset? || (e.Decision? && (!e.warm || e.reset))
  }

  predicate Refreshes(e: Event, q: nat) {
    CleanSlate(e) || e == Snapshot(q)
  }

  ghost predicate Untouched(events: seq<Event>, from: nat, k: nat, q: nat)
    requires k <= |events|
  {
    forall j | from <= j < k :: !Refreshes(events[j], q)
  }

  /** Before line k: an earlier WARM line bypassed q, and nothing has made q fresh since. */
  ghost predicate Stale(events: seq<Event>, k: nat, q: nat)
    requires k <= |events|
  {
    exists i | 0 <= i < k :: Bypasses(events[i], q) && !events[i].reset && Untouched(events, i + 1, k, q)
  }

  /** What the documentation calls a violation. */
  ghost predicate IsViolation(events: seq<Event>, v: Violation) {
    v.at < |events| && IsWarm(events[v.at]) && Stale(events, v.at, v.pos) &&
    if v.kind == Chosen then events[v.at].point == v.pos else v.pos in Listing(events[v.at])
  }

  lemma StaleStep(events: seq<Event>, k: nat, q: nat)
    requires k < |events|
    ensures Stale(events, k + 1, q) <==>
            !CleanSlate(events[k]) && (Bypasses(events[k], q) || (Stale(events, k, q) && events[k] != Snapshot(q)))
  {
    var e := events[k];
    if Stale(events, k + 1, q) {
      var i :| 0 <= i < k + 1 && Bypasses(events[i], q) && !events[i].reset && Untouched(events, i + 1, k + 1, q);
      if i < k {
        assert !Refreshes(events[k], q);
        assert Untouched(events, i + 1, k, q);
      }
    }
    if !CleanSlate(e) && Bypasses(e, q) {
      assert Untouched(events, k + 1, k + 1, q);
    } else if !CleanSlate(e) && Stale(events, k, q) && e != Snapshot(q) {
      var i :| 0 <= i < k && Bypasses(events[i], q) && !events[i].reset && Untouched(events, i + 1, k, q);
      assert Untouched(events, i + 1, k + 1, q);
    }
  }

  // ----- the report's order

  predicate Before(v: Violation, w: Violation) {
    v.at < w.at || (v.at == w.at && ((v.kind == Chosen && w.kind == Held) || (v.kind == w.kind && v.pos < w.pos)))
  }

  ghost predicate InOrder(s: seq<Violation>) {
    forall i, j | 0 <= i < j < |s| :: Before(s[i], s[j])
  }

  method Least(s: set<nat>) returns (m: nat)
    requires s != {}
    ensures m in s && forall x | x in s :: m <= x
  {
    m :| m in s;
    var rest := s;
    while rest != {}
      invariant rest <= s && m in s
      invariant forall x | x in s && x !in rest :: m <= x
      decreases |rest|
    {
      var x :| x in rest;
      rest := rest - {x};
      if x < m { m := x; }
    }
  }

  ghost predicate ListsHeld(vs: seq<Violation>, at: nat, s: set<nat>) {
    forall v :: v in vs <==> v.at == at && v.kind == Held && v.pos in s
  }

  lemma ListsOneMore(vs: seq<Violation>, at: nat, s: set<nat>, q: nat)
    requires ListsHeld(vs, at, s) && InOrder(vs) && forall x | x in s :: x < q
    ensures ListsHeld(vs + [Violation(at, Held, q)], at, s + {q}) && InOrder(vs + [Violation(at, Held, q)])
  {
    var v := Violation(at, Held, q);
    forall i | 0 <= i < |vs| ensures Before(vs[i], v) { assert vs[i] in vs; }
  }

  /** The held violations of one line, lowest position first. */
  method HeldAt(at: nat, stale: set<nat>, held: seq<nat>) returns (vs: seq<Violation>)
    ensures InOrder(vs)
    ensures ListsHeld(vs, at, set q | q in held && q in stale)
  {
    var left := set q | q in held && q in stale;
    ghost var both, seen := left, {};
    vs := [];
    while left != {}
      invariant InOrder(vs) && ListsHeld(vs, at, seen)
      invariant left !! seen && left + seen == both
      invariant forall x, q | x in seen && q in left :: x < q
      decreases |left|
    {
      var q := Least(left);
      ListsOneMore(vs, at, seen, q);
      vs := vs + [Violation(at, Held, q)];
      left := left - {q};
      seen := seen + {q};
    }
    assert seen == both;
  }

  lemma {:induction false} InOrderAppend(a: seq<Violation>, b: seq<Violation>)
    requires InOrder(a) && InOrder(b)
    requires forall v, w | v in a && w in b :: Before(v, w)
    ensures InOrder(a + b)
  {
    var c := a + b;
    forall i, j | 0 <= i < j < |c| ensures Before(c[i], c[j]) {
      if i < |a| <= j { assert c[i] in a && c[j] in b; }
    }
  }

  // ----- scan

  function CountWarm(events: seq<Event>): nat {
    if events == [] then 0 else CountWarm(events[..|events| - 1]) + if IsWarm(events[|events| - 1]) then 1 else 0
  }

  function CountDecisions(events: seq<Event>): nat {
    if events == [] then 0 else CountDecisions(events[..|events| - 1]) + if events[|events| - 1].Decision? then 1 else 0
  }

  predicate RollsBack(e: Event) {
    IsWarm(e) && exists q :: q in Listing(e) && q > e.heldLen
  }

  function CountRollbacks(events: seq<Event>): nat {
    if events == [] then 0
    else CountRollbacks(events[..|events| - 1]) + if RollsBack(events[|events| - 1]) then 1 else 0
  }

  /** The violations of a WARM line, against what is stale before it. */
  method Judge(at: nat, e: Event, stale: set<nat>) returns (vs: seq<Violation>)
    requires IsWarm(e)
    ensures InOrder(vs)
    ensures forall v :: v in vs <==>
              v.at == at && v.pos in stale && if v.kind == Chosen then v.pos == e.point else v.pos in Listing(e)
  {
    var chosen := if e.point in stale then [Violation(at, Chosen, e.point)] else [];
    var held := HeldAt(at, stale, Listing(e));
    InOrderAppend(chosen, held);
    vs := chosen + held;
  }

  /** The stale set after a line. */
  function Next(stale: set<nat>, e: Event): set<nat> {
    if CleanSlate(e) then {}
    else match e
      case Decision(_, _, _, _, _, _) => stale + set q | q in Listing(e) && q > e.heldLen
      case Snapshot(q) => stale - {q}
      case _ => stale
  }

  ghost predicate Holds(events: seq<Event>, k: nat, stale: set<nat>)
    requires k <= |events|
  {
    forall q :: q in stale <==> Stale(events, k, q)
  }

  lemma NextHolds(events: seq<Event>, k: nat, stale: set<nat>)
    requires k < |events| && Holds(events, k, stale)
    ensures Holds(events, k + 1, Next(stale, events[k]))
  {
    forall q: nat ensures q in Next(stale, events[k]) <==> Stale(events, k + 1, q) {
      StaleStep(events, k, q);
    }
  }

  /** Exactly the violations, in log order, each once. */
  method Scan(events: seq<Event>) returns (r: Report)
    ensures forall v :: v in r.violations <==> IsViolation(events, v)
    ensures InOrder(r.violations)
    ensures r.decisions == CountDecisions(events) && r.warm == CountWarm(events) &&
              r.rollbacks == CountRollbacks(events)
  {
    var stale: set<nat> := {};
    r := Report(0, 0, 0, []);
    var k := 0;
    while k < |events|
      invariant k <= |events| && Holds(events, k, stale)
      invariant forall v :: v in r.violations <==> v.at < k && IsViolation(events, v)
      invariant InOrder(r.violations)
      invariant r.decisions == CountDecisions(events[..k]) && r.warm == CountWarm(events[..k])
      invariant r.rollbacks == CountRollbacks(events[..k])
    {
      var e := events[k];
      assert events[..k + 1][..k] == events[..k];
      NextHolds(events, k, stale);
      if e.Decision? {
        r := r.(decisions := r.decisions + 1);
        if e.warm {
          var vs := Judge(k, e, stale);
          InOrderAppend(r.violations, vs);
          r := r.(warm := r.warm + 1, violations := r.violations + vs);
          if exists q :: q in Listing(e) && q > e.heldLen {
            r := r.(rollbacks := r.rollbacks + 1);
          }
        }
      }
      stale := Next(stale, e);
      k := k + 1;
    }
    assert events[..k] == events;
  }

  // ----- the cache that forgets

  /** One line of a cache that lists what it holds and, on a rollback, forgets every slot above L.
      Slots may also be dropped at any time; after a clean slate anything may be held. */
  ghost predicate CacheStep(held: set<nat>, e: Event, after: set<nat>) {
    && (IsWarm(e) ==> (forall q | q in Listing(e) :: q in held) && e.point in held)
    && (CleanSlate(e) ||
        match e
        case Decision(_, _, _, _, _, _) => forall q | q in after :: q in held && q <= e.heldLen
        case Snapshot(p) => after <= held + {p}
        case _ => after <= held)
  }

  ghost predicate IsTrace(events: seq<Event>, held: seq<set<nat>>) {
    |held| == |events| + 1 && forall k | 0 <= k < |events| :: CacheStep(held[k], events[k], held[k + 1])
  }

  /** Stale and held slots stay disjoint. */
  lemma {:induction false} StaleIsNotHeld(events: seq<Event>, held: seq<set<nat>>, k: nat, q: nat)
    requires IsTrace(events, held) && k <= |events| && Stale(events, k, q)
    ensures q !in held[k]
  {
    if k > 0 {
      StaleStep(events, k - 1, q);
      assert CacheStep(held[k - 1], events[k - 1], held[k]);
      if Stale(events, k - 1, q) { StaleIsNotHeld(events, held, k - 1, q); }
    }
  }

  /** A cache that forgets gives a log without violations. */
  lemma ForgettingIsClean(events: seq<Event>, held: seq<set<nat>>, v: Violation)
    requires IsTrace(events, held)
    ensures !IsViolation(events, v)
  {
    if v.at < |events| && Stale(events, v.at, v.pos) {
      StaleIsNotHeld(events, held, v.at, v.pos);
      assert CacheStep(held[v.at], events[v.at], held[v.at + 1]);
    }
  }

  /** A cache that keeps a bypassed slot is caught at the next WARM line that lists it. */
  lemma KeepingIsCaught(events: seq<Event>, i: nat, k: nat, q: nat)
    requires i < k < |events| && IsWarm(events[i]) && IsWarm(events[k]) && !events[i].reset
    requires q in Listing(events[i]) && q > events[i].heldLen && q in Listing(events[k])
    requires Untouched(events, i + 1, k, q)
    ensures IsViolation(events, Violation(k, Held, q))
    ensures forall held :: !IsTrace(events, held)
  {
    assert Bypasses(events[i], q);
    assert Stale(events, k, q);
    forall held | IsTrace(events, held) ensures false {
      ForgettingIsClean(events, held, Violation(k, Held, q));
    }
  }
}
