/** What the two processes of tools/glm_mul1_quantize.py can still do from a reachable state: which captured layers
    a continuation marks, and when one captures another layer. */
module Mul1Progress {
  import opened Mul1Pipeline

  function Last(run: seq<Sys>): Sys
    requires run != []
  {
    run[|run| - 1]
  }

  /** `longer` goes on from where `run` ends. */
  ghost predicate Continues(c: Config, run: seq<Sys>, longer: seq<Sys>) {
    run != [] && run <= longer && IsRun(c, longer)
  }

  lemma InvAtEnd(c: Config, run: seq<Sys>)
    requires IsRun(c, run)
    ensures Inv(c, Last(run))
  {
    Reachable(c, run, |run| - 1);
  }

  lemma Goes(c: Config, run: seq<Sys>, b: Sys) returns (longer: seq<Sys>)
    requires IsRun(c, run) && Next(c, Last(run), b)
    ensures Continues(c, run, longer) && Last(longer) == b
  {
    OneMoreStep(c, run, b);
    longer := run + [b];
  }

  // ----- The quantizer finishes the layer it is in

  /** Between a and b the quantizer worked on layer l alone; the capture stood still. */
  ghost predicate Worked(a: Sys, b: Sys, l: nat) {
    && b.capture == a.capture && b.captured == a.captured && b.progress == a.progress
    && a.quantized <= b.quantized <= a.quantized + {l}
    && forall p | p in b.journal :: p in a.journal || p.0 == l
  }

  /** What is left of the layer in hand. */
  function Left(c: Config, q: Quantize): nat
    requires Working(q) && q.i < |c.expertLayers|
  {
    var todo := |Todo(c, c.expertLayers[q.i], q.known)|;
    match q
    case QWork(_, _, _) => 3 * todo + 4
    case QPlaced(_, _, _) => 3 * todo + 3
    case QAppend(_, _, _) => 3 * todo + 2
    case QMark(_, _) => 1
    case QClean(_, _) => 0
  }

  lemma {:induction false} LeastOf(s: set<nat>, x: nat) returns (e: nat)
    requires x in s
    ensures IsLeast(s, e)
    decreases x
  {
    if y :| y in s && y < x {
      e := LeastOf(s, y);
    } else {
      e := x;
    }
  }

  /** The line is complete: one expert less, or the layer is ready for its marker. */
  lemma Appended(c: Config, a: Sys) returns (b: Sys)
    requires a.quantize.QAppend? && a.quantize.i < |c.expertLayers| && a.quantize.e < c.experts
    requires (c.expertLayers[a.quantize.i], a.quantize.e) !in a.quantize.known
    ensures QAppended(c, a, b) && Worked(a, b, c.expertLayers[a.quantize.i])
    ensures Working(b.quantize) && b.quantize.i == a.quantize.i && Left(c, b.quantize) < Left(c, a.quantize)
  {
    var i, known, e := a.quantize.i, a.quantize.known, a.quantize.e;
    var l := c.expertLayers[i];
    var more := known + {(l, e)};
    var todo := Todo(c, l, more);
    assert todo == Todo(c, l, known) - {e} && e in Todo(c, l, known);
    b := a.(journal := a.journal + [(l, e)], torn := false, quantize := QMark(i, more));
    if x :| x in todo {
      var least := LeastOf(todo, x);
      b := b.(quantize := QWork(i, more, least));
    }
  }

  lemma WorksOn(c: Config, a: Sys) returns (b: Sys)
    requires Inv(c, a) && Working(a.quantize)
    ensures QNext(c, a, b) && a.quantize.i < |c.expertLayers| && Worked(a, b, c.expertLayers[a.quantize.i])
    ensures b.quantize.QHead? ==> b.quantize.i == a.quantize.i + 1 && c.expertLayers[a.quantize.i] in b.quantized
    ensures !b.quantize.QHead? ==>
              Working(b.quantize) && b.quantize.i == a.quantize.i && Left(c, b.quantize) < Left(c, a.quantize)
  {
    var i, known := a.quantize.i, a.quantize.known;
    match a.quantize
    case QWork(_, _, e) =>
      b := a.(placed := a.placed + {(c.expertLayers[i], e)}, quantize := QPlaced(i, known, e));
      assert QPlaces(c, a, b);
    case QPlaced(_, _, e) =>
      b := a.(torn := true, quantize := QAppend(i, known, e));
      assert QAppends(a, b);
    case QAppend(_, _, _) =>
      b := Appended(c, a);
    case QMark(_, _) =>
      b := a.(quantized := a.quantized + {c.expertLayers[i]}, quantize := QClean(i, known));
      assert QMarks(c, a, b);
    case QClean(_, _) =>
      b := a.(quantize := QHead(i + 1, known));
      assert QCleans(c, a, b);
  }

  lemma WorkedTwice(a: Sys, b: Sys, d: Sys, l: nat)
    requires Worked(a, b, l) && Worked(b, d, l)
    ensures Worked(a, d, l)
  {
  }

  lemma WorksOnIn(c: Config, run: seq<Sys>) returns (longer: seq<Sys>)
    requires IsRun(c, run) && Working(Last(run).quantize)
    ensures Continues(c, run, longer)
    ensures var a, b := Last(run), Last(longer);
            && a.quantize.i < |c.expertLayers| && Worked(a, b, c.expertLayers[a.quantize.i])
            && (b.quantize.QHead? ==> b.quantize.i == a.quantize.i + 1 && c.expertLayers[a.quantize.i] in b.quantized)
            && (!b.quantize.QHead? ==>
                  Working(b.quantize) && b.quantize.i == a.quantize.i && Left(c, b.quantize) < Left(c, a.quantize))
  {
    InvAtEnd(c, run);
    var b := WorksOn(c, Last(run));
    longer := Goes(c, run, b);
  }

  lemma IndexFits(c: Config, run: seq<Sys>)
    requires IsRun(c, run) && Working(Last(run).quantize)
    ensures Last(run).quantize.i < |c.expertLayers|
  {
    InvAtEnd(c, run);
  }

  /** From anywhere inside a layer the quantizer can mark it and go on to the next. */
  lemma {:induction false} FinishLayer(c: Config, run: seq<Sys>, left: nat) returns (longer: seq<Sys>)
    requires IsRun(c, run) && Working(Last(run).quantize) && Last(run).quantize.i < |c.expertLayers|
    requires left == Left(c, Last(run).quantize)
    ensures Continues(c, run, longer)
    ensures var a, b := Last(run), Last(longer);
            && b.quantize.QHead? && b.quantize.i == a.quantize.i + 1
            && c.expertLayers[a.quantize.i] in b.quantized && Worked(a, b, c.expertLayers[a.quantize.i])
    decreases left
  {
    var l := c.expertLayers[Last(run).quantize.i];
    longer := WorksOnIn(c, run);
    if !Last(longer).quantize.QHead? {
      var middle := longer;
      longer := FinishLayer(c, middle, Left(c, Last(middle).quantize));
      WorkedTwice(Last(run), Last(middle), Last(longer), l);
    }
  }

  // ----- A resumed quantizer walks over the captured layers

  lemma EntersLayer(c: Config, a: Sys) returns (b: Sys)
    requires Inv(c, a) && a.quantize.QHead? && a.quantize.i < |c.expertLayers|
    requires c.expertLayers[a.quantize.i] in a.captured
    ensures QEnter(c, a, b) && Worked(a, b, c.expertLayers[a.quantize.i])
    ensures Working(b.quantize) ==> b.quantize.i == a.quantize.i
    ensures !Working(b.quantize) ==>
              && b.quantize.QHead? && b.quantize.i == a.quantize.i + 1
              && LayerJournalled(c, a, c.expertLayers[a.quantize.i])
  {
    var i, known := a.quantize.i, a.quantize.known;
    var l := c.expertLayers[i];
    var todo := Todo(c, l, known);
    if x :| x in todo {
      if l in a.quantized { AllDone(c, a, l, known); }
      var e := LeastOf(todo, x);
      b := a.(quantize := QWork(i, known, e));
    } else {
      NothingTodo(c, a, l, known);
      b := a.(quantize := QHead(i + 1, known));
    }
  }

  /** Layer by layer: marked, or journalled in full before. */
  lemma OneLayer(c: Config, run: seq<Sys>) returns (longer: seq<Sys>)
    requires IsRun(c, run) && Last(run).quantize.QHead? && Last(run).quantize.i < |c.expertLayers|
    requires c.expertLayers[Last(run).quantize.i] in Last(run).captured
    ensures Continues(c, run, longer)
    ensures var a, b := Last(run), Last(longer); var l := c.expertLayers[a.quantize.i];
            && b.quantize.QHead? && b.quantize.i == a.quantize.i + 1
            && Worked(a, b, l) && (l in b.quantized || LayerJournalled(c, a, l))
  {
    InvAtEnd(c, run);
    var b := EntersLayer(c, Last(run));
    var entered := Goes(c, run, b);
    if Working(b.quantize) {
      longer := FinishLayer(c, entered, Left(c, b.quantize));
      WorkedTwice(Last(run), b, Last(longer), c.expertLayers[b.quantize.i]);
    } else {
      longer := entered;
    }
  }

  /** Work on one layer journals no other. */
  lemma OthersUnjournalled(c: Config, a: Sys, b: Sys, l: nat, m: nat)
    requires Worked(a, b, l) && m != l && LayerJournalled(c, b, m)
    ensures LayerJournalled(c, a, m)
  {
    forall e: nat | e < c.experts ensures (m, e) in a.journal {
      assert (m, e) in b.journal;
    }
  }

  ghost predicate Settled(c: Config, a: Sys, b: Sys, j: nat)
    requires j < |c.expertLayers|
  {
    c.expertLayers[j] in b.quantized || LayerJournalled(c, a, c.expertLayers[j])
  }

  lemma {:induction false} Walk(c: Config, run: seq<Sys>, from: nat, to: nat) returns (longer: seq<Sys>)
    requires IsRun(c, run) && Last(run).quantize.QHead? && Last(run).quantize.i == from <= to <= |c.expertLayers|
    requires forall j | from <= j < to :: c.expertLayers[j] in Last(run).captured
    ensures Continues(c, run, longer)
    ensures Last(longer).captured == Last(run).captured && Last(run).quantized <= Last(longer).quantized
    ensures forall j | from <= j < to :: Settled(c, Last(run), Last(longer), j)
    decreases |c.expertLayers| - from
  {
    if from == to {
      longer := run;
    } else {
      var middle := OneLayer(c, run);
      longer := Walk(c, middle, from + 1, to);
      forall j | from <= j < to ensures Settled(c, Last(run), Last(longer), j) {
        SettledBefore(c, Last(run), Last(middle), Last(longer), from, j);
      }
    }
  }

  lemma SettledBefore(c: Config, a: Sys, b: Sys, d: Sys, from: nat, j: nat)
    requires ValidConfig(c) && from <= j < |c.expertLayers| && Worked(a, b, c.expertLayers[from])
    requires b.quantized <= d.quantized && Settled(c, a, b, from) && (j > from ==> Settled(c, b, d, j))
    ensures Settled(c, a, d, j)
  {
    if j > from && c.expertLayers[j] !in d.quantized {
      OthersUnjournalled(c, a, b, c.expertLayers[from], c.expertLayers[j]);
    }
  }

  /** A kill and a new start: the journal is what it was. */
  lemma Restarted(c: Config, run: seq<Sys>) returns (longer: seq<Sys>)
    requires IsRun(c, run)
    ensures Continues(c, run, longer)
    ensures var a, b := Last(run), Last(longer);
            && b.quantize.QHead? && b.quantize.i == 0
            && b.captured == a.captured && b.quantized == a.quantized && b.journal == a.journal
  {
    var killed := Last(run).(quantize := QOff);
    assert QKill(Last(run), killed);
    var middle := Goes(c, run, killed);
    var started := killed.(torn := false, quantize := QHead(0, Entries(killed.journal)));
    assert QStart(killed, started);
    longer := Goes(c, middle, started);
  }

  /** The captured layers come first in the list. */
  lemma CapturedFirst(c: Config, a: Sys, i: nat, j: nat)
    requires Inv(c, a) && i <= j < |c.expertLayers| && c.expertLayers[j] in a.captured
    ensures c.expertLayers[i] in a.captured
  {
    assert c.expertLayers[i] in c.expertLayers && c.expertLayers[j] in c.expertLayers;
    if i < j { assert c.expertLayers[i] < c.expertLayers[j]; }
  }

  /** The layers up to a captured one, in a fresh start of the quantizer. */
  lemma WalkOver(c: Config, run: seq<Sys>, to: nat) returns (longer: seq<Sys>)
    requires IsRun(c, run) && to <= |c.expertLayers|
    requires to > 0 ==> c.expertLayers[to - 1] in Last(run).captured
    ensures Continues(c, run, longer)
    ensures Last(longer).captured == Last(run).captured && Last(run).quantized <= Last(longer).quantized
    ensures forall j | 0 <= j < to :: Settled(c, Last(run), Last(longer), j)
  {
    InvAtEnd(c, run);
    forall j | 0 <= j < to ensures c.expertLayers[j] in Last(run).captured {
      CapturedFirst(c, Last(run), j, to - 1);
    }
    var started := Restarted(c, run);
    longer := Walk(c, started, 0, to);
    forall j | 0 <= j < to ensures Settled(c, Last(run), Last(longer), j) {
      assert Settled(c, Last(started), Last(longer), j);
    }
  }

  // ----- Which layers can still be marked

  lemma PlaceOf(c: Config, a: Sys, l: nat) returns (j: nat)
    requires Inv(c, a) && l in a.captured
    ensures j < |c.expertLayers| && c.expertLayers[j] == l && IsMoe(l)
  {
    j :| j < |c.expertLayers| && c.expertLayers[j] == l;
  }

  /** The quantizer is inside layer l. */
  predicate WorksAt(c: Config, a: Sys, l: nat) {
    Working(a.quantize) && a.quantize.i < |c.expertLayers| && c.expertLayers[a.quantize.i] == l
  }

  lemma CanMark(c: Config, run: seq<Sys>, l: nat) returns (longer: seq<Sys>)
    requires IsRun(c, run) && l in Last(run).captured && !Stranded(c, Last(run), l)
    ensures Continues(c, run, longer) && l in Last(longer).quantized
  {
    if l in Last(run).quantized {
      longer := run;
    } else if WorksAt(c, Last(run), l) {
      longer := FinishLayer(c, run, Left(c, Last(run).quantize));
    } else {
      InvAtEnd(c, run);
      var j := PlaceOf(c, Last(run), l);
      longer := WalkOver(c, run, j + 1);
      assert Settled(c, Last(run), Last(longer), j);
    }
  }

  /** `longer` marks layer l. */
  ghost predicate Marks(c: Config, run: seq<Sys>, longer: seq<Sys>, l: nat) {
    Continues(c, run, longer) && l in Last(longer).quantized
  }

  /** A captured layer is marked in some continuation if and only if it is not stranded. */
  lemma MarkedIff(c: Config, run: seq<Sys>, l: nat)
    requires IsRun(c, run) && l in Last(run).captured
    ensures (exists longer :: Marks(c, run, longer, l)) <==> !Stranded(c, Last(run), l)
  {
    if Stranded(c, Last(run), l) {
      forall longer ensures !Marks(c, run, longer, l) {
        if Continues(c, run, longer) {
          assert longer[|run| - 1] == Last(run);
          StrandedForever(c, longer, |run| - 1, |longer| - 1, l);
        }
      }
    } else {
      var longer := CanMark(c, run, l);
      assert Marks(c, run, longer, l);
    }
  }

  // ----- When the capture can still capture

  /** Captured layers no continuation marks, below `n`. */
  function StrandedBelow(c: Config, a: Sys, n: nat): nat {
    if n == 0 then 0 else StrandedBelow(c, a, n - 1) + if Stranded(c, a, n - 1) then 1 else 0
  }

  lemma {:induction false} StrandedWait(c: Config, run: seq<Sys>, i: nat, k: nat, n: nat)
    requires IsRun(c, run) && i <= k < |run|
    ensures StrandedBelow(c, run[i], n) <= Waiting(run[k].captured, run[k].quantized, n)
    decreases n
  {
    if n > 0 {
      StrandedWait(c, run, i, k, n - 1);
      if Stranded(c, run[i], n - 1) { StrandedForever(c, run, i, k, n - 1); }
    }
  }

  lemma FullCapturesNothing(c: Config, a: Sys, b: Sys)
    requires Inv(c, a) && Next(c, a, b) && c.maxAhead > 0 && WaitingIn(a) >= c.maxAhead
    ensures b.captured == a.captured
  {
  }

  lemma FullAt(c: Config, run: seq<Sys>, k: nat)
    requires IsRun(c, run) && 0 < k < |run| && c.maxAhead > 0 && WaitingIn(run[k - 1]) >= c.maxAhead
    ensures run[k].captured == run[k - 1].captured
  {
    Reachable(c, run, k - 1);
    assert StepAt(c, run, k);
    FullCapturesNothing(c, run[k - 1], run[k]);
  }

  lemma {:induction false} CapturesNoMore(c: Config, run: seq<Sys>, i: nat, k: nat)
    requires IsRun(c, run) && i <= k < |run| && c.maxAhead > 0 && StrandedBelow(c, run[i], MTP_LAYER) >= c.maxAhead
    ensures run[k].captured == run[i].captured
    decreases k
  {
    if i < k {
      CapturesNoMore(c, run, i, k - 1);
      StrandedWait(c, run, i, k - 1, MTP_LAYER);
      FullAt(c, run, k);
    }
  }

  /** Every captured layer is marked, or was stranded from the start. */
  ghost predicate OnlyStrandedWait(c: Config, a: Sys, b: Sys) {
    && b.captured == a.captured
    && forall l | l in b.captured && l !in b.quantized :: Stranded(c, a, l)
  }

  lemma {:induction false} WaitingIsStranded(c: Config, a: Sys, b: Sys, n: nat)
    requires OnlyStrandedWait(c, a, b)
    ensures Waiting(b.captured, b.quantized, n) <= StrandedBelow(c, a, n)
  {
    if n > 0 { WaitingIsStranded(c, a, b, n - 1); }
  }

  /** The layer in hand is finished first: a kill there could strand it. */
  lemma FinishInHand(c: Config, run: seq<Sys>) returns (longer: seq<Sys>)
    requires IsRun(c, run)
    ensures Continues(c, run, longer)
    ensures Last(longer).captured == Last(run).captured && Last(run).quantized <= Last(longer).quantized
    ensures forall l | LayerJournalled(c, Last(longer), l) && l !in Last(longer).quantized ::
              LayerJournalled(c, Last(run), l) && !WorksAt(c, Last(run), l)
  {
    if Working(Last(run).quantize) {
      IndexFits(c, run);
      var i := Last(run).quantize.i;
      longer := FinishLayer(c, run, Left(c, Last(run).quantize));
      forall l | LayerJournalled(c, Last(longer), l) && l !in Last(longer).quantized
        ensures LayerJournalled(c, Last(run), l) && !WorksAt(c, Last(run), l)
      {
        OthersUnjournalled(c, Last(run), Last(longer), c.expertLayers[i], l);
      }
    } else {
      longer := run;
    }
  }

  /** How many of the expert layers are captured: they are the first ones. */
  lemma {:induction false} CapturedCount(c: Config, a: Sys, n: nat) returns (to: nat)
    requires n <= |c.expertLayers|
    ensures to <= n && (to > 0 ==> c.expertLayers[to - 1] in a.captured)
    ensures forall j | to <= j < n :: c.expertLayers[j] !in a.captured
    decreases n
  {
    if n == 0 || c.expertLayers[n - 1] in a.captured {
      to := n;
    } else {
      to := CapturedCount(c, a, n - 1);
    }
  }

  /** The quantizer can mark every captured layer that is not stranded. */
  lemma MarksAll(c: Config, run: seq<Sys>) returns (longer: seq<Sys>)
    requires IsRun(c, run)
    ensures Continues(c, run, longer) && OnlyStrandedWait(c, Last(run), Last(longer))
  {
    var finished := FinishInHand(c, run);
    var to := CapturedCount(c, Last(run), |c.expertLayers|);
    longer := WalkOver(c, finished, to);
    forall l | l in Last(longer).captured && l !in Last(longer).quantized ensures Stranded(c, Last(run), l) {
      InvAtEnd(c, run);
      var j := PlaceOf(c, Last(run), l);
      assert Settled(c, Last(finished), Last(longer), j);
    }
  }

  // ----- The capture goes on to its next layer

  /** The quantizer and what is captured stay as they are. */
  ghost predicate Advanced(a: Sys, b: Sys) {
    b.quantize == a.quantize && b.captured == a.captured && b.quantized == a.quantized
  }

  lemma WritesState(c: Config, a: Sys, f: string) returns (b: Sys)
    requires Inv(c, a) && a.capture.CRun? && f in c.files && f !in a.capture.done
    ensures CWritesState(c, a, b, f) && Advanced(a, b)
    ensures b.capture == CRun(a.capture.l, a.capture.capturing, a.capture.done + {f})
  {
    assert StateToRead(a, f, a.capture.l);
    b := a.(states := a.states + {(f, a.capture.l)}, capture := a.capture.(done := a.capture.done + {f}));
  }

  /** Every file goes through the layer. */
  lemma {:induction false} RunsLayer(c: Config, run: seq<Sys>, todo: set<string>) returns (longer: seq<Sys>)
    requires IsRun(c, run) && Last(run).capture.CRun? && todo == c.files - Last(run).capture.done
    ensures Continues(c, run, longer)
    ensures var a, b := Last(run), Last(longer);
            && Advanced(a, b)
            && b.capture == if a.capture.capturing then CDump(a.capture.l) else CProgress(a.capture.l)
    decreases |todo|
  {
    var a := Last(run);
    if f :| f in todo {
      InvAtEnd(c, run);
      var b := WritesState(c, a, f);
      assert CStates(c, a, b);
      var middle := Goes(c, run, b);
      longer := RunsLayer(c, middle, todo - {f});
    } else {
      forall f | f in c.files ensures f in a.capture.done { assert f !in todo; }
      var b := a.(capture := if a.capture.capturing then CDump(a.capture.l) else CProgress(a.capture.l));
      assert CLayerRun(c, a, b);
      longer := Goes(c, run, b);
    }
  }

  lemma Dumps(c: Config, run: seq<Sys>) returns (longer: seq<Sys>)
    requires IsRun(c, run) && Last(run).capture.CDump?
    ensures Continues(c, run, longer) && Last(longer).captured == Last(run).captured + {Last(run).capture.l}
  {
    var a := Last(run);
    var b := a.(dumps := a.dumps + {a.capture.l}, capture := CDumped(a.capture.l));
    assert CDumps(a, b);
    var middle := Goes(c, run, b);
    var d := b.(captured := b.captured + {a.capture.l}, capture := CProgress(a.capture.l));
    assert CWritesCapture(b, d);
    longer := Goes(c, middle, d);
  }

  lemma Advances(c: Config, run: seq<Sys>) returns (longer: seq<Sys>)
    requires IsRun(c, run) && Last(run).capture.CProgress? && Last(run).capture.l < c.last
    ensures Continues(c, run, longer) && Advanced(Last(run), Last(longer))
    ensures Last(longer).capture == CHead(Last(run).capture.l + 1)
  {
    var a := Last(run);
    var l := a.capture.l;
    var b := a.(progress := l as int, capture := CClean(l));
    assert CWritesProgress(a, b);
    var middle := Goes(c, run, b);
    var d := b.(capture := CHead(l + 1));
    assert CNextLayer(c, b, d);
    longer := Goes(c, middle, d);
  }

  /** Room for one more captured layer. */
  predicate HasRoom(c: Config, a: Sys) {
    c.maxAhead == 0 || WaitingIn(a) < c.maxAhead
  }

  /** From the head of the loop the capture reaches the layer u, or captures one before it. */
  lemma {:induction false} CapturesUpTo(c: Config, run: seq<Sys>, u: nat) returns (longer: seq<Sys>)
    requires IsRun(c, run) && HasRoom(c, Last(run)) && Captures(c, Last(run), u)
    requires Last(run).capture.CHead? && Last(run).capture.l <= u <= c.last
    ensures Continues(c, run, longer) && Last(longer).captured > Last(run).captured
    decreases u - Last(run).capture.l
  {
    var a := Last(run);
    var l := a.capture.l;
    var entered := a.(capture := CRun(l, Captures(c, a, l), {}));
    assert CEnter(c, a, entered);
    var middle := Goes(c, run, entered);
    var through := RunsLayer(c, middle, c.files);
    if Captures(c, a, l) {
      longer := Dumps(c, through);
      assert l in Last(longer).captured;
    } else {
      var next := Advances(c, through);
      longer := CapturesUpTo(c, next, u);
    }
  }

  lemma AheadOfProgress(c: Config, a: Sys, u: nat)
    requires Inv(c, a) && Captures(c, a, u)
    ensures 0 <= a.progress + 1 <= u <= c.last
  {
  }

  lemma CapturesNext(c: Config, run: seq<Sys>, u: nat) returns (longer: seq<Sys>)
    requires IsRun(c, run) && HasRoom(c, Last(run)) && Captures(c, Last(run), u)
    ensures Continues(c, run, longer) && Last(longer).captured > Last(run).captured
  {
    InvAtEnd(c, run);
    AheadOfProgress(c, Last(run), u);
    var killed := Last(run).(capture := COff);
    assert CKill(Last(run), killed);
    var middle := Goes(c, run, killed);
    var started := killed.(capture := CHead((killed.progress + 1) as nat));
    assert CStart(c, killed, started);
    middle := Goes(c, middle, started);
    longer := CapturesUpTo(c, middle, u);
  }

  ghost predicate CapturesMore(c: Config, run: seq<Sys>, longer: seq<Sys>) {
    Continues(c, run, longer) && Last(longer).captured != Last(run).captured
  }

  /** Layers are left to capture, and fewer than `maxAhead` are stranded. */
  ghost predicate CanCapture(c: Config, a: Sys) {
    && (exists l :: Captures(c, a, l))
    && (c.maxAhead == 0 || StrandedBelow(c, a, MTP_LAYER) < c.maxAhead)
  }

  lemma CapturesSome(c: Config, run: seq<Sys>) returns (longer: seq<Sys>)
    requires IsRun(c, run) && CanCapture(c, Last(run))
    ensures CapturesMore(c, run, longer)
  {
    var u :| Captures(c, Last(run), u);
    var middle := MarksAll(c, run);
    WaitingIsStranded(c, Last(run), Last(middle), MTP_LAYER);
    longer := CapturesNext(c, middle, u);
  }

  /** All layers captured stay all: captured are expert layers. */
  lemma NothingLeft(c: Config, run: seq<Sys>, longer: seq<Sys>)
    requires IsRun(c, run) && Continues(c, run, longer) && forall l :: !Captures(c, Last(run), l)
    ensures Last(longer).captured == Last(run).captured
  {
    InvAtEnd(c, run);
    InvAtEnd(c, longer);
    CapturedGrows(c, longer, |run| - 1, |longer| - 1);
    forall l | l in Last(longer).captured ensures l in Last(run).captured {
      assert !Captures(c, Last(run), l);
    }
  }

  lemma {:induction false} CapturedGrows(c: Config, run: seq<Sys>, i: nat, k: nat)
    requires IsRun(c, run) && i <= k < |run|
    ensures run[i].captured <= run[k].captured
    decreases k
  {
    if i < k {
      CapturedGrows(c, run, i, k - 1);
      CapturedStays(c, run, k);
    }
  }

  lemma CapturedStays(c: Config, run: seq<Sys>, k: nat)
    requires IsRun(c, run) && 0 < k < |run|
    ensures run[k - 1].captured <= run[k].captured
  {
    assert StepAt(c, run, k);
  }

  /** In every reachable state: some continuation captures another layer if and only if a layer is left and fewer
      than `maxAhead` are stranded. */
  lemma CapturesMoreIff(c: Config, run: seq<Sys>)
    requires IsRun(c, run)
    ensures (exists longer :: CapturesMore(c, run, longer)) <==> CanCapture(c, Last(run))
  {
    if CanCapture(c, Last(run)) {
      var longer := CapturesSome(c, run);
      assert CapturesMore(c, run, longer);
    } else {
      forall longer ensures !CapturesMore(c, run, longer) {
        if Continues(c, run, longer) {
          assert longer[|run| - 1] == Last(run);
          if exists l :: Captures(c, Last(run), l) {
            CapturesNoMore(c, longer, |run| - 1, |longer| - 1);
          } else {
            NothingLeft(c, run, longer);
          }
        }
      }
    }
  }
}
