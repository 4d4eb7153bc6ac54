/** The capture/quantize pipeline of tools/glm_mul1_quantize.py: two processes over one work directory and one store. */
module Mul1Pipeline {
  import opened Common

  const MTP_LAYER: nat := 45

  predicate IsMoe(l: nat) {
    3 <= l < 45
  }

  /** One shared layer list: `expertLayers` ascending, `last` the last layer the capture advances through. */
  datatype Config = Config(expertLayers: seq<nat>, last: nat, files: set<string>, experts: nat, maxAhead: nat)

  ghost predicate ValidConfig(c: Config) {
    && c.last < MTP_LAYER && c.experts > 0
    && (forall i, j | 0 <= i < j < |c.expertLayers| :: c.expertLayers[i] < c.expertLayers[j])
    && (forall l | l in c.expertLayers :: (IsMoe(l) && l <= c.last) || l == MTP_LAYER)
  }

  /** capture_layers, between two file operations. */
  datatype Capture =
    | COff
    | CHead(l: nat)                                   // at the loop head, possibly waiting
    | CRun(l: nat, capturing: bool, done: set<string>) // states of `done` written
    | CDump(l: nat)                                   // the MoE inputs are being written
    | CDumped(l: nat)                                 // both written, capture.json not yet
    | CProgress(l: nat)
    | CClean(l: nat)                                  // removing the states behind l
    | CDone

  /** quantize_layers, between two file operations; `known` is the journal as this process holds it. */
  datatype Quantize =
    | QOff
    | QHead(i: nat, known: set<(nat, nat)>)
    | QWork(i: nat, known: set<(nat, nat)>, e: nat)    // about to quantize expert e
    | QPlaced(i: nat, known: set<(nat, nat)>, e: nat)  // its record file is in place
    | QAppend(i: nat, known: set<(nat, nat)>, e: nat)  // its journal line is half written
    | QMark(i: nat, known: set<(nat, nat)>)            // every expert journalled, quantized.json not yet
    | QClean(i: nat, known: set<(nat, nat)>)
    | QDone

  datatype Sys = Sys(
    progress: int,                 // progress.json: the last layer whose states are on disk for every file
    states: set<(string, nat)>,    // complete hand-over states
    captured: set<nat>,            // layers with capture.json
    dumps: set<nat>,               // layers whose moe-in.bf16 and ids.i32 are complete
    quantized: set<nat>,           // layers with quantized.json
    placed: set<(nat, nat)>,       // record files ever replaced into place
    journal: seq<(nat, nat)>,      // complete journal lines
    torn: bool,                    // a half-written line behind them
    capture: Capture,
    quantize: Quantize)

  /** captured_waiting: the MoE layers below `n` with a capture.json and no quantized.json. */
  function Waiting(captured: set<nat>, quantized: set<nat>, n: nat): nat {
    if n == 0 then 0
    else Waiting(captured, quantized, n - 1) +
         if IsMoe(n - 1) && n - 1 in captured && n - 1 !in quantized then 1 else 0
  }

  function WaitingIn(a: Sys): nat {
    Waiting(a.captured, a.quantized, MTP_LAYER)
  }

  predicate Captures(c: Config, a: Sys, l: nat) {
    l in c.expertLayers && IsMoe(l) && l !in a.captured
  }

  /** The capture's wait: a layer to capture, a limit, and the limit reached. */
  predicate CaptureWaits(c: Config, a: Sys) {
    a.capture.CHead? && Captures(c, a, a.capture.l) && c.maxAhead > 0 && WaitingIn(a) >= c.maxAhead
  }

  function Todo(c: Config, l: nat, known: set<(nat, nat)>): set<nat> {
    set e: nat | e < c.experts && (l, e) !in known
  }

  /** The quantizer's wait: experts to do, and the layer not captured yet. */
  predicate QuantizeWaits(c: Config, a: Sys) {
    && a.quantize.QHead? && a.quantize.i < |c.expertLayers|
    && var l := c.expertLayers[a.quantize.i];
       Todo(c, l, a.quantize.known) != {} && l != MTP_LAYER && l !in a.captured
  }

  // ----- capture_layers

  ghost predicate CStart(c: Config, a: Sys, b: Sys) {
    && a.capture == COff
    && var l := a.progress + 1;
       b == a.(capture := if l <= c.last as int && 0 <= l then CHead(l as nat) else CDone)
  }

  ghost predicate CEnter(c: Config, a: Sys, b: Sys) {
    && a.capture.CHead? && !CaptureWaits(c, a)
    && b == a.(capture := CRun(a.capture.l, Captures(c, a, a.capture.l), {}))
  }

  /** What one file's pass through layer l reads. */
  predicate StateToRead(a: Sys, f: string, l: nat) {
    l > 0 ==> (f, l - 1) in a.states
  }

  /** Overwriting the output state of one file: it is torn until the write is complete. */
  ghost predicate COverwrites(c: Config, a: Sys, b: Sys, f: string) {
    && a.capture.CRun? && f in c.files && f !in a.capture.done && StateToRead(a, f, a.capture.l)
    && b == a.(states := a.states - {(f, a.capture.l)})
  }

  ghost predicate CWritesState(c: Config, a: Sys, b: Sys, f: string) {
    && a.capture.CRun? && f in c.files && f !in a.capture.done && StateToRead(a, f, a.capture.l)
    && b == a.(states := a.states + {(f, a.capture.l)}, capture := a.capture.(done := a.capture.done + {f}))
  }

  ghost predicate CLayerRun(c: Config, a: Sys, b: Sys) {
    && a.capture.CRun? && c.files <= a.capture.done
    && b == a.(capture := if a.capture.capturing then CDump(a.capture.l) else CProgress(a.capture.l))
  }

  ghost predicate CDumps(a: Sys, b: Sys) {
    a.capture.CDump? && b == a.(dumps := a.dumps + {a.capture.l}, capture := CDumped(a.capture.l))
  }

  ghost predicate CWritesCapture(a: Sys, b: Sys) {
    a.capture.CDumped? && b == a.(captured := a.captured + {a.capture.l}, capture := CProgress(a.capture.l))
  }

  ghost predicate CWritesProgress(a: Sys, b: Sys) {
    a.capture.CProgress? && b == a.(progress := a.capture.l as int, capture := CClean(a.capture.l))
  }

  ghost predicate CRemovesState(a: Sys, b: Sys, f: string) {
    a.capture.CClean? && a.capture.l > 0 && b == a.(states := a.states - {(f, a.capture.l - 1)})
  }

  ghost predicate CNextLayer(c: Config, a: Sys, b: Sys) {
    a.capture.CClean? && b == a.(capture := if a.capture.l < c.last then CHead(a.capture.l + 1) else CDone)
  }

  /** A kill, wherever it stands. */
  ghost predicate CKill(a: Sys, b: Sys) {
    b == a.(capture := COff)
  }

  ghost predicate CNext(c: Config, a: Sys, b: Sys) {
    CMoves(c, a, b) || CStates(c, a, b) || CPublishes(a, b)
  }

  ghost predicate CMoves(c: Config, a: Sys, b: Sys) {
    CStart(c, a, b) || CEnter(c, a, b) || CLayerRun(c, a, b) || CNextLayer(c, a, b)
  }

  ghost predicate CStates(c: Config, a: Sys, b: Sys) {
    || (exists f :: COverwrites(c, a, b, f)) || (exists f :: CWritesState(c, a, b, f))
    || (exists f :: CRemovesState(a, b, f))
  }

  ghost predicate CPublishes(a: Sys, b: Sys) {
    CDumps(a, b) || CWritesCapture(a, b) || CWritesProgress(a, b)
  }

  // ----- quantize_layers

  /** read_journal cuts a half-written last line off the file. */
  ghost predicate QStart(a: Sys, b: Sys) {
    a.quantize == QOff && b == a.(torn := false, quantize := QHead(0, Entries(a.journal)))
  }

  ghost predicate QEnter(c: Config, a: Sys, b: Sys) {
    && a.quantize.QHead? && !QuantizeWaits(c, a)
    && if a.quantize.i >= |c.expertLayers| then b == a.(quantize := QDone)
       else
         var l := c.expertLayers[a.quantize.i];
         var todo := Todo(c, l, a.quantize.known);
         if todo == {} then b == a.(quantize := QHead(a.quantize.i + 1, a.quantize.known))
         else
           && (l == MTP_LAYER || l in a.dumps)
           && exists e :: IsLeast(todo, e) && b == a.(quantize := QWork(a.quantize.i, a.quantize.known, e))
  }

  ghost predicate IsLeast(s: set<nat>, e: nat) {
    e in s && forall x | x in s :: e <= x
  }

  ghost predicate QPlaces(c: Config, a: Sys, b: Sys) {
    && a.quantize.QWork? && a.quantize.i < |c.expertLayers|
    && b == a.(placed := a.placed + {(c.expertLayers[a.quantize.i], a.quantize.e)},
               quantize := QPlaced(a.quantize.i, a.quantize.known, a.quantize.e))
  }

  ghost predicate QAppends(a: Sys, b: Sys) {
    a.quantize.QPlaced? && b == a.(torn := true, quantize := QAppend(a.quantize.i, a.quantize.known, a.quantize.e))
  }

  ghost predicate QAppended(c: Config, a: Sys, b: Sys) {
    && a.quantize.QAppend? && a.quantize.i < |c.expertLayers|
    && var l := c.expertLayers[a.quantize.i];
       var known := a.quantize.known + {(l, a.quantize.e)};
       var todo := Todo(c, l, known);
       b.quantize ==
         (if todo == {} then QMark(a.quantize.i, known)
          else QWork(a.quantize.i, known, if b.quantize.QWork? then b.quantize.e else 0))
       && (todo != {} ==> b.quantize.QWork? && IsLeast(todo, b.quantize.e))
       && b == a.(journal := a.journal + [(l, a.quantize.e)], torn := false, quantize := b.quantize)
  }

  ghost predicate QMarks(c: Config, a: Sys, b: Sys) {
    && a.quantize.QMark? && a.quantize.i < |c.expertLayers|
    && b == a.(quantized := a.quantized + {c.expertLayers[a.quantize.i]},
               quantize := QClean(a.quantize.i, a.quantize.known))
  }

  /** The MoE-input dump of a quantized layer may be removed. */
  ghost predicate QCleans(c: Config, a: Sys, b: Sys) {
    && a.quantize.QClean? && a.quantize.i < |c.expertLayers|
    && (b.dumps == a.dumps || b.dumps == a.dumps - {c.expertLayers[a.quantize.i]})
    && b == a.(dumps := b.dumps, quantize := QHead(a.quantize.i + 1, a.quantize.known))
  }

  /** A kill, a refused disk check or a stop. */
  ghost predicate QKill(a: Sys, b: Sys) {
    b == a.(quantize := QOff)
  }

  ghost predicate QNext(c: Config, a: Sys, b: Sys) {
    || QStart(a, b) || QEnter(c, a, b) || QPlaces(c, a, b) || QAppends(a, b) || QAppended(c, a, b)
    || QMarks(c, a, b) || QCleans(c, a, b)
  }

  ghost predicate Next(c: Config, a: Sys, b: Sys) {
    CNext(c, a, b) || QNext(c, a, b) || CKill(a, b) || QKill(a, b)
  }

  ghost predicate Init(a: Sys) {
    a == Sys(-1, {}, {}, {}, {}, {}, [], false, COff, QOff)
  }

  ghost predicate StepAt(c: Config, run: seq<Sys>, i: nat)
    requires 0 < i < |run|
  {
    Next(c, run[i - 1], run[i])
  }

  ghost predicate IsRun(c: Config, run: seq<Sys>) {
    ValidConfig(c) && run != [] && Init(run[0]) && forall i | 0 < i < |run| :: StepAt(c, run, i)
  }

  // ----- The invariant, process by process

  /** The layer the capture is working on. */
  function CLayer(x: Capture): int {
    match x
    case COff => -1
    case CDone => -1
    case CHead(l) => l
    case CRun(l, _, _) => l
    case CDump(l) => l
    case CDumped(l) => l
    case CProgress(l) => l
    case CClean(l) => l
  }

  predicate CapturingNow(a: Sys) {
    (a.capture.CRun? && a.capture.capturing) || a.capture.CDump? || a.capture.CDumped?
  }

  ghost predicate CaptureInv(c: Config, a: Sys) {
    && -1 <= a.progress <= c.last as int
    && (a.progress >= 0 ==> forall f | f in c.files :: (f, a.progress as nat) in a.states)
    && (a.capture.CHead? || a.capture.CRun? || a.capture.CDump? || a.capture.CDumped? || a.capture.CProgress?
        ==> CLayer(a.capture) == a.progress + 1 <= c.last as int)
    && (a.capture.CClean? ==> a.capture.l == a.progress)
    && (a.capture.CRun? ==> forall f | f in a.capture.done :: (f, a.capture.l) in a.states)
    && (a.capture.CDump? || a.capture.CDumped? || a.capture.CProgress?
        ==> forall f | f in c.files :: (f, CLayer(a.capture) as nat) in a.states)
  }

  /** Exactly the expert layers behind the capture have been captured. */
  ghost predicate CapturedInv(c: Config, a: Sys) {
    && (forall l | l in a.captured :: l in c.expertLayers && IsMoe(l) && l as int <= a.progress + 1)
    && (forall l: nat | l in c.expertLayers && IsMoe(l) && l as int <= a.progress :: l in a.captured)
    && (a.capture.CRun? && !a.capture.capturing ==>
          a.capture.l !in c.expertLayers || !IsMoe(a.capture.l) || a.capture.l in a.captured)
    && (a.capture.CProgress? ==> a.capture.l !in c.expertLayers || !IsMoe(a.capture.l) || a.capture.l in a.captured)
    && (CapturingNow(a) ==> var l := CLayer(a.capture); l >= 0 && Captures(c, a, l as nat))
    && (a.capture.CDumped? ==> a.capture.l in a.dumps)
  }

  ghost predicate AheadInv(c: Config, a: Sys) {
    c.maxAhead > 0 ==>
      && WaitingIn(a) <= c.maxAhead
      && (CapturingNow(a) ==> WaitingIn(a) < c.maxAhead)
  }

  ghost predicate NoDuplicates(j: seq<(nat, nat)>) {
    forall i, k | 0 <= i < k < |j| :: j[i] != j[k]
  }

  function QKnown(x: Quantize): set<(nat, nat)> {
    match x
    case QOff => {}
    case QDone => {}
    case QHead(_, k) => k
    case QWork(_, k, _) => k
    case QPlaced(_, k, _) => k
    case QAppend(_, k, _) => k
    case QMark(_, k) => k
    case QClean(_, k) => k
  }

  function QIndex(c: Config, x: Quantize): nat {
    match x
    case QOff => 0
    case QDone => |c.expertLayers|
    case QHead(i, _) => i
    case QWork(i, _, _) => i
    case QPlaced(i, _, _) => i
    case QAppend(i, _, _) => i
    case QMark(i, _) => i
    case QClean(i, _) => i
  }

  function Entries(j: seq<(nat, nat)>): set<(nat, nat)> {
    set p | p in j
  }

  predicate LayerJournalled(c: Config, a: Sys, l: nat) {
    forall e: nat | e < c.experts :: (l, e) in a.journal
  }

  ghost predicate JournalInv(c: Config, a: Sys) {
    && NoDuplicates(a.journal) && (forall p | p in a.journal :: p in a.placed)
    && (a.torn ==> a.quantize.QAppend? || a.quantize == QOff)
    && (a.quantize != QOff && a.quantize != QDone ==> QKnown(a.quantize) == Entries(a.journal))
    && (a.quantize.QWork? || a.quantize.QPlaced? || a.quantize.QAppend? ==>
          && a.quantize.i < |c.expertLayers| && a.quantize.e < c.experts
          && (c.expertLayers[a.quantize.i], a.quantize.e) !in QKnown(a.quantize))
    && (a.quantize.QPlaced? || a.quantize.QAppend? ==> (c.expertLayers[a.quantize.i], a.quantize.e) in a.placed)
    && (a.quantize.QMark? || a.quantize.QClean? ==>
          a.quantize.i < |c.expertLayers| && LayerJournalled(c, a, c.expertLayers[a.quantize.i]))
  }

  /** The quantizer leaves only journalled layers behind; a marked layer is journalled. */
  ghost predicate QuantizedInv(c: Config, a: Sys) {
    && (forall l | l in a.quantized :: l in c.expertLayers && LayerJournalled(c, a, l))
    && (a.quantize != QOff ==>
          forall j: nat | j < QIndex(c, a.quantize) && j < |c.expertLayers| :: LayerJournalled(c, a, c.expertLayers[j]))
    && (a.quantize.QClean? ==> a.quantize.i < |c.expertLayers| && c.expertLayers[a.quantize.i] in a.quantized)
    && (forall l | l in a.captured && l !in a.quantized :: l in a.dumps)
    && (forall l | l in a.quantized :: l == MTP_LAYER || l in a.captured)
    && (Working(a.quantize) ==>
          && a.quantize.i < |c.expertLayers|
          && (c.expertLayers[a.quantize.i] == MTP_LAYER || c.expertLayers[a.quantize.i] in a.captured))
  }

  predicate Working(x: Quantize) {
    x.QWork? || x.QPlaced? || x.QAppend? || x.QMark? || x.QClean?
  }

  ghost predicate Inv(c: Config, a: Sys) {
    ValidConfig(c) && CaptureInv(c, a) && CapturedInv(c, a) && AheadInv(c, a) && JournalInv(c, a) && QuantizedInv(c, a)
  }

  lemma CaptureStepInv(c: Config, a: Sys, b: Sys)
    requires Inv(c, a) && (CNext(c, a, b) || CKill(a, b))
    ensures CaptureInv(c, b)
  {
  }

  lemma CaptureStepCaptured(c: Config, a: Sys, b: Sys)
    requires Inv(c, a) && (CNext(c, a, b) || CKill(a, b))
    ensures CapturedInv(c, b)
  {
    if CPublishes(a, b) { PublishKeepsCaptured(c, a, b); } else { RestKeepsCaptured(c, a, b); }
  }

  lemma RestKeepsCaptured(c: Config, a: Sys, b: Sys)
    requires Inv(c, a) && (CNext(c, a, b) || CKill(a, b)) && !CPublishes(a, b)
    ensures CapturedInv(c, b)
  {
  }

  lemma PublishKeepsCaptured(c: Config, a: Sys, b: Sys)
    requires Inv(c, a) && CPublishes(a, b)
    ensures CapturedInv(c, b)
  {
  }

  lemma CaptureStepAhead(c: Config, a: Sys, b: Sys)
    requires Inv(c, a) && (CNext(c, a, b) || CKill(a, b))
    ensures AheadInv(c, b)
  {
    if CWritesCapture(a, b) {
      OneMoreWaits(a, b);
    } else {
      assert b.captured == a.captured && b.quantized == a.quantized;
    }
  }

  lemma OneMoreWaits(a: Sys, b: Sys)
    requires CWritesCapture(a, b)
    ensures WaitingIn(b) <= WaitingIn(a) + 1
  {
    WaitingGrows(a.captured, a.quantized, a.capture.l, MTP_LAYER);
  }

  lemma {:induction false} WaitingGrows(captured: set<nat>, quantized: set<nat>, l: nat, n: nat)
    ensures Waiting(captured + {l}, quantized, n) <= Waiting(captured, quantized, n) + if l < n then 1 else 0
  {
    if n > 0 { WaitingGrows(captured, quantized, l, n - 1); }
  }

  lemma {:induction false} WaitingShrinks(captured: set<nat>, quantized: set<nat>, more: set<nat>, n: nat)
    requires quantized <= more
    ensures Waiting(captured, more, n) <= Waiting(captured, quantized, n)
  {
    if n > 0 { WaitingShrinks(captured, quantized, more, n - 1); }
  }

  lemma FewerWait(a: Sys, b: Sys)
    requires b.captured == a.captured && a.quantized <= b.quantized
    ensures WaitingIn(b) <= WaitingIn(a)
  {
    WaitingShrinks(a.captured, a.quantized, b.quantized, MTP_LAYER);
  }

  lemma CaptureStepRest(c: Config, a: Sys, b: Sys)
    requires Inv(c, a) && (CNext(c, a, b) || CKill(a, b))
    ensures JournalInv(c, b) && QuantizedInv(c, b)
  {
    assert b.quantize == a.quantize && b.journal == a.journal && b.placed == a.placed && b.torn == a.torn;
    assert b.quantized == a.quantized && a.dumps <= b.dumps;
  }

  lemma QuantizeStepCapture(c: Config, a: Sys, b: Sys)
    requires Inv(c, a) && (QNext(c, a, b) || QKill(a, b))
    ensures CaptureInv(c, b) && CapturedInv(c, b) && AheadInv(c, b)
  {
    assert b.capture == a.capture && b.captured == a.captured && b.progress == a.progress && b.states == a.states;
    assert a.quantized <= b.quantized;
    FewerWait(a, b);
  }

  lemma NothingTodo(c: Config, a: Sys, l: nat, known: set<(nat, nat)>)
    requires Todo(c, l, known) == {} && known == Entries(a.journal)
    ensures LayerJournalled(c, a, l)
  {
    forall e: nat | e < c.experts ensures (l, e) in a.journal {
      assert e !in Todo(c, l, known);
    }
  }

  lemma AllDone(c: Config, a: Sys, l: nat, known: set<(nat, nat)>)
    requires LayerJournalled(c, a, l) && known == Entries(a.journal)
    ensures Todo(c, l, known) == {}
  {
  }

  lemma AppendJournal(c: Config, a: Sys, b: Sys)
    requires Inv(c, a) && QAppended(c, a, b)
    ensures JournalInv(c, b)
  {
    var x := (c.expertLayers[a.quantize.i], a.quantize.e);
    assert Entries(b.journal) == Entries(a.journal) + {x};
    if b.quantize.QMark? {
      NothingTodo(c, b, x.0, b.quantize.known);
    }
  }

  lemma QuantizeStepJournal(c: Config, a: Sys, b: Sys)
    requires Inv(c, a) && (QNext(c, a, b) || QKill(a, b))
    ensures JournalInv(c, b)
  {
    if QAppended(c, a, b) {
      AppendJournal(c, a, b);
    }
  }

  lemma QuantizeStepQuantized(c: Config, a: Sys, b: Sys)
    requires Inv(c, a) && (QNext(c, a, b) || QKill(a, b))
    ensures QuantizedInv(c, b)
  {
    if QEnter(c, a, b) {
      EnterKeepsQuantized(c, a, b);
    } else if QAppended(c, a, b) {
      AppendKeepsQuantized(c, a, b);
    } else if QMarks(c, a, b) || QCleans(c, a, b) {
      MarkKeepsQuantized(c, a, b);
    } else {
      assert b.journal == a.journal;
    }
  }

  lemma EnterKeepsQuantized(c: Config, a: Sys, b: Sys)
    requires Inv(c, a) && QEnter(c, a, b)
    ensures QuantizedInv(c, b)
  {
    assert b.journal == a.journal;
    if b.quantize.QHead? { NothingTodo(c, a, c.expertLayers[a.quantize.i], a.quantize.known); }
  }

  lemma MarkKeepsQuantized(c: Config, a: Sys, b: Sys)
    requires Inv(c, a) && (QMarks(c, a, b) || QCleans(c, a, b))
    ensures QuantizedInv(c, b)
  {
    assert b.journal == a.journal;
  }

  lemma AppendKeepsQuantized(c: Config, a: Sys, b: Sys)
    requires Inv(c, a) && QAppended(c, a, b)
    ensures QuantizedInv(c, b)
  {
    assert forall p | p in a.journal :: p in b.journal;
    assert forall l: nat | LayerJournalled(c, a, l) :: LayerJournalled(c, b, l);
  }

  lemma StepKeepsInv(c: Config, a: Sys, b: Sys)
    requires Inv(c, a) && Next(c, a, b)
    ensures Inv(c, b)
  {
    if CNext(c, a, b) || CKill(a, b) {
      CaptureStepInv(c, a, b);
      CaptureStepCaptured(c, a, b);
      CaptureStepAhead(c, a, b);
      CaptureStepRest(c, a, b);
    } else {
      QuantizeStepCapture(c, a, b);
      QuantizeStepJournal(c, a, b);
      QuantizeStepQuantized(c, a, b);
    }
  }

  lemma {:induction false} Reachable(c: Config, run: seq<Sys>, i: nat)
    requires IsRun(c, run) && i < |run|
    ensures Inv(c, run[i])
  {
    if i > 0 {
      Reachable(c, run, i - 1);
      assert StepAt(c, run, i);
      StepKeepsInv(c, run[i - 1], run[i]);
    } else {
      NoneWait({}, {}, MTP_LAYER);
    }
  }

  lemma {:induction false} NoneWait(captured: set<nat>, quantized: set<nat>, n: nat)
    ensures Waiting(captured, quantized, n) == 0 <==>
              forall l: nat | l < n && IsMoe(l) && l in captured :: l in quantized
  {
    if n > 0 { NoneWait(captured, quantized, n - 1); }
  }

  // ----- Bounded hand-over, resumable states, the journal

  lemma AtMostMaxAhead(c: Config, run: seq<Sys>, i: nat)
    requires IsRun(c, run) && i < |run| && c.maxAhead > 0
    ensures WaitingIn(run[i]) <= c.maxAhead
  {
    Reachable(c, run, i);
  }

  /** A capture, resumed or not, finds every hand-over state the layer it works on reads. */
  lemma CaptureFindsItsStates(c: Config, run: seq<Sys>, i: nat, f: string)
    requires IsRun(c, run) && i < |run| && f in c.files
    requires run[i].capture.CHead? || run[i].capture.CRun?
    ensures StateToRead(run[i], f, CLayer(run[i].capture) as nat)
  {
    Reachable(c, run, i);
  }

  /** Each expert is journalled at most once, and only behind its record file. */
  lemma JournalledOnceAndPlaced(c: Config, run: seq<Sys>, i: nat)
    requires IsRun(c, run) && i < |run|
    ensures NoDuplicates(run[i].journal) && forall p | p in run[i].journal :: p in run[i].placed
    ensures run[i].quantize.QAppend? ==>
              && run[i].quantize.i < |c.expertLayers|
              && (c.expertLayers[run[i].quantize.i], run[i].quantize.e) !in run[i].journal
              && (c.expertLayers[run[i].quantize.i], run[i].quantize.e) in run[i].placed
  {
    Reachable(c, run, i);
  }

  /** A layer the quantizer enters still has its MoE-input dump. */
  lemma QuantizerFindsTheDump(c: Config, run: seq<Sys>, i: nat)
    requires IsRun(c, run) && i < |run|
    requires run[i].quantize.QHead? && run[i].quantize.i < |c.expertLayers| && !QuantizeWaits(c, run[i])
    requires Todo(c, c.expertLayers[run[i].quantize.i], run[i].quantize.known) != {}
    ensures var l := c.expertLayers[run[i].quantize.i]; l == MTP_LAYER || l in run[i].dumps
  {
    Reachable(c, run, i);
    var a := run[i];
    var l := c.expertLayers[a.quantize.i];
    if l in a.quantized { AllDone(c, a, l, a.quantize.known); }
  }

  // ----- When the two waits block each other

  /** The quantizer has nothing to do until the capture moves, or nothing to do at all. */
  predicate QuantizerIdle(c: Config, a: Sys) {
    QuantizeWaits(c, a) || a.quantize == QDone
  }

  predicate BlockEachOther(c: Config, a: Sys) {
    CaptureWaits(c, a) && QuantizerIdle(c, a)
  }

  /** Journalled completely, but without quantized.json. */
  predicate Orphan(c: Config, a: Sys, l: nat) {
    IsMoe(l) && l in a.captured && l !in a.quantized && LayerJournalled(c, a, l)
  }

  function Orphans(c: Config, a: Sys, n: nat): nat {
    if n == 0 then 0 else Orphans(c, a, n - 1) + if Orphan(c, a, n - 1) then 1 else 0
  }

  /** While the quantizer is idle every waiting layer is an orphan. */
  lemma IdleLeavesOrphans(c: Config, a: Sys, l: nat)
    requires Inv(c, a) && a.capture.CHead? && Captures(c, a, a.capture.l) && QuantizerIdle(c, a)
    requires l in a.captured && l !in a.quantized
    ensures Orphan(c, a, l)
  {
    var j :| 0 <= j < |c.expertLayers| && c.expertLayers[j] == l;
    if QuantizeWaits(c, a) {
      var i := a.quantize.i;
      assert c.expertLayers[i] in c.expertLayers;
      assert l as int <= a.progress < c.expertLayers[i] as int;
      assert j < i;
    }
    assert LayerJournalled(c, a, c.expertLayers[j]);
  }

  lemma {:induction false} OrphansWait(c: Config, a: Sys, n: nat)
    requires forall l | l in a.captured && l !in a.quantized :: Orphan(c, a, l)
    ensures Orphans(c, a, n) == Waiting(a.captured, a.quantized, n)
  {
    if n > 0 { OrphansWait(c, a, n - 1); }
  }

  /** The exact condition: an idle quantizer blocks the capture iff `maxAhead` layers are orphans. */
  lemma BlockedIffOrphans(c: Config, run: seq<Sys>, i: nat)
    requires IsRun(c, run) && i < |run| && c.maxAhead > 0
    requires run[i].capture.CHead? && Captures(c, run[i], run[i].capture.l) && QuantizerIdle(c, run[i])
    ensures BlockEachOther(c, run[i]) <==> Orphans(c, run[i], MTP_LAYER) >= c.maxAhead
  {
    Reachable(c, run, i);
    forall l | l in run[i].captured && l !in run[i].quantized ensures Orphan(c, run[i], l) {
      IdleLeavesOrphans(c, run[i], l);
    }
    OrphansWait(c, run[i], MTP_LAYER);
  }

  /** An orphan the quantizer is not just about to mark. */
  predicate Stranded(c: Config, a: Sys, l: nat) {
    Orphan(c, a, l) && !(Working(a.quantize) && a.quantize.i < |c.expertLayers| && c.expertLayers[a.quantize.i] == l)
  }

  /** No resume ever marks it: the resumed quantizer finds nothing to do in that layer and goes on. */
  lemma {:induction false} StrandedForever(c: Config, run: seq<Sys>, i: nat, k: nat, l: nat)
    requires IsRun(c, run) && i <= k < |run| && Stranded(c, run[i], l)
    ensures Stranded(c, run[k], l)
  {
    if i < k {
      StrandedForever(c, run, i, k - 1, l);
      StrandedAt(c, run, k, l);
    }
  }

  lemma StrandedAt(c: Config, run: seq<Sys>, k: nat, l: nat)
    requires IsRun(c, run) && 0 < k < |run| && Stranded(c, run[k - 1], l)
    ensures Stranded(c, run[k], l)
  {
    Reachable(c, run, k - 1);
    assert StepAt(c, run, k);
    StrandedStep(c, run[k - 1], run[k], l);
  }

  lemma StrandedStep(c: Config, a: Sys, b: Sys, l: nat)
    requires Inv(c, a) && Next(c, a, b) && Stranded(c, a, l)
    ensures Stranded(c, b, l)
  {
    if QNext(c, a, b) || QKill(a, b) {
      QuantizerKeepsStranded(c, a, b, l);
    } else {
      CaptureLeavesQuantizer(c, a, b);
      CaptureKeepsStranded(c, a, b, l);
    }
  }

  lemma CaptureKeepsStranded(c: Config, a: Sys, b: Sys, l: nat)
    requires b.quantize == a.quantize && b.journal == a.journal && b.quantized == a.quantized &&
               a.captured <= b.captured
    requires Stranded(c, a, l)
    ensures Stranded(c, b, l)
  {
  }

  lemma CaptureLeavesQuantizer(c: Config, a: Sys, b: Sys)
    requires CNext(c, a, b) || CKill(a, b)
    ensures b.quantize == a.quantize && b.journal == a.journal && b.quantized == a.quantized && a.captured <= b.captured
  {
  }

  lemma QuantizerKeepsStranded(c: Config, a: Sys, b: Sys, l: nat)
    requires Inv(c, a) && (QNext(c, a, b) || QKill(a, b)) && Stranded(c, a, l)
    ensures Stranded(c, b, l)
  {
    if a.quantize.QHead? { AllDone(c, a, l, a.quantize.known); }
  }

  /** Orphans of an idle quantizer go on waiting. */
  lemma {:induction false} OrphansGoOnWaiting(c: Config, run: seq<Sys>, i: nat, k: nat, n: nat)
    requires IsRun(c, run) && i <= k < |run| && QuantizerIdle(c, run[i])
    ensures Orphans(c, run[i], n) <= Waiting(run[k].captured, run[k].quantized, n)
    decreases n
  {
    if n > 0 {
      OrphansGoOnWaiting(c, run, i, k, n - 1);
      if Orphan(c, run[i], n - 1) { StrandedForever(c, run, i, k, n - 1); }
    }
  }

  /** The capture stands before layer l, or is off and will start there. */
  ghost predicate Halted(c: Config, a: Sys, l: nat) {
    && l in c.expertLayers && IsMoe(l) && l !in a.captured && a.progress + 1 == l as int <= c.last as int
    && (a.capture == COff || a.capture == CHead(l))
  }

  lemma HaltedStep(c: Config, a: Sys, b: Sys, l: nat)
    requires Halted(c, a, l) && Next(c, a, b) && c.maxAhead > 0 && WaitingIn(a) >= c.maxAhead
    ensures Halted(c, b, l) && b.captured == a.captured
  {
  }

  lemma HaltedAt(c: Config, run: seq<Sys>, k: nat, l: nat)
    requires IsRun(c, run) && 0 < k < |run| && Halted(c, run[k - 1], l)
    requires c.maxAhead > 0 && WaitingIn(run[k - 1]) >= c.maxAhead
    ensures Halted(c, run[k], l) && run[k].captured == run[k - 1].captured
  {
    assert StepAt(c, run, k);
    HaltedStep(c, run[k - 1], run[k], l);
  }

  lemma OrphansFillTheLimit(c: Config, run: seq<Sys>, i: nat, k: nat)
    requires IsRun(c, run) && i <= k < |run| && BlockEachOther(c, run[i])
    ensures WaitingIn(run[k]) >= c.maxAhead
  {
    BlockedIffOrphans(c, run, i);
    OrphansGoOnWaiting(c, run, i, k, MTP_LAYER);
  }

  lemma BlockedIsHalted(c: Config, a: Sys)
    requires Inv(c, a) && CaptureWaits(c, a)
    ensures Halted(c, a, a.capture.l)
  {
  }

  lemma {:induction false} StaysHalted(c: Config, run: seq<Sys>, i: nat, k: nat)
    requires IsRun(c, run) && i <= k < |run| && BlockEachOther(c, run[i])
    ensures run[k].captured == run[i].captured && Halted(c, run[k], run[i].capture.l)
    decreases k
  {
    if i < k {
      StaysHalted(c, run, i, k - 1);
      OrphansFillTheLimit(c, run, i, k - 1);
      HaltedAt(c, run, k, run[i].capture.l);
    } else {
      Reachable(c, run, i);
      BlockedIsHalted(c, run[i]);
    }
  }

  /** Once an idle quantizer blocks the capture, no continuation captures a layer again: whenever the
      capture runs it waits. */
  lemma BlockedForGood(c: Config, run: seq<Sys>, i: nat, k: nat)
    requires IsRun(c, run) && i <= k < |run| && BlockEachOther(c, run[i])
    ensures run[k].captured == run[i].captured && (run[k].capture == COff || CaptureWaits(c, run[k]))
  {
    StaysHalted(c, run, i, k);
    OrphansFillTheLimit(c, run, i, k);
  }

  /** A kill between the last journal line of a layer and its quantized.json strands it. */
  lemma KillBeforeMarkStrands(c: Config, run: seq<Sys>, i: nat)
    requires IsRun(c, run) && i + 1 < |run| && run[i].quantize.QMark? && QKill(run[i], run[i + 1])
    requires run[i].quantize.i < |c.expertLayers| && c.expertLayers[run[i].quantize.i] != MTP_LAYER
    requires c.expertLayers[run[i].quantize.i] !in run[i].quantized
    ensures Stranded(c, run[i + 1], c.expertLayers[run[i].quantize.i])
  {
    Reachable(c, run, i);
    assert c.expertLayers[run[i].quantize.i] in c.expertLayers;
  }

  // ----- A run that ends so: two MoE layers, one expert each, at most one captured layer ahead

  ghost function Then(c: Config, run: seq<Sys>, b: Sys): (longer: seq<Sys>)
    requires IsRun(c, run) && Next(c, run[|run| - 1], b)
    ensures IsRun(c, longer) && longer[|longer| - 1] == b
  {
    OneMoreStep(c, run, b);
    run + [b]
  }

  lemma OneMoreStep(c: Config, run: seq<Sys>, b: Sys)
    requires IsRun(c, run) && Next(c, run[|run| - 1], b)
    ensures IsRun(c, run + [b])
  {
    forall i | 0 < i < |run| + 1 ensures StepAt(c, run + [b], i) {
      if i < |run| { assert StepAt(c, run, i); }
    }
  }

  const SMALL := Config([3, 4], 4, {}, 1, 1)

  lemma AdvanceDense(run: seq<Sys>, a: Sys) returns (longer: seq<Sys>)
    requires IsRun(SMALL, run) && run[|run| - 1] == a && a.capture.CHead? && a.capture.l < 3
    ensures IsRun(SMALL, longer)
    ensures longer[|longer| - 1] == a.(progress := a.capture.l as int, capture := CHead(a.capture.l + 1))
  {
    var l := a.capture.l;
    var b := a.(capture := CRun(l, false, {}));
    var d := b.(capture := CProgress(l));
    var e := d.(progress := l as int, capture := CClean(l));
    assert CEnter(SMALL, a, b) && CLayerRun(SMALL, b, d) && CWritesProgress(d, e);
    longer := Then(SMALL, Then(SMALL, Then(SMALL, run, b), d), e);
    assert CNextLayer(SMALL, e, e.(capture := CHead(l + 1)));
    longer := Then(SMALL, longer, e.(capture := CHead(l + 1)));
  }

  lemma CaptureThree(run: seq<Sys>, a: Sys) returns (longer: seq<Sys>)
    requires IsRun(SMALL, run) && run[|run| - 1] == a
    requires a.capture == CHead(3) && a.captured == a.quantized == {}
    ensures IsRun(SMALL, longer)
    ensures longer[|longer| - 1] == a.(progress := 3, captured := {3}, dumps := a.dumps + {3}, capture := CHead(4))
  {
    NoneWait({}, {}, MTP_LAYER);
    var b := a.(capture := CRun(3, true, {}));
    var d := b.(capture := CDump(3));
    var e := d.(dumps := d.dumps + {3}, capture := CDumped(3));
    var f := e.(captured := {3}, capture := CProgress(3));
    var g := f.(progress := 3, capture := CClean(3));
    assert CEnter(SMALL, a, b) && CLayerRun(SMALL, b, d) && CDumps(d, e);
    assert CWritesCapture(e, f) && CWritesProgress(f, g);
    longer := Then(SMALL, Then(SMALL, Then(SMALL, run, b), d), e);
    longer := Then(SMALL, Then(SMALL, longer, f), g);
    assert CNextLayer(SMALL, g, g.(capture := CHead(4)));
    longer := Then(SMALL, longer, g.(capture := CHead(4)));
  }

  /** The quantizer does layer 3's only expert and is killed before quantized.json; the resumed one goes on
      to layer 4. */
  lemma QuantizeThreeKilled(run: seq<Sys>, a: Sys) returns (longer: seq<Sys>)
    requires IsRun(SMALL, run) && run[|run| - 1] == a && a.quantize == QOff && a.journal == [] && !a.torn
    requires a.captured == {3} && 3 in a.dumps
    ensures IsRun(SMALL, longer)
    ensures longer[|longer| - 1] ==
              a.(placed := a.placed + {(3, 0)}, journal := [(3, 0)], quantize := QHead(1, {(3, 0)}))
  {
    var b := a.(quantize := QHead(0, {}));
    assert Todo(SMALL, 3, {}) == {0} && Entries(a.journal) == {};
    var d := b.(quantize := QWork(0, {}, 0));
    var e := d.(placed := a.placed + {(3, 0)}, quantize := QPlaced(0, {}, 0));
    var f := e.(torn := true, quantize := QAppend(0, {}, 0));
    assert Todo(SMALL, 3, {(3, 0)}) == {};
    var g := f.(torn := false, journal := [(3, 0)], quantize := QMark(0, {(3, 0)}));
    assert QStart(a, b) && IsLeast({0}, 0) && QEnter(SMALL, b, d) && QPlaces(SMALL, d, e) && QAppends(e, f);
    assert {} + {(3, 0)} == {(3, 0)};
    assert QAppended(SMALL, f, g);
    longer := Then(SMALL, Then(SMALL, Then(SMALL, run, b), d), e);
    longer := Then(SMALL, Then(SMALL, longer, f), g);
    var h := g.(quantize := QOff);
    assert Entries([(3, 0)]) == {(3, 0)};
    var i := h.(quantize := QHead(0, {(3, 0)}));
    assert QKill(g, h) && QStart(h, i) && QEnter(SMALL, i, i.(quantize := QHead(1, {(3, 0)})));
    longer := Then(SMALL, Then(SMALL, Then(SMALL, longer, h), i), i.(quantize := QHead(1, {(3, 0)})));
  }

  lemma BlockingIsReachable() returns (run: seq<Sys>)
    ensures IsRun(SMALL, run) && BlockEachOther(SMALL, run[|run| - 1])
  {
    var a := Sys(-1, {}, {}, {}, {}, {}, [], false, COff, QOff);
    var b := a.(capture := CHead(0));
    assert CStart(SMALL, a, b);
    run := Then(SMALL, [a], b);
    run := AdvanceDense(run, b);
    run := AdvanceDense(run, run[|run| - 1]);
    run := AdvanceDense(run, run[|run| - 1]);
    run := CaptureThree(run, run[|run| - 1]);
    run := QuantizeThreeKilled(run, run[|run| - 1]);
    var z := run[|run| - 1];
    NoneWait(z.captured, z.quantized, MTP_LAYER);
    assert 3 in z.captured && IsMoe(3);
    assert 0 in Todo(SMALL, 4, z.quantize.known);
  }

  // ----- Without a quantizer kill the waits never block each other

  ghost predicate Undisturbed(c: Config, run: seq<Sys>) {
    IsRun(c, run) && forall i | 0 < i < |run| :: UndisturbedAt(c, run, i)
  }

  ghost predicate UndisturbedAt(c: Config, run: seq<Sys>, i: nat)
    requires 0 < i < |run|
  {
    CNext(c, run[i - 1], run[i]) || CKill(run[i - 1], run[i]) || QNext(c, run[i - 1], run[i])
  }

  /** Every layer behind the quantizer is marked; nothing ahead of it is journalled. */
  ghost predicate InOrder(c: Config, a: Sys) {
    && (a.quantize == QOff ==> a.journal == [])
    && (a.quantize != QOff ==>
          forall j: nat | j < QIndex(c, a.quantize) && j < |c.expertLayers| :: c.expertLayers[j] in a.quantized)
    && (forall p, j: nat | p in a.journal && j < |c.expertLayers| && p.0 == c.expertLayers[j] ::
          j < QIndex(c, a.quantize) || (j == QIndex(c, a.quantize) && Working(a.quantize)))
  }

  lemma {:induction false} StaysInOrder(c: Config, run: seq<Sys>, i: nat)
    requires Undisturbed(c, run) && i < |run|
    ensures InOrder(c, run[i])
  {
    if i > 0 {
      StaysInOrder(c, run, i - 1);
      Reachable(c, run, i - 1);
      assert UndisturbedAt(c, run, i);
      StepKeepsOrder(c, run[i - 1], run[i]);
    }
  }

  lemma StepKeepsOrder(c: Config, a: Sys, b: Sys)
    requires Inv(c, a) && InOrder(c, a) && (CNext(c, a, b) || CKill(a, b) || QNext(c, a, b))
    ensures InOrder(c, b)
  {
    if QNext(c, a, b) {
      QuantizerKeepsOrder(c, a, b);
    } else {
      assert b.quantize == a.quantize && b.journal == a.journal && b.quantized == a.quantized;
    }
  }

  lemma QuantizerKeepsOrder(c: Config, a: Sys, b: Sys)
    requires Inv(c, a) && InOrder(c, a) && QNext(c, a, b)
    ensures InOrder(c, b)
  {
    if a.quantize.QHead? && a.quantize.i < |c.expertLayers| { AheadIsUntouched(c, a); }
  }

  lemma AheadIsUntouched(c: Config, a: Sys)
    requires Inv(c, a) && InOrder(c, a) && a.quantize.QHead? && a.quantize.i < |c.expertLayers|
    ensures Todo(c, c.expertLayers[a.quantize.i], a.quantize.known) != {}
  {
    var l := c.expertLayers[a.quantize.i];
    assert (l, 0) !in a.journal;
    assert 0 in Todo(c, l, a.quantize.known);
  }

  lemma NeverBlockEachOther(c: Config, run: seq<Sys>, i: nat)
    requires Undisturbed(c, run) && i < |run|
    ensures !BlockEachOther(c, run[i])
  {
    var a := run[i];
    Reachable(c, run, i);
    StaysInOrder(c, run, i);
    if BlockEachOther(c, a) {
      forall l: nat | l < MTP_LAYER && IsMoe(l) && l in a.captured ensures l in a.quantized {
        if l !in a.quantized { BehindTheQuantizer(c, a, l); }
      }
      NoneWait(a.captured, a.quantized, MTP_LAYER);
    }
  }

  lemma BehindTheQuantizer(c: Config, a: Sys, l: nat)
    requires Inv(c, a) && InOrder(c, a) && a.capture.CHead? && Captures(c, a, a.capture.l) && QuantizerIdle(c, a)
    requires l in a.captured
    ensures l in a.quantized
  {
    var j :| 0 <= j < |c.expertLayers| && c.expertLayers[j] == l;
    if QuantizeWaits(c, a) {
      var i := a.quantize.i;
      assert c.expertLayers[i] in c.expertLayers;
      assert l as int <= a.progress < c.expertLayers[i] as int;
      assert j < i;
    }
    assert c.expertLayers[j] in a.quantized;
  }

  // ----- The journal file

  /** Lines stay abstract: `encode` ends them with their only newline, `decode` reads them back. */
  datatype LineCodec = LineCodec(encode: ((nat, nat)) -> Bytes, decode: Bytes -> Option<(nat, nat)>)

  ghost predicate ValidCodec(k: LineCodec) {
    forall p: (nat, nat) :: IsLine(k.encode(p)) && k.decode(k.encode(p)) == Some(p)
  }

  ghost predicate IsLine(b: Bytes) {
    b != [] && b[|b| - 1] == NEWLINE && NEWLINE !in b[..|b| - 1]
  }

  function Encoded(k: LineCodec, j: seq<(nat, nat)>): Bytes {
    if j == [] then [] else k.encode(j[0]) + Encoded(k, j[1..])
  }

  /** raw[:raw.rfind("\n") + 1] */
  function UpToLastNewline(raw: Bytes): Bytes {
    if raw == [] || raw[|raw| - 1] == NEWLINE then raw else UpToLastNewline(raw[..|raw| - 1])
  }

  function Decoded(k: LineCodec, lines: seq<Bytes>): set<(nat, nat)> {
    set i | 0 <= i < |lines| && k.decode(lines[i]).Some? :: k.decode(lines[i]).value
  }

  class JournalFile {
    const k: LineCodec
    var raw: Bytes

    constructor (k: LineCodec)
      ensures this.k == k && raw == []
    {
      this.k := k;
      raw := [];
    }

    /** The entries of the complete lines; a torn last line is cut off the file. */
    method ReadJournal() returns (entries: set<(nat, nat)>)
      modifies this
      ensures raw == UpToLastNewline(old(raw))
      ensures entries == Decoded(k, Lines(raw))
    {
      var keep := UpToLastNewline(raw);
      if |keep| != |raw| {
        raw := keep;
      }
      KeepIsPrefix(old(raw));
      entries := {};
      var lines := Lines(keep);
      for i := 0 to |lines|
        invariant entries == Decoded(k, lines[..i])
        invariant raw == keep
      {
        assert Decoded(k, lines[..i + 1]) == Decoded(k, lines[..i]) +
               match k.decode(lines[i]) case None => {} case Some(p) => {p} by {
          DecodedSnoc(k, lines, i);
        }
        match k.decode(lines[i])
        case None =>
        case Some(p) => entries := entries + {p};
      }
      assert lines[..|lines|] == lines;
    }

    /** Behind complete lines the new line is one more entry, and the next read finds it. */
    method AppendJournal(p: (nat, nat))
      requires ValidCodec(k)
      modifies this
      ensures raw == old(raw) + k.encode(p)
      ensures forall j | old(raw) == Encoded(k, j) :: raw == Encoded(k, j + [p])
      ensures forall j | old(raw) == Encoded(k, j) ::
                UpToLastNewline(raw) == raw && Decoded(k, Lines(raw)) == Entries(j) + {p}
    {
      raw := raw + k.encode(p);
      forall j | old(raw) == Encoded(k, j)
        ensures raw == Encoded(k, j + [p]) && UpToLastNewline(raw) == raw && Decoded(k, Lines(raw)) == Entries(j) + {p}
      {
        EncodedSnoc(k, j, p);
        ReadsBack(k, j + [p]);
        assert Entries(j + [p]) == Entries(j) + {p};
      }
    }
  }

  lemma {:induction false} EncodedSnoc(k: LineCodec, j: seq<(nat, nat)>, p: (nat, nat))
    ensures Encoded(k, j + [p]) == Encoded(k, j) + k.encode(p)
  {
    if j == [] {
      assert [p][1..] == [] && j + [p] == [p];
      assert k.encode(p) + [] == [] + k.encode(p);
    } else {
      EncodedSnoc(k, j[1..], p);
      assert (j + [p])[1..] == j[1..] + [p];
      assert k.encode(j[0]) + (Encoded(k, j[1..]) + k.encode(p)) == (k.encode(j[0]) + Encoded(k, j[1..])) + k.encode(p);
    }
  }

  lemma KeepIsPrefix(raw: Bytes)
    ensures UpToLastNewline(raw) <= raw
  {
    if raw != [] && raw[|raw| - 1] != NEWLINE { KeepIsPrefix(raw[..|raw| - 1]); }
  }

  lemma DecodedSnoc(k: LineCodec, lines: seq<Bytes>, i: nat)
    requires i < |lines|
    ensures Decoded(k, lines[..i + 1]) ==
              Decoded(k, lines[..i]) + match k.decode(lines[i]) case None => {} case Some(p) => {p}
  {
    var a, b := lines[..i], lines[..i + 1];
    forall x | x in Decoded(k, a) ensures x in Decoded(k, b) {
      var n :| 0 <= n < |a| && k.decode(a[n]).Some? && k.decode(a[n]).value == x;
      assert b[n] == a[n];
    }
    assert b[i] == lines[i];
  }

  lemma {:induction false} CutTail(b: Bytes, tail: Bytes)
    requires NEWLINE !in tail && (b == [] || b[|b| - 1] == NEWLINE)
    ensures UpToLastNewline(b + tail) == b
  {
    var raw := b + tail;
    if tail == [] {
      assert raw == b;
    } else {
      assert raw[|raw| - 1] == tail[|tail| - 1] && tail[|tail| - 1] in tail;
      assert raw[..|raw| - 1] == b + tail[..|tail| - 1];
      CutTail(b, tail[..|tail| - 1]);
    }
  }

  lemma FirstLine(line: Bytes, rest: Bytes)
    requires IsLine(line)
    ensures LineLength(line + rest) == |line|
  {
    forall x | 0 <= x < |line| - 1 ensures (line + rest)[x] != NEWLINE { assert line[..|line| - 1][x] == line[x]; }
    LineLengthIs(line + rest, |line|);
  }

  lemma LinesBehind(line: Bytes, rest: Bytes)
    requires IsLine(line)
    ensures Lines(line + rest) == [line] + Lines(rest)
  {
    FirstLine(line, rest);
    assert (line + rest)[..|line|] == line && (line + rest)[|line|..] == rest;
  }

  function EncodedLines(k: LineCodec, j: seq<(nat, nat)>): seq<Bytes> {
    seq(|j|, i requires 0 <= i < |j| => k.encode(j[i]))
  }

  lemma {:induction false} LinesOfEncoded(k: LineCodec, j: seq<(nat, nat)>)
    requires ValidCodec(k)
    ensures Lines(Encoded(k, j)) == EncodedLines(k, j)
  {
    if j != [] {
      LinesOfEncoded(k, j[1..]);
      assert IsLine(k.encode(j[0]));
      LinesBehind(k.encode(j[0]), Encoded(k, j[1..]));
    }
  }

  lemma {:induction false} EncodedEnds(k: LineCodec, j: seq<(nat, nat)>)
    requires ValidCodec(k)
    ensures Encoded(k, j) == [] || Encoded(k, j)[|Encoded(k, j)| - 1] == NEWLINE
  {
    if j != [] {
      assert IsLine(k.encode(j[0]));
      EncodedEnds(k, j[1..]);
    }
  }

  /** A complete file is read back as it was written. */
  lemma ReadsBack(k: LineCodec, j: seq<(nat, nat)>)
    requires ValidCodec(k)
    ensures UpToLastNewline(Encoded(k, j)) == Encoded(k, j) && Decoded(k, Lines(Encoded(k, j))) == Entries(j)
  {
    LinesOfEncoded(k, j);
    EncodedEnds(k, j);
    assert Encoded(k, j) + [] == Encoded(k, j);
    CutTail(Encoded(k, j), []);
    EncodedDecodes(k, j, Lines(Encoded(k, j)));
  }

  lemma EncodedDecodes(k: LineCodec, j: seq<(nat, nat)>, lines: seq<Bytes>)
    requires ValidCodec(k) && |lines| == |j| && forall i | 0 <= i < |j| :: lines[i] == k.encode(j[i])
    ensures Decoded(k, lines) == Entries(j)
  {
    forall i | 0 <= i < |j| ensures k.decode(lines[i]) == Some(j[i]) {
      assert IsLine(k.encode(j[i]));
    }
    forall x | x in Entries(j) ensures x in Decoded(k, lines) {
      var i :| 0 <= i < |j| && j[i] == x;
      assert k.decode(lines[i]).value == x;
    }
  }

  /** A kill inside an append: the next read cuts exactly the torn line and sees exactly the complete ones. */
  lemma TornLineIsCut(k: LineCodec, j: seq<(nat, nat)>, torn: Bytes)
    requires ValidCodec(k) && NEWLINE !in torn
    ensures UpToLastNewline(Encoded(k, j) + torn) == Encoded(k, j)
    ensures Decoded(k, Lines(Encoded(k, j))) == Entries(j)
  {
    EncodedEnds(k, j);
    ReadsBack(k, j);
    CutTail(Encoded(k, j), torn);
  }
}
