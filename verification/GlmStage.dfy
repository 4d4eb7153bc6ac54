/** The staged conversion: tools/glm-stage.py beside the downloader and the converter. */
module GlmStage {
  import opened Common
  import FetchGlm
  import StageJournal

  // ----- What the recipe writes, by tensor name

  const SCALE_SUFFIX := "_scale_inv"
  const LAYERS_PREFIX := "model.language_model.layers."
  const METADATA := "__metadata__"

  predicate StartsWith(s: string, p: string) {
    |p| <= |s| && s[..|p|] == p
  }

  predicate EndsWith(s: string, p: string) {
    |p| <= |s| && s[|s| - |p|..] == p
  }

  predicate Contains(s: string, p: string) {
    StartsWith(s, p) || (s != [] && Contains(s[1..], p))
  }

  /** The part of `s` before the first dot. */
  function Head(s: string): string {
    if s == [] || s[0] == '.' then [] else [s[0]] + Head(s[1..])
  }

  predicate IsDigits(s: string) {
    s != [] && forall i | 0 <= i < |s| :: '0' <= s[i] <= '9'
  }

  function Number(s: string): nat {
    if s == [] then 0
    else 10 * Number(s[..|s| - 1]) + if '0' <= s[|s| - 1] <= '9' then (s[|s| - 1] - '0') as nat else 0
  }

  function LmLayer(name: string): Option<nat> {
    if !StartsWith(name, LAYERS_PREFIX) then None
    else
      var head := Head(name[|LAYERS_PREFIX|..]);
      if IsDigits(head) then Some(Number(head)) else None
  }

  predicate Omitted(name: string, nLayers: nat) {
    || Contains(name, ".visual.")
    || StartsWith(name, "model.visual")
    || (LmLayer(name).Some? && LmLayer(name).value >= nLayers)
  }

  /** The tensor a header name asks for: itself, the weight its scale belongs to, or nothing. */
  function AskedBy(n: string, nLayers: nat): Option<string> {
    if n == METADATA || Omitted(n, nLayers) then None
    else if EndsWith(n, SCALE_SUFFIX) then
      var w := n[..|n| - |SCALE_SUFFIX|];
      if Omitted(w, nLayers) then None else Some(w)
    else Some(n)
  }

  function RequiredTensors(header: set<string>, nLayers: nat): set<string> {
    set n | n in header && AskedBy(n, nLayers).Some? :: AskedBy(n, nLayers).value
  }

  function Elements(s: seq<string>): set<string> {
    set n | n in s
  }

  method CollectRequired(header: seq<string>, nLayers: nat) returns (need: set<string>)
    ensures need == RequiredTensors(Elements(header), nLayers)
  {
    need := {};
    for i := 0 to |header|
      invariant need == RequiredTensors(Elements(header[..i]), nLayers)
    {
      assert Elements(header[..i + 1]) == Elements(header[..i]) + {header[i]};
      var n := header[i];
      if n != METADATA && !Omitted(n, nLayers) {
        if EndsWith(n, SCALE_SUFFIX) {
          var w := n[..|n| - |SCALE_SUFFIX|];
          if !Omitted(w, nLayers) {
            need := need + {w};
          }
        } else {
          need := need + {n};
        }
      }
      RequiredOneMore(Elements(header[..i]), n, nLayers);
    }
    assert header[..|header|] == header;
  }

  lemma RequiredOneMore(names: set<string>, n: string, nLayers: nat)
    ensures RequiredTensors(names + {n}, nLayers)
         == RequiredTensors(names, nLayers) + match AskedBy(n, nLayers) case None => {} case Some(t) => {t}
  {
  }

  // ----- A scale is omitted only with its weight

  lemma {:induction false} ContainsAppend(s: string, p: string, x: string)
    requires p != [] && forall c | c in x :: c != p[|p| - 1]
    requires Contains(s + x, p)
    ensures Contains(s, p)
  {
    if StartsWith(s + x, p) {
      StartsAppend(s, p, x);
    } else if s == [] {
      TailFree(x, p);
    } else {
      assert (s + x)[1..] == s[1..] + x;
      ContainsAppend(s[1..], p, x);
    }
  }

  lemma StartsAppend(s: string, p: string, x: string)
    requires p != [] && forall c | c in x :: c != p[|p| - 1]
    requires StartsWith(s + x, p)
    ensures StartsWith(s, p)
  {
    if |s| < |p| { EndsInSuffix(s, p, x); }
  }

  lemma EndsInSuffix(s: string, p: string, x: string)
    requires |s| < |p| && StartsWith(s + x, p)
    ensures p[|p| - 1] in x
  {
    assert (s + x)[|p| - 1] == x[|p| - 1 - |s|];
  }

  lemma {:induction false} TailFree(x: string, p: string)
    requires p != [] && forall c | c in x :: c != p[|p| - 1]
    ensures !Contains([] + x, p)
  {
    assert [] + x == x;
    if StartsWith(x, p) { EndsInSuffix([], p, x); }
    if x != [] {
      assert forall c | c in x[1..] :: c in x;
      TailFree(x[1..], p);
      assert [] + x[1..] == x[1..];
    }
  }

  lemma {:induction false} HeadAppend(s: string, x: string)
    requires x != [] && !('0' <= x[0] <= '9') && '.' !in x
    ensures Head(s + x) == Head(s) || !IsDigits(Head(s + x))
  {
    if s == [] {
      assert [] + x == x;
      assert Head(x)[0] == x[0];
    } else if s[0] != '.' {
      assert (s + x)[1..] == s[1..] + x;
      HeadAppend(s[1..], x);
      if Head(s[1..] + x) != Head(s[1..]) {
        var h := Head(s[1..] + x);
        assert Head(s + x) == [s[0]] + h;
        HeadNonEmpty(s[1..], x);
        var i :| 0 <= i < |h| && !('0' <= h[i] <= '9');
        assert Head(s + x)[i + 1] == h[i];
      }
    }
  }

  lemma HeadNonEmpty(s: string, x: string)
    requires x != [] && x[0] != '.' && Head(s + x) != Head(s)
    ensures Head(s + x) != []
  {
    if s == [] { assert [] + x == x; }
  }

  lemma OmittedWithItsWeight(t: string, nLayers: nat)
    requires Omitted(t + SCALE_SUFFIX, nLayers)
    ensures Omitted(t, nLayers)
  {
    var n, x := t + SCALE_SUFFIX, SCALE_SUFFIX;
    if Contains(n, ".visual.") {
      ContainsAppend(t, ".visual.", x);
    } else if StartsWith(n, "model.visual") {
      VisualPrefix(t);
    } else {
      StartsAppend(t, LAYERS_PREFIX, x);
      var rest := t[|LAYERS_PREFIX|..];
      assert n[|LAYERS_PREFIX|..] == rest + x;
      HeadAppend(rest, x);
    }
  }

  /** "model.visual" has no underscore, so the suffix cannot complete it. */
  lemma VisualPrefix(t: string)
    requires StartsWith(t + SCALE_SUFFIX, "model.visual")
    ensures StartsWith(t, "model.visual")
  {
    assert '_' !in "model.visual";
    if |t| < |"model.visual"| { SuffixBegins(t, "model.visual", SCALE_SUFFIX); }
  }

  lemma SuffixBegins(s: string, p: string, x: string)
    requires |s| < |p| && StartsWith(s + x, p)
    ensures x != [] && x[0] in p
  {
    assert (s + x)[|s|] == p[|s|];
  }

  // ----- The shared files and the three processes

  datatype Plan = Plan(headers: map<string, set<string>>, meta: map<string, FetchGlm.Meta>,
                       hash: FetchGlm.Hash, nLayers: nat, out: string)

  /** The tensors the conversion writes. */
  ghost predicate Writes(plan: Plan, t: string) {
    && t != METADATA && !EndsWith(t, SCALE_SUFFIX) && !Omitted(t, plan.nLayers)
    && exists s :: s in plan.headers && t in plan.headers[s]
  }

  /** A tensor is read from the shard that holds it and from the shard that holds its block scales. */
  predicate Reads(plan: Plan, t: string, s: string) {
    s in plan.headers && (t in plan.headers[s] || t + SCALE_SUFFIX in plan.headers[s])
  }

  function Need(plan: Plan, s: string): set<string>
    requires s in plan.headers
  {
    RequiredTensors(plan.headers[s], plan.nLayers)
  }

  /** A shard's need names every written tensor that reads it, wherever that tensor itself lives. */
  lemma NeedCoversReaders(plan: Plan, t: string, s: string)
    requires Writes(plan, t) && Reads(plan, t, s)
    ensures t in Need(plan, s)
  {
    if t in plan.headers[s] {
      assert AskedBy(t, plan.nLayers) == Some(t);
    } else {
      var n := t + SCALE_SUFFIX;
      assert n[..|n| - |SCALE_SUFFIX|] == t && EndsWith(n, SCALE_SUFFIX);
      assert !Omitted(n, plan.nLayers) by {
        if Omitted(n, plan.nLayers) { OmittedWithItsWeight(t, plan.nLayers); }
      }
      assert n != METADATA by { assert n[|n| - 1] == 'v'; }
      assert AskedBy(n, plan.nLayers) == Some(t);
    }
  }

  datatype Shard = Shard(files: FetchGlm.Files, done: Option<string>, deleted: bool)

  /** A journal line, and whether the container bytes behind it hash to it. */
  datatype Record = Record(name: string, verifies: bool)

  /** The converter: its journal (absent before the start and after the trailer), the trailer, the tensor in hand. */
  datatype Conv = Conv(journal: Option<seq<Record>>, trailer: Option<set<string>>, pending: Option<string>)

  /** The supervisor between two file operations; `written` is what it read at the start of the pass. */
  datatype Sup =
    | Idle
    | Pass(written: Option<set<string>>)
    | Looked(s: string, written: Option<set<string>>, onDisk: bool)
    | Marking(s: string, written: Option<set<string>>)
    | Unlinking(s: string, written: Option<set<string>>)
    | Recovering(s: string, written: Option<set<string>>)

  /** The downloader: between shards, or inside fetch_file for one. */
  datatype Loader = Between | At(s: string, pc: FetchGlm.Pc)

  datatype Sys = Sys(shards: map<string, Shard>, loader: Loader, conv: Conv, sup: Sup)

  /** Names of the longest verified prefix of a journal. */
  function VerifiedNames(j: seq<Record>): set<string> {
    if j == [] || !j[0].verifies then {} else {j[0].name} + VerifiedNames(j[1..])
  }

  function KeptRecords(j: seq<Record>): seq<Record> {
    if j == [] || !j[0].verifies then [] else [j[0]] + KeptRecords(j[1..])
  }

  function AllNames(j: seq<Record>): set<string> {
    set r | r in j :: r.name
  }

  /** What `Stage.written` returns: the journal's verified prefix, else the trailer, else nothing. */
  function Written(c: Conv): Option<set<string>> {
    match c.journal
    case Some(j) => Some(VerifiedNames(j))
    case None => c.trailer
  }

  function Names(w: Option<set<string>>): set<string> {
    if w.Some? then w.value else {}
  }

  datatype Verdict = NoDone | OtherContainer | NotVerified | NoRecord | Missing(missing: set<string>) | May

  function DeleteVerdict(onDisk: bool, verified: bool, done: bool, doneOutOk: bool,
                         need: set<string>, written: Option<set<string>>): Verdict {
    if !done then NoDone
    else if !doneOutOk then OtherContainer
    else if onDisk && !verified then NotVerified
    else if written.None? then NoRecord
    else if need - written.value != {} then Missing(need - written.value)
    else May
  }

  function VerdictFor(plan: Plan, x: Shard, s: string, onDisk: bool, written: Option<set<string>>): Verdict
    requires s in plan.headers && s in plan.meta
  {
    DeleteVerdict(onDisk, FetchGlm.IsVerified(x.files, plan.meta[s]), x.done.Some?, x.done == Some(plan.out),
                  Need(plan, s), written)
  }

  // ----- Steps: downloader

  ghost predicate LoaderLooks(a: Sys, b: Sys, s: string) {
    a.loader == Between && s in a.shards && !a.shards[s].deleted && b == a.(loader := At(s, FetchGlm.Entry))
  }

  ghost predicate LoaderWorks(plan: Plan, a: Sys, b: Sys) {
    && a.loader.At? && b.loader.At? && a.loader.s == b.loader.s
    && var s := a.loader.s;
       s in a.shards && s in plan.meta && s in b.shards
       && FetchGlm.Next(plan.hash, plan.meta[s], FetchGlm.Dl(a.loader.pc, a.shards[s].files),
                        FetchGlm.Dl(b.loader.pc, b.shards[s].files))
       && b == a.(loader := b.loader, shards := a.shards[s := a.shards[s].(files := b.shards[s].files)])
  }

  ghost predicate LoaderLeaves(a: Sys, b: Sys) {
    a.loader.At? && a.loader.pc == FetchGlm.Finished && b == a.(loader := Between)
  }

  ghost predicate LoaderKilled(a: Sys, b: Sys) {
    b == a.(loader := Between)
  }

  // ----- Steps: converter, as its documentation promises them

  ghost predicate ConvStarts(a: Sys, b: Sys) {
    a.conv == Conv(None, None, None) && b == a.(conv := a.conv.(journal := Some([])))
  }

  ghost predicate ConvReads(plan: Plan, a: Sys, b: Sys, t: string) {
    && a.conv.journal.Some? && a.conv.pending.None? && Writes(plan, t) && t !in AllNames(a.conv.journal.value)
    && (forall s | Reads(plan, t, s) ::
          s in a.shards && s in plan.meta && FetchGlm.IsVerified(a.shards[s].files, plan.meta[s]))
    && b == a.(conv := a.conv.(pending := Some(t)))
  }

  /** What a growth of journal and container does to the records: they stay, and a record may come to verify. */
  ghost predicate Raised(j: seq<Record>, l: seq<Record>) {
    |j| <= |l| && forall i | 0 <= i < |j| :: l[i].name == j[i].name && (j[i].verifies ==> l[i].verifies)
  }

  /** The record may turn out not to verify: nothing below relies on it. */
  ghost predicate ConvRecords(a: Sys, b: Sys, l: seq<Record>) {
    && a.conv.journal.Some? && a.conv.pending.Some?
    && var j := a.conv.journal.value;
       && Raised(j, l) && |l| == |j| + 1 && l[|j|].name == a.conv.pending.value
       && b == a.(conv := a.conv.(journal := Some(l), pending := None))
  }

  /** More bytes of the container or a part of a line, no new record. */
  ghost predicate ConvWrites(a: Sys, b: Sys, l: seq<Record>) {
    && a.conv.journal.Some? && Raised(a.conv.journal.value, l) && |l| == |a.conv.journal.value|
    && b == a.(conv := a.conv.(journal := Some(l)))
  }

  /** `.done` may come at any time: the supervisor checks the journal itself. */
  ghost predicate ConvMarksDone(plan: Plan, a: Sys, b: Sys, s: string) {
    s in a.shards && b == a.(shards := a.shards[s := a.shards[s].(done := Some(plan.out))])
  }

  ghost predicate ConvWritesTrailer(plan: Plan, a: Sys, b: Sys) {
    && a.conv.journal.Some? && (forall t | Writes(plan, t) :: t in AllNames(a.conv.journal.value))
    && b == a.(conv := a.conv.(trailer := Some(AllNames(a.conv.journal.value))))
  }

  ghost predicate ConvRemovesJournal(a: Sys, b: Sys) {
    a.conv.journal.Some? && a.conv.trailer.Some? && a.conv.trailer.value == AllNames(a.conv.journal.value)
    && b == a.(conv := a.conv.(journal := None, pending := None))
  }

  ghost predicate ConvKilled(a: Sys, b: Sys) {
    b == a.(conv := a.conv.(pending := None))
  }

  /** Resume keeps the records that re-hash, up to the first that does not, and cuts the container behind them. */
  ghost predicate ConvResumes(a: Sys, b: Sys) {
    && a.conv.journal.Some?
    && b == a.(conv := Conv(Some(KeptRecords(a.conv.journal.value)), None, None))
  }

  // ----- Steps: supervisor (Stage.one_pass)

  ghost predicate SupStarts(a: Sys, b: Sys) {
    a.sup == Idle && b == a.(sup := Pass(Written(a.conv)))
  }

  ghost predicate SupLooks(a: Sys, b: Sys, s: string) {
    && a.sup.Pass? && s in a.shards
    && b == a.(sup := Looked(s, a.sup.written, a.shards[s].files.final.Some?))
  }

  ghost predicate SupDecides(plan: Plan, a: Sys, b: Sys) {
    && a.sup.Looked? && a.sup.s in a.shards && a.sup.s in plan.headers && a.sup.s in plan.meta
    && var Looked(s, w, onDisk) := a.sup;
       var x := a.shards[s];
       b == a.(sup :=
         if x.deleted && !onDisk then Pass(w)
         else if VerdictFor(plan, x, s, onDisk, w) != May then Pass(w)
         else if onDisk then Marking(s, w)
         else if x.deleted then Pass(w)
         else Recovering(s, w))
  }

  ghost predicate SupMarks(a: Sys, b: Sys) {
    && (a.sup.Marking? || a.sup.Recovering?) && a.sup.s in a.shards
    && b == a.(shards := a.shards[a.sup.s := a.shards[a.sup.s].(deleted := true)],
               sup := if a.sup.Marking? then Unlinking(a.sup.s, a.sup.written) else Pass(a.sup.written))
  }

  /** Removes the shard; a shard that is gone already stops the supervisor. */
  ghost predicate SupUnlinks(a: Sys, b: Sys) {
    && a.sup.Unlinking? && a.sup.s in a.shards
    && var x := a.shards[a.sup.s];
       b == a.(shards := a.shards[a.sup.s := x.(files := x.files.(final := None))],
               sup := if x.files.final.Some? then Pass(a.sup.written) else Idle)
  }

  /** The end of a pass, or a kill. */
  ghost predicate SupStops(a: Sys, b: Sys) {
    b == a.(sup := Idle)
  }

  ghost predicate LoaderNext(plan: Plan, a: Sys, b: Sys) {
    (exists s :: LoaderLooks(a, b, s)) || LoaderWorks(plan, a, b) || LoaderLeaves(a, b) || LoaderKilled(a, b)
  }

  ghost predicate ConvNext(plan: Plan, a: Sys, b: Sys) {
    || ConvStarts(a, b) || (exists t :: ConvReads(plan, a, b, t)) || (exists l :: ConvRecords(a, b, l))
    || (exists l :: ConvWrites(a, b, l)) || (exists s :: ConvMarksDone(plan, a, b, s))
    || ConvWritesTrailer(plan, a, b) || ConvRemovesJournal(a, b) || ConvKilled(a, b) || ConvResumes(a, b)
  }

  ghost predicate SupNext(plan: Plan, a: Sys, b: Sys) {
    || SupStarts(a, b) || (exists s :: SupLooks(a, b, s)) || SupDecides(plan, a, b)
    || SupMarks(a, b) || SupUnlinks(a, b) || SupStops(a, b)
  }

  ghost predicate Next(plan: Plan, a: Sys, b: Sys) {
    LoaderNext(plan, a, b) || ConvNext(plan, a, b) || SupNext(plan, a, b)
  }

  ghost predicate Init(plan: Plan, a: Sys) {
    && a.shards.Keys == plan.headers.Keys == plan.meta.Keys
    && a.loader == Between && a.sup == Idle && a.conv == Conv(None, None, None)
    && forall s | s in a.shards :: !a.shards[s].deleted && FetchGlm.Genuine(plan.hash, plan.meta[s], a.shards[s].files)
  }

  ghost predicate StepAt(plan: Plan, run: seq<Sys>, i: nat)
    requires 0 < i < |run|
  {
    Next(plan, run[i - 1], run[i])
  }

  ghost predicate IsRun(plan: Plan, run: seq<Sys>) {
    run != [] && Init(plan, run[0]) && forall i | 0 < i < |run| :: StepAt(plan, run, i)
  }

  // ----- The invariant

  /** Names of tensors the container already holds for good. */
  function Recorded(c: Conv): set<string> {
    Names(Written(c))
  }

  ghost predicate SoundFiles(plan: Plan, a: Sys) {
    && a.shards.Keys == plan.headers.Keys == plan.meta.Keys
    && (a.loader.At? ==> a.loader.s in a.shards)
    && forall s | s in a.shards ::
         var pc := if a.loader.At? && a.loader.s == s then a.loader.pc else FetchGlm.Entry;
         FetchGlm.Sound(plan.hash, plan.meta[s], FetchGlm.Dl(pc, a.shards[s].files))
  }

  /** A final file holds the record's bytes. */
  ghost predicate FinalMatches(plan: Plan, s: string, x: Shard)
    requires s in plan.meta
  {
    x.files.final.Some? ==>
      |x.files.final.value| == plan.meta[s].size && FetchGlm.Matches(plan.hash, plan.meta[s], x.files.final.value)
  }

  /** Everything that must hold before a shard may go. */
  ghost predicate Cleared(plan: Plan, a: Sys, s: string)
    requires s in plan.headers
  {
    && s in a.shards && a.shards[s].done == Some(plan.out)
    && Written(a.conv).Some? && Need(plan, s) <= Recorded(a.conv)
  }

  ghost predicate SoundSup(plan: Plan, a: Sys) {
    && (!a.sup.Idle? ==> Names(a.sup.written) <= Recorded(a.conv) && (a.sup.written.Some? ==> Written(a.conv).Some?))
    && (a.sup.Marking? || a.sup.Unlinking? || a.sup.Recovering? ==>
          a.sup.s in plan.headers && Cleared(plan, a, a.sup.s))
    && (a.sup.Marking? || a.sup.Unlinking? ==> a.sup.s in plan.meta && FinalMatches(plan, a.sup.s, a.shards[a.sup.s]))
    && (a.sup.Unlinking? ==> a.shards[a.sup.s].deleted)
  }

  ghost predicate Inv(plan: Plan, a: Sys) {
    && SoundFiles(plan, a) && SoundSup(plan, a)
    && forall s | s in a.shards && a.shards[s].deleted :: s in plan.headers && Cleared(plan, a, s)
  }

  lemma {:induction false} KeptVerifies(j: seq<Record>)
    ensures VerifiedNames(KeptRecords(j)) == VerifiedNames(j) <= AllNames(j)
  {
    if j != [] && j[0].verifies { KeptVerifies(j[1..]); }
  }

  lemma {:induction false} RaisedVerifies(j: seq<Record>, l: seq<Record>)
    requires Raised(j, l)
    ensures VerifiedNames(j) <= VerifiedNames(l)
  {
    if j != [] && j[0].verifies { RaisedVerifies(j[1..], l[1..]); }
  }

  lemma ConverterLosesNothing(plan: Plan, a: Sys, b: Sys)
    requires ConvNext(plan, a, b)
    ensures Recorded(a.conv) <= Recorded(b.conv) && (Written(a.conv).Some? ==> Written(b.conv).Some?)
  {
    if a.conv.journal.Some? {
      var j := a.conv.journal.value;
      KeptVerifies(j);
      if l :| ConvRecords(a, b, l) || ConvWrites(a, b, l) { RaisedVerifies(j, l); }
    }
  }

  lemma OnlyTheConverterRecords(plan: Plan, a: Sys, b: Sys)
    requires LoaderNext(plan, a, b) || SupNext(plan, a, b)
    ensures b.conv == a.conv
  {
  }

  /** Nothing the container holds for good is ever lost, and the record of it never disappears. */
  lemma RecordedGrows(plan: Plan, a: Sys, b: Sys)
    requires Next(plan, a, b)
    ensures Recorded(a.conv) <= Recorded(b.conv) && (Written(a.conv).Some? ==> Written(b.conv).Some?)
  {
    if ConvNext(plan, a, b) { ConverterLosesNothing(plan, a, b); } else { OnlyTheConverterRecords(plan, a, b); }
  }

  lemma ClearedStays(plan: Plan, a: Sys, b: Sys, s: string)
    requires Next(plan, a, b) && s in plan.headers && Cleared(plan, a, s)
    ensures Cleared(plan, b, s)
  {
    RecordedGrows(plan, a, b);
  }

  lemma LoaderKeepsFilesSound(plan: Plan, a: Sys, b: Sys)
    requires SoundFiles(plan, a) && LoaderWorks(plan, a, b)
    ensures SoundFiles(plan, b)
  {
    var s := a.loader.s;
    FetchGlm.StepKeepsSound(plan.hash, plan.meta[s], FetchGlm.Dl(a.loader.pc, a.shards[s].files),
                            FetchGlm.Dl(b.loader.pc, b.shards[s].files));
  }

  lemma OthersOnlyRemove(plan: Plan, a: Sys, b: Sys)
    requires ConvNext(plan, a, b) || SupNext(plan, a, b)
    ensures b.loader == a.loader && SameFilesButRemoved(a, b)
  {
  }

  lemma FilesStaySound(plan: Plan, a: Sys, b: Sys)
    requires SoundFiles(plan, a) && Next(plan, a, b)
    ensures SoundFiles(plan, b)
  {
    if LoaderWorks(plan, a, b) {
      LoaderKeepsFilesSound(plan, a, b);
    } else if ConvNext(plan, a, b) || SupNext(plan, a, b) {
      OthersOnlyRemove(plan, a, b);
    } else {
      assert b.shards == a.shards;
    }
  }

  /** `.done`, `.deleted` and the removal leave every other file of every shard alone. */
  ghost predicate SameFilesButRemoved(a: Sys, b: Sys) {
    && b.shards.Keys == a.shards.Keys
    && forall s | s in b.shards ::
         b.shards[s].files == a.shards[s].files || b.shards[s].files == a.shards[s].files.(final := None)
  }

  lemma FinalStaysMatched(plan: Plan, a: Sys, b: Sys, s: string)
    requires SoundFiles(plan, a) && Next(plan, a, b) && s in a.shards && FinalMatches(plan, s, a.shards[s])
    ensures s in b.shards && FinalMatches(plan, s, b.shards[s])
  {
    if LoaderNext(plan, a, b) {
      LoaderKeepsMatch(plan, a, b, s);
    } else {
      OthersOnlyRemove(plan, a, b);
    }
  }

  lemma LoaderKeepsMatch(plan: Plan, a: Sys, b: Sys, s: string)
    requires SoundFiles(plan, a) && LoaderNext(plan, a, b) && s in a.shards && FinalMatches(plan, s, a.shards[s])
    ensures s in b.shards && FinalMatches(plan, s, b.shards[s])
  {
  }

  lemma DecisionIsSound(plan: Plan, a: Sys, b: Sys)
    requires Inv(plan, a) && SupDecides(plan, a, b)
    ensures SoundSup(plan, b)
  {
    var Looked(s, w, onDisk) := a.sup;
    if VerdictFor(plan, a.shards[s], s, onDisk, w) == May {
      forall t | t in Need(plan, s) ensures t in w.value {
        assert t !in Need(plan, s) - w.value;
      }
    }
  }

  lemma SupKeepsSupSound(plan: Plan, a: Sys, b: Sys)
    requires Inv(plan, a) && SupNext(plan, a, b)
    ensures SoundSup(plan, b)
  {
    if SupDecides(plan, a, b) { DecisionIsSound(plan, a, b); }
  }

  lemma SupUntouched(plan: Plan, a: Sys, b: Sys)
    requires LoaderNext(plan, a, b) || ConvNext(plan, a, b)
    ensures b.sup == a.sup && forall s | s in a.shards && a.shards[s].deleted :: s in b.shards && b.shards[s].deleted
  {
  }

  lemma OthersKeepSupSound(plan: Plan, a: Sys, b: Sys)
    requires Inv(plan, a) && (LoaderNext(plan, a, b) || ConvNext(plan, a, b))
    ensures SoundSup(plan, b)
  {
    SupUntouched(plan, a, b);
    RecordedGrows(plan, a, b);
    if a.sup.Marking? || a.sup.Unlinking? || a.sup.Recovering? {
      ClearedStays(plan, a, b, a.sup.s);
      if !a.sup.Recovering? { FinalStaysMatched(plan, a, b, a.sup.s); }
    }
  }

  /** Only the supervisor writes the marker. */
  lemma NewlyDeleted(plan: Plan, a: Sys, b: Sys, s: string)
    requires SoundFiles(plan, a) && Next(plan, a, b) && s in b.shards && b.shards[s].deleted
    requires s in a.shards && !a.shards[s].deleted
    ensures SupMarks(a, b) && a.sup.s == s
  {
  }

  lemma SameShards(plan: Plan, a: Sys, b: Sys)
    requires Next(plan, a, b)
    ensures b.shards.Keys == a.shards.Keys
  {
  }

  lemma DeletedStaysCleared(plan: Plan, a: Sys, b: Sys, s: string)
    requires Inv(plan, a) && Next(plan, a, b) && s in b.shards && b.shards[s].deleted
    ensures s in plan.headers && Cleared(plan, b, s)
  {
    SameShards(plan, a, b);
    if !a.shards[s].deleted { NewlyDeleted(plan, a, b, s); }
    ClearedStays(plan, a, b, s);
  }

  lemma StepKeepsInv(plan: Plan, a: Sys, b: Sys)
    requires Inv(plan, a) && Next(plan, a, b)
    ensures Inv(plan, b)
  {
    FilesStaySound(plan, a, b);
    if SupNext(plan, a, b) { SupKeepsSupSound(plan, a, b); } else { OthersKeepSupSound(plan, a, b); }
    forall s | s in b.shards && b.shards[s].deleted ensures s in plan.headers && Cleared(plan, b, s) {
      DeletedStaysCleared(plan, a, b, s);
    }
  }

  lemma {:induction false} Reachable(plan: Plan, run: seq<Sys>, i: nat)
    requires IsRun(plan, run) && i < |run|
    ensures Inv(plan, run[i])
  {
    if i > 0 {
      Reachable(plan, run, i - 1);
      assert StepAt(plan, run, i);
      StepKeepsInv(plan, run[i - 1], run[i]);
    } else {
      forall s | s in run[0].shards
        ensures FetchGlm.Sound(plan.hash, plan.meta[s], FetchGlm.Dl(FetchGlm.Entry, run[0].shards[s].files))
      {
        assert FetchGlm.Genuine(plan.hash, plan.meta[s], run[0].shards[s].files);
      }
    }
  }

  // ----- What the records stand for: the lines of the journal file

  /** A journal file beside a container, as the records of this model. */
  function RecordsOf(k: StageJournal.Codec, lines: seq<Bytes>, c: Option<Bytes>): seq<Record> {
    seq(|lines|, i requires 0 <= i < |lines| =>
      Record(if k.parse(lines[i]).Some? then k.parse(lines[i]).value.name else "",
             StageJournal.RecordFits(k, lines, i, c)))
  }

  /** The records of the journal as it is on disk. */
  function RecordsIn(k: StageJournal.Codec, now: StageJournal.Snapshot): seq<Record>
    requires Lines(now.journal) != []
  {
    RecordsOf(k, Lines(now.journal)[1..], now.container)
  }

  ghost predicate GoodHead(k: StageJournal.Codec, now: StageJournal.Snapshot) {
    Lines(now.journal) != [] && k.isHead(Lines(now.journal)[0])
  }

  /** The first records verify up to where a fresh check stops, and not beyond. */
  lemma FreshVerifies(k: StageJournal.Codec, now: StageJournal.Snapshot) returns (n: nat)
    requires GoodHead(k, now)
    ensures StageJournal.Fresh(k, now.journal, now.container).Upto?
    ensures n == StageJournal.Fresh(k, now.journal, now.container).prefix.n <= |RecordsIn(k, now)|
    ensures forall i | 0 <= i < n :: RecordsIn(k, now)[i].verifies
    ensures n < |RecordsIn(k, now)| ==> !RecordsIn(k, now)[n].verifies
  {
    var lines := Lines(now.journal)[1..];
    StageJournal.FreshIsLongestPrefix(k, now.journal, now.container);
    n := StageJournal.Fresh(k, now.journal, now.container).prefix.n;
    assert !StageJournal.Verified(k, lines, n + 1, now.container);
    forall i | 0 <= i < n ensures RecordsIn(k, now)[i].verifies {
      assert StageJournal.RecordFits(k, lines, i, now.container);
    }
  }

  /** A fresh check returns the names of the verified records. */
  lemma FreshNames(k: StageJournal.Codec, now: StageJournal.Snapshot)
    requires GoodHead(k, now)
    ensures StageJournal.Fresh(k, now.journal, now.container).Upto?
    ensures VerifiedNames(RecordsIn(k, now)) == StageJournal.Fresh(k, now.journal, now.container).prefix.names
  {
    var lines, j := Lines(now.journal)[1..], RecordsIn(k, now);
    var n := FreshVerifies(k, now);
    StageJournal.FreshIsLongestPrefix(k, now.journal, now.container);
    VerifiedNamesOfPrefix(j, n);
    var here, there := NamesBelow(j, n), StageJournal.NamesOf(k, lines[..n]);
    forall i | 0 <= i < n ensures j[i].name in there {
      assert StageJournal.RecordFits(k, lines, i, now.container) && lines[..n][i] == lines[i];
    }
    forall x | x in there ensures x in here {
      var i :| 0 <= i < n && k.parse(lines[..n][i]).Some? && k.parse(lines[..n][i]).value.name == x;
      assert j[i].name == x;
    }
    assert here == there;
  }

  /** What the one object the supervisor keeps returns, after any refreshes at any moments of any history of
      growth and converter resumes, is exactly what this model lets it see. */
  lemma CheckedNamesAreVerifiedNames(k: StageJournal.Codec, files: seq<StageJournal.Snapshot>, at: seq<nat>)
    requires StageJournal.History(k, files) && StageJournal.Moments(at, |files|) && at != []
    requires GoodHead(k, files[at[|at| - 1]])
    ensures StageJournal.AfterAll(k, files, at).Upto?
    ensures VerifiedNames(RecordsIn(k, files[at[|at| - 1]])) == StageJournal.AfterAll(k, files, at).prefix.names
  {
    StageJournal.IncrementalIsExact(k, files, at);
    FreshNames(k, files[at[|at| - 1]]);
  }

  /** A converter resume of the files is the resume of this model: the kept records, all verified. */
  lemma ResumeKeepsRecords(k: StageJournal.Codec, a: StageJournal.Snapshot, b: StageJournal.Snapshot)
    requires StageJournal.Resumed(k, a, b) && GoodHead(k, a)
    ensures GoodHead(k, b) && RecordsIn(k, b) == KeptRecords(RecordsIn(k, a))
  {
    var n := FreshVerifies(k, a);
    StageJournal.ResumeKeepsVerified(k, a, b);
    KeptOfPrefix(RecordsIn(k, a), n);
    var was, kept := Lines(a.journal)[1..], Lines(b.journal)[1..];
    assert kept == was[..n];
    forall i | 0 <= i < n ensures RecordsIn(k, b)[i] == RecordsIn(k, a)[i] {
      assert StageJournal.RecordFits(k, kept, i, b.container) && RecordsIn(k, a)[i].verifies;
    }
  }

  /** The records of this state are the journal lines on disk. */
  ghost predicate Backed(k: StageJournal.Codec, a: Sys, now: StageJournal.Snapshot) {
    a.conv.journal.Some? ==> GoodHead(k, now) && RecordsIn(k, now) == a.conv.journal.value
  }

  lemma ResumeStaysBacked(k: StageJournal.Codec, a: Sys, b: Sys, was: StageJournal.Snapshot, now: StageJournal.Snapshot)
    requires ConvResumes(a, b) && Backed(k, a, was) && StageJournal.Resumed(k, was, now)
    ensures Backed(k, b, now)
  {
    ResumeKeepsRecords(k, was, now);
  }

  /** Growth of the two files only adds records and never undoes one that verifies. */
  lemma GrowthRaises(k: StageJournal.Codec, was: StageJournal.Snapshot, now: StageJournal.Snapshot)
    requires StageJournal.Grown(was, now) && GoodHead(k, was)
    ensures GoodHead(k, now) && Raised(RecordsIn(k, was), RecordsIn(k, now))
  {
    LinesGrow(was.journal, now.journal);
    var d, e := Lines(was.journal)[1..], Lines(now.journal)[1..];
    forall i | 0 <= i < |d| ensures d[i] == e[i] && (StageJournal.RecordFits(k, d, i, was.container) ==>
                                                      StageJournal.RecordFits(k, e, i, now.container)) {
      FitsInMore(k, d, e, i, was.container, now.container);
    }
  }

  lemma FitsInMore(k: StageJournal.Codec, d: seq<Bytes>, e: seq<Bytes>, i: nat, c0: Option<Bytes>, c1: Option<Bytes>)
    requires d <= e && i < |d| && StageJournal.Grows(c0, c1)
    ensures StageJournal.RecordFits(k, d, i, c0) ==> StageJournal.RecordFits(k, e, i, c1)
  {
    assert StageJournal.EndOf(k, d, i) == StageJournal.EndOf(k, e, i);
    if StageJournal.RecordFits(k, d, i, c0) {
      var rec := k.parse(d[i]).value;
      var end := StageJournal.BLOB_START + rec.off + rec.len;
      assert StageJournal.SameBelow(c0, c1, end);
      StageJournal.FitsKept(k, i, StageJournal.EndOf(k, d, i), rec, c0, c1, end);
    }
  }

  lemma {:induction false} LinesGrow(d: Bytes, e: Bytes)
    requires d <= e
    ensures Lines(d) <= Lines(e)
    decreases |d|
  {
    var m := LineLength(d);
    if m > 0 {
      LineLengthGrows(d, e);
      assert e[..m] == d[..m] && d[m..] <= e[m..];
      LinesGrow(d[m..], e[m..]);
      StageJournal.LinesCons(d, m);
      StageJournal.LinesCons(e, m);
    }
  }

  /** A growth by no record, or by the one in hand, is a step of the converter. */
  lemma GrowthIsAStep(k: StageJournal.Codec, plan: Plan, a: Sys, was: StageJournal.Snapshot, now: StageJournal.Snapshot)
      returns (b: Sys)
    requires a.conv.journal.Some? && Backed(k, a, was) && StageJournal.Grown(was, now)
    requires Lines(now.journal) != [] && var n := |a.conv.journal.value|;
             || |RecordsIn(k, now)| == n
             || (|RecordsIn(k, now)| == n + 1 && a.conv.pending == Some(RecordsIn(k, now)[n].name))
    ensures ConvNext(plan, a, b) && Backed(k, b, now)
    ensures b.shards == a.shards && b.conv.journal == Some(RecordsIn(k, now))
    ensures b.conv.pending == if |RecordsIn(k, now)| == |a.conv.journal.value| then a.conv.pending else None
  {
    GrowthRaises(k, was, now);
    var l := RecordsIn(k, now);
    if |l| == |a.conv.journal.value| {
      b := a.(conv := a.conv.(journal := Some(l)));
      assert ConvWrites(a, b, l);
    } else {
      b := a.(conv := a.conv.(journal := Some(l), pending := None));
      assert ConvRecords(a, b, l);
    }
  }

  /** Every shard is on disk and verified, so the converter can read whatever it writes. */
  ghost predicate AllOnDisk(plan: Plan, a: Sys) {
    forall s | s in plan.headers ::
      s in a.shards && s in plan.meta && FetchGlm.IsVerified(a.shards[s].files, plan.meta[s])
  }

  /** A growth by one record at most, of a tensor that is written and has none yet. */
  ghost predicate Appends(k: StageJournal.Codec, plan: Plan, was: StageJournal.Snapshot, now: StageJournal.Snapshot) {
    && StageJournal.Grown(was, now) && GoodHead(k, was) && GoodHead(k, now)
    && var j, l := RecordsIn(k, was), RecordsIn(k, now);
       |l| == |j| || (|l| == |j| + 1 && Writes(plan, l[|j|].name) && l[|j|].name !in AllNames(j))
  }

  /** The files of one conversion over time, kills and resumes included. */
  ghost predicate Conversion(k: StageJournal.Codec, plan: Plan, files: seq<StageJournal.Snapshot>) {
    && files != [] && GoodHead(k, files[0]) && RecordsIn(k, files[0]) == []
    && forall i | 0 < i < |files| :: ConversionStep(k, plan, files, i)
  }

  ghost predicate ConversionStep(k: StageJournal.Codec, plan: Plan, files: seq<StageJournal.Snapshot>, i: nat)
    requires 0 < i < |files|
  {
    Appends(k, plan, files[i - 1], files[i]) || StageJournal.Resumed(k, files[i - 1], files[i])
  }

  /** The converter stands between two tensors over these files. */
  ghost predicate AtRest(k: StageJournal.Codec, plan: Plan, a: Sys, now: StageJournal.Snapshot) {
    a.conv.journal.Some? && a.conv.pending.None? && AllOnDisk(plan, a) && GoodHead(k, now) && Backed(k, a, now)
  }

  /** The converter takes the tensor whose record comes next in hand. */
  lemma ReadsTensor(k: StageJournal.Codec, plan: Plan, run: seq<Sys>, was: StageJournal.Snapshot, t: string)
      returns (longer: seq<Sys>)
    requires IsRun(plan, run) && AtRest(k, plan, run[|run| - 1], was)
    requires Writes(plan, t) && t !in AllNames(RecordsIn(k, was))
    ensures IsRun(plan, longer) && run < longer
    ensures longer[|longer| - 1] == run[|run| - 1].(conv := run[|run| - 1].conv.(pending := Some(t)))
  {
    var a := run[|run| - 1];
    var b := a.(conv := a.conv.(pending := Some(t)));
    assert ConvReads(plan, a, b, t);
    longer := OneMoreStep(plan, run, b);
  }

  lemma FollowsGrowth(k: StageJournal.Codec, plan: Plan, run: seq<Sys>, was: StageJournal.Snapshot,
                      now: StageJournal.Snapshot)
      returns (longer: seq<Sys>)
    requires IsRun(plan, run) && run[|run| - 1].conv.journal.Some? && AllOnDisk(plan, run[|run| - 1])
    requires Backed(k, run[|run| - 1], was) && StageJournal.Grown(was, now) && GoodHead(k, now)
    requires var l, n := RecordsIn(k, now), |run[|run| - 1].conv.journal.value|;
             if |l| == n then run[|run| - 1].conv.pending.None?
             else |l| == n + 1 && run[|run| - 1].conv.pending == Some(l[n].name)
    ensures IsRun(plan, longer) && run < longer && AtRest(k, plan, longer[|longer| - 1], now)
  {
    var b := GrowthIsAStep(k, plan, run[|run| - 1], was, now);
    longer := OneMoreStep(plan, run, b);
  }

  lemma FollowsAppend(k: StageJournal.Codec, plan: Plan, run: seq<Sys>, was: StageJournal.Snapshot,
                      now: StageJournal.Snapshot)
      returns (longer: seq<Sys>)
    requires IsRun(plan, run) && AtRest(k, plan, run[|run| - 1], was) && Appends(k, plan, was, now)
    ensures IsRun(plan, longer) && run < longer && AtRest(k, plan, longer[|longer| - 1], now)
  {
    var j, l := RecordsIn(k, was), RecordsIn(k, now);
    if |l| == |j| {
      longer := FollowsGrowth(k, plan, run, was, now);
    } else {
      var middle := ReadsTensor(k, plan, run, was, l[|j|].name);
      longer := FollowsGrowth(k, plan, middle, was, now);
    }
  }

  lemma FollowsResume(k: StageJournal.Codec, plan: Plan, run: seq<Sys>, was: StageJournal.Snapshot,
                      now: StageJournal.Snapshot)
      returns (longer: seq<Sys>)
    requires IsRun(plan, run) && AtRest(k, plan, run[|run| - 1], was) && StageJournal.Resumed(k, was, now)
    ensures IsRun(plan, longer) && run < longer && AtRest(k, plan, longer[|longer| - 1], now)
  {
    var a := run[|run| - 1];
    var b := a.(conv := Conv(Some(KeptRecords(a.conv.journal.value)), None, None));
    assert ConvResumes(a, b);
    ResumeKeepsRecords(k, was, now);
    longer := OneMoreStep(plan, run, b);
  }

  /** `at` names the state of the run that stands for each moment of the files. */
  ghost predicate Tracks(k: StageJournal.Codec, run: seq<Sys>, at: seq<nat>, files: seq<StageJournal.Snapshot>) {
    && |at| == |files| && (forall i, j | 0 <= i < j < |at| :: at[i] < at[j])
    && forall i | 0 <= i < |at| :: TracksAt(k, run, at[i], files[i])
  }

  ghost predicate TracksAt(k: StageJournal.Codec, run: seq<Sys>, i: nat, now: StageJournal.Snapshot) {
    i < |run| && run[i].conv.journal.Some? && Backed(k, run[i], now)
  }

  lemma TracksOneMore(k: StageJournal.Codec, run: seq<Sys>, at: seq<nat>, files: seq<StageJournal.Snapshot>,
                      longer: seq<Sys>, now: StageJournal.Snapshot)
    requires Tracks(k, run, at, files) && run < longer && TracksAt(k, longer, |longer| - 1, now)
    ensures Tracks(k, longer, at + [|longer| - 1], files + [now])
  {
    var more := at + [|longer| - 1];
    forall i | 0 <= i < |at| ensures at[i] < |longer| - 1 && TracksAt(k, longer, at[i], files[i]) {
      assert TracksAt(k, run, at[i], files[i]);
    }
  }

  lemma StartsConversion(k: StageJournal.Codec, plan: Plan, a: Sys, now: StageJournal.Snapshot) returns (run: seq<Sys>)
    requires Init(plan, a) && AllOnDisk(plan, a) && GoodHead(k, now) && RecordsIn(k, now) == []
    ensures IsRun(plan, run) && run[0] == a && |run| == 2 && AtRest(k, plan, run[1], now)
  {
    var started := a.(conv := a.conv.(journal := Some([])));
    assert ConvStarts(a, started);
    run := OneMoreStep(plan, [a], started);
  }

  lemma FollowsStep(k: StageJournal.Codec, plan: Plan, run: seq<Sys>, files: seq<StageJournal.Snapshot>, n: nat)
      returns (longer: seq<Sys>)
    requires 0 < n < |files| && ConversionStep(k, plan, files, n)
    requires IsRun(plan, run) && AtRest(k, plan, run[|run| - 1], files[n - 1])
    ensures IsRun(plan, longer) && run < longer && AtRest(k, plan, longer[|longer| - 1], files[n])
    ensures TracksAt(k, longer, |longer| - 1, files[n])
  {
    if Appends(k, plan, files[n - 1], files[n]) {
      longer := FollowsAppend(k, plan, run, files[n - 1], files[n]);
    } else {
      longer := FollowsResume(k, plan, run, files[n - 1], files[n]);
    }
  }

  /** Whatever the files of a conversion go through, kills and resumes included, a run of the protocol goes through
      the same: at every moment its records are the journal lines on disk. */
  lemma {:induction false} FilesHaveARun(k: StageJournal.Codec, plan: Plan, a: Sys, files: seq<StageJournal.Snapshot>)
      returns (run: seq<Sys>, at: seq<nat>)
    requires Conversion(k, plan, files) && Init(plan, a) && AllOnDisk(plan, a)
    ensures IsRun(plan, run) && run[0] == a && Tracks(k, run, at, files)
    ensures AtRest(k, plan, run[|run| - 1], files[|files| - 1])
    decreases |files|
  {
    var n := |files| - 1;
    if n == 0 {
      run := StartsConversion(k, plan, a, files[0]);
      at := [1];
      assert TracksAt(k, run, 1, files[0]);
    } else {
      var rest := Earlier(k, plan, files);
      var before, moments := FilesHaveARun(k, plan, a, rest);
      assert ConversionStep(k, plan, files, n);
      run := FollowsStep(k, plan, before, files, n);
      TracksOneMore(k, before, moments, rest, run, files[n]);
      assert files == rest + [files[n]];
      at := moments + [|run| - 1];
    }
  }

  ghost function Earlier(k: StageJournal.Codec, plan: Plan, files: seq<StageJournal.Snapshot>)
      : (rest: seq<StageJournal.Snapshot>)
    requires Conversion(k, plan, files) && |files| > 1
    ensures rest == files[..|files| - 1] && Conversion(k, plan, rest)
  {
    var rest := files[..|files| - 1];
    assert forall i | 0 < i < |rest| :: ConversionStep(k, plan, rest, i) by {
      forall i | 0 < i < |rest| ensures ConversionStep(k, plan, rest, i) {
        assert ConversionStep(k, plan, files, i);
      }
    }
    rest
  }

  /** So the pass of this model starts with what the kept object returns, resumes in its past included. */
  lemma PassReadsTheObject(k: StageJournal.Codec, a: Sys, b: Sys, files: seq<StageJournal.Snapshot>, at: seq<nat>)
    requires SupStarts(a, b) && a.conv.journal.Some?
    requires StageJournal.History(k, files) && StageJournal.Moments(at, |files|) && at != []
    requires Backed(k, a, files[at[|at| - 1]])
    ensures StageJournal.AfterAll(k, files, at).Upto?
    ensures b.sup == Pass(Some(StageJournal.AfterAll(k, files, at).prefix.names))
  {
    CheckedNamesAreVerifiedNames(k, files, at);
  }

  lemma {:induction false} KeptOfPrefix(j: seq<Record>, n: nat)
    requires n <= |j| && (forall i | 0 <= i < n :: j[i].verifies) && (n < |j| ==> !j[n].verifies)
    ensures KeptRecords(j) == j[..n]
  {
    if n > 0 {
      KeptOfPrefix(j[1..], n - 1);
      assert j[..n] == [j[0]] + j[1..][..n - 1];
    }
  }

  function NamesBelow(j: seq<Record>, n: nat): set<string>
    requires n <= |j|
  {
    set i | 0 <= i < n :: j[i].name
  }

  lemma {:induction false} VerifiedNamesOfPrefix(j: seq<Record>, n: nat)
    requires n <= |j| && (forall i | 0 <= i < n :: j[i].verifies) && (n < |j| ==> !j[n].verifies)
    ensures VerifiedNames(j) == NamesBelow(j, n)
  {
    if n > 0 {
      VerifiedNamesOfPrefix(j[1..], n - 1);
      forall x | x in NamesBelow(j, n) ensures x in {j[0].name} + NamesBelow(j[1..], n - 1) {
        var i :| 0 <= i < n && j[i].name == x;
        if i > 0 { assert j[1..][i - 1].name == x; }
      }
    }
  }

  // ----- Delete-behind safety

  /** In every reachable state a written tensor that is not recorded has every shard it reads undeleted. */
  lemma NoNeededShardDeleted(plan: Plan, run: seq<Sys>, i: nat, t: string, s: string)
    requires IsRun(plan, run) && i < |run|
    requires Writes(plan, t) && Reads(plan, t, s) && t !in Recorded(run[i].conv)
    ensures s in run[i].shards && !run[i].shards[s].deleted && !(run[i].sup.Unlinking? && run[i].sup.s == s)
  {
    Reachable(plan, run, i);
    NeedCoversReaders(plan, t, s);
  }

  /** What a resumed converter still has to write needs no deleted shard. */
  lemma ResumeNeedsNoDeletedShard(plan: Plan, run: seq<Sys>, i: nat, b: Sys, t: string, s: string)
    requires IsRun(plan, run) && i < |run| && ConvResumes(run[i], b)
    requires Writes(plan, t) && Reads(plan, t, s) && t !in AllNames(b.conv.journal.value)
    ensures s in b.shards && !b.shards[s].deleted
  {
    var j := run[i].conv.journal.value;
    KeptVerifies(j);
    KeptVerifies(KeptRecords(j));
    NoNeededShardDeleted(plan, run, i, t, s);
  }

  /** The supervisor removes a shard only when every guard holds at that very moment. */
  lemma UnlinkIsGuarded(plan: Plan, run: seq<Sys>, i: nat, s: string)
    requires IsRun(plan, run) && i + 1 < |run| && SupUnlinks(run[i], run[i + 1]) && run[i].sup.s == s
    ensures s in plan.headers && Cleared(plan, run[i], s) && run[i].shards[s].deleted
    ensures s in plan.meta && FinalMatches(plan, s, run[i].shards[s])
    ensures forall t | Writes(plan, t) && Reads(plan, t, s) :: t in Recorded(run[i].conv)
  {
    Reachable(plan, run, i);
    forall t | Writes(plan, t) && Reads(plan, t, s) ensures t in Recorded(run[i].conv) {
      NeedCoversReaders(plan, t, s);
    }
  }

  /** A kill between the marker and the removal: the next pass passes the same guards and removes the shard. */
  lemma NextPassCompletes(plan: Plan, run: seq<Sys>, i: nat, s: string) returns (pass: seq<Sys>)
    requires IsRun(plan, run) && i < |run| && run[i].sup == Idle
    requires s in run[i].shards && s in plan.meta && run[i].shards[s].deleted
    requires FetchGlm.IsVerified(run[i].shards[s].files, plan.meta[s])
    ensures |pass| == 6 && pass[0] == run[i] && forall k | 0 < k < 6 :: SupNext(plan, pass[k - 1], pass[k])
    ensures s in pass[5].shards && pass[5].shards[s].files.final.None? && pass[5].shards[s].deleted
  {
    var a := run[i];
    Reachable(plan, run, i);
    var w := Written(a.conv);
    var x := a.shards[s];
    assert VerdictFor(plan, x, s, true, w) == May;
    var p1 := a.(sup := Pass(w));
    var p2 := p1.(sup := Looked(s, w, true));
    var p3 := p2.(sup := Marking(s, w));
    var p4 := p3.(shards := p3.shards[s := x.(deleted := true)], sup := Unlinking(s, w));
    var p5 := p4.(shards := p4.shards[s := p4.shards[s].(files := p4.shards[s].files.(final := None))], sup := Pass(w));
    pass := [a, p1, p2, p3, p4, p5];
    assert SupStarts(a, p1) && SupLooks(p1, p2, s) && SupDecides(plan, p2, p3);
    assert SupMarks(p3, p4) && SupUnlinks(p4, p5);
  }

  // ----- "Never fetched again": when it holds and when it does not

  /** The call of the downloader that is under way for `s`. */
  function CallFor(a: Sys, s: string): FetchGlm.Dl
    requires s in a.shards && a.loader.At? && a.loader.s == s
  {
    FetchGlm.Dl(a.loader.pc, a.shards[s].files)
  }

  /** A call is under way for `s` and stands where it can still fetch or place bytes. */
  predicate CanRefetch(plan: Plan, a: Sys, s: string) {
    && s in a.shards && s in plan.meta && a.loader.At? && a.loader.s == s
    && FetchGlm.CanFetch(plan.meta[s], CallFor(a, s))
  }

  /** `s` was deleted, and no call is under way for it but one that is past fetching. */
  ghost predicate LeftBehind(plan: Plan, a: Sys, s: string) {
    && s in a.shards && a.shards[s].deleted
    && (a.loader.At? && a.loader.s == s ==> a.shards[s].files.final.None? && !CanRefetch(plan, a, s))
  }

  /** No new bytes of `s`: `.part` untouched, the final file untouched or removed. */
  ghost predicate NotRefetched(a: Sys, b: Sys, s: string) {
    && s in a.shards && s in b.shards
    && b.shards[s].files.part == a.shards[s].files.part
    && (b.shards[s].files.final.Some? ==> b.shards[s].files.final == a.shards[s].files.final)
  }

  lemma NotRefetchedTwice(a: Sys, b: Sys, c: Sys, s: string)
    requires NotRefetched(a, b, s) && NotRefetched(b, c, s)
    ensures NotRefetched(a, c, s)
  {
  }

  lemma LoaderStaysPast(plan: Plan, a: Sys, b: Sys, s: string)
    requires LoaderNext(plan, a, b) && LeftBehind(plan, a, s)
    ensures LeftBehind(plan, b, s) && NotRefetched(a, b, s)
  {
    if LoaderWorks(plan, a, b) && a.loader.s == s {
      FetchGlm.CannotFetch(plan.hash, plan.meta[s], CallFor(a, s), CallFor(b, s));
    }
  }

  lemma OthersKeepDeleted(plan: Plan, a: Sys, b: Sys, s: string)
    requires ConvNext(plan, a, b) || SupNext(plan, a, b)
    requires s in a.shards && a.shards[s].deleted
    ensures s in b.shards && b.shards[s].deleted
  {
  }

  lemma StillNotFetched(plan: Plan, a: Sys, b: Sys, s: string)
    requires Next(plan, a, b) && LeftBehind(plan, a, s)
    ensures LeftBehind(plan, b, s) && NotRefetched(a, b, s)
  {
    if LoaderNext(plan, a, b) {
      LoaderStaysPast(plan, a, b, s);
    } else {
      OthersOnlyRemove(plan, a, b);
      OthersKeepDeleted(plan, a, b, s);
    }
  }

  lemma StillNotFetchedAt(plan: Plan, run: seq<Sys>, k: nat, s: string)
    requires IsRun(plan, run) && 0 < k < |run| && LeftBehind(plan, run[k - 1], s)
    ensures LeftBehind(plan, run[k], s) && NotRefetched(run[k - 1], run[k], s)
  {
    assert StepAt(plan, run, k);
    StillNotFetched(plan, run[k - 1], run[k], s);
  }

  /** From such a state on, no run downloads `s` again. */
  lemma {:induction false} DeletedIsNotFetched(plan: Plan, run: seq<Sys>, i: nat, k: nat, s: string)
    requires IsRun(plan, run) && i <= k < |run| && LeftBehind(plan, run[i], s)
    ensures LeftBehind(plan, run[k], s) && NotRefetched(run[i], run[k], s)
  {
    if i < k {
      DeletedIsNotFetched(plan, run, i, k - 1, s);
      StillNotFetchedAt(plan, run, k, s);
      NotRefetchedTwice(run[i], run[k - 1], run[k], s);
    }
  }

  /** `longer` goes on from state i of the run and ends with other bytes of `s`. */
  ghost predicate Refetches(plan: Plan, run: seq<Sys>, i: nat, s: string, longer: seq<Sys>) {
    && IsRun(plan, longer) && i < |run| && i < |longer| && longer[..i + 1] == run[..i + 1]
    && !NotRefetched(run[i], longer[|longer| - 1], s)
  }

  /** The system while only the call for `s` moves. */
  function WithCall(a: Sys, s: string, d: FetchGlm.Dl): Sys
    requires s in a.shards
  {
    a.(loader := At(s, d.pc), shards := a.shards[s := a.shards[s].(files := d.files)])
  }

  lemma CallWorks(plan: Plan, a: Sys, s: string, d: FetchGlm.Dl, e: FetchGlm.Dl)
    requires s in a.shards && s in plan.meta && FetchGlm.Next(plan.hash, plan.meta[s], d, e)
    ensures LoaderWorks(plan, WithCall(a, s, d), WithCall(a, s, e))
  {
    var b, c := WithCall(a, s, d), WithCall(a, s, e);
    assert c.shards == b.shards[s := b.shards[s].(files := c.shards[s].files)];
    assert FetchGlm.Dl(b.loader.pc, b.shards[s].files) == d && FetchGlm.Dl(c.loader.pc, c.shards[s].files) == e;
  }

  lemma OneMoreStep(plan: Plan, run: seq<Sys>, b: Sys) returns (longer: seq<Sys>)
    requires IsRun(plan, run) && Next(plan, run[|run| - 1], b)
    ensures longer == run + [b] && IsRun(plan, longer)
  {
    longer := run + [b];
    forall i | 0 < i < |longer| ensures StepAt(plan, longer, i) {
      if i < |run| { assert StepAt(plan, run, i); }
    }
  }

  lemma RunPrefix(plan: Plan, run: seq<Sys>, n: nat)
    requires IsRun(plan, run) && 0 < n <= |run|
    ensures IsRun(plan, run[..n])
  {
    forall i | 0 < i < n ensures StepAt(plan, run[..n], i) {
      assert StepAt(plan, run, i);
    }
  }

  /** A path of the call is a path of the system. */
  lemma {:induction false} FollowCall(plan: Plan, run: seq<Sys>, i: nat, s: string, path: seq<FetchGlm.Dl>)
      returns (longer: seq<Sys>)
    requires IsRun(plan, run) && i < |run| && s in run[i].shards && s in plan.meta
    requires run[i].loader.At? && run[i].loader.s == s && path != [] && path[0] == CallFor(run[i], s)
    requires FetchGlm.IsPath(plan.hash, plan.meta[s], path)
    ensures IsRun(plan, longer) && i < |longer| && longer[..i + 1] == run[..i + 1]
    ensures longer[|longer| - 1] == WithCall(run[i], s, path[|path| - 1])
    decreases |path|
  {
    var a := run[i];
    if |path| == 1 {
      longer := run[..i + 1];
      RunPrefix(plan, run, i + 1);
      assert a.shards == a.shards[s := a.shards[s].(files := path[0].files)];
    } else {
      var d, e := path[|path| - 2], path[|path| - 1];
      longer := FollowCall(plan, run, i, s, path[..|path| - 1]);
      CallWorks(plan, a, s, d, e);
      longer := OneMoreStep(plan, longer, WithCall(a, s, e));
    }
  }

  /** Once a shard was deleted and its final file is gone, some continuation fetches bytes of it again if and
      only if a call for it is under way that can still fetch. */
  lemma RefetchedIff(plan: Plan, run: seq<Sys>, i: nat, s: string)
    requires IsRun(plan, run) && i < |run| && s in run[i].shards
    requires run[i].shards[s].deleted && run[i].shards[s].files.final.None?
    ensures (exists longer :: Refetches(plan, run, i, s, longer)) <==> CanRefetch(plan, run[i], s)
  {
    if CanRefetch(plan, run[i], s) {
      Reachable(plan, run, i);
      var path := FetchGlm.FetchPath(plan.hash, plan.meta[s], CallFor(run[i], s));
      var longer := FollowCall(plan, run, i, s, path);
      assert Refetches(plan, run, i, s, longer);
    } else {
      forall longer ensures !Refetches(plan, run, i, s, longer) {
        if Refetches(plan, run, i, s, longer) {
          assert longer[i] == longer[..i + 1][i] == run[..i + 1][i] == run[i];
          DeletedIsNotFetched(plan, longer, i, |longer| - 1, s);
        }
      }
    }
  }

  /** Right after the removal of a shard that means: the call that looked for `.deleted` before it was written
      has not begun, and the shard is not empty or has a `.part`. */
  lemma RefetchedAfterRemovalIff(plan: Plan, run: seq<Sys>, i: nat, s: string)
    requires IsRun(plan, run) && 0 < i < |run| && SupUnlinks(run[i - 1], run[i])
    requires run[i - 1].sup.s == s && run[i - 1].shards[s].files.final.Some?
    ensures s in run[i].shards && s in plan.meta && run[i].shards[s].deleted
    ensures (exists longer :: Refetches(plan, run, i, s, longer)) <==>
            run[i].loader == At(s, FetchGlm.Entry) && (plan.meta[s].size > 0 || run[i].shards[s].files.part.Some?)
  {
    Reachable(plan, run, i - 1);
    RefetchedIff(plan, run, i, s);
  }

  /** And then it is a whole download: the matching `.part` is placed, or any bytes at all are fetched. */
  lemma InsideIsRefetched(plan: Plan, run: seq<Sys>, i: nat, s: string, bytes: Bytes) returns (longer: seq<Sys>)
    requires IsRun(plan, run) && i < |run| && s in run[i].shards && s in plan.meta
    requires run[i].loader == At(s, FetchGlm.Entry) && run[i].shards[s].files.final.None? && plan.meta[s].size > 0
    ensures IsRun(plan, longer) && i < |longer| && longer[..i + 1] == run[..i + 1]
    ensures var a, b := run[i], longer[|longer| - 1];
            && s in b.shards && b.shards[s].deleted == a.shards[s].deleted
            && if a.shards[s].files.part.Some? && |a.shards[s].files.part.value| == plan.meta[s].size
                  && FetchGlm.Matches(plan.hash, plan.meta[s], a.shards[s].files.part.value)
               then b.shards[s].files.final == a.shards[s].files.part
               else b.shards[s].files.part == Some(bytes)
  {
    var path := FetchGlm.AnyBytes(plan.hash, plan.meta[s], CallFor(run[i], s), bytes);
    longer := FollowCall(plan, run, i, s, path);
  }

  /** That state is reachable: the whole deletion fits between the downloader's look and its fetch. */
  lemma RaceIsReachable() returns (plan: Plan, run: seq<Sys>)
    ensures IsRun(plan, run) && |run| == 9
    ensures var a := run[8];
            && "m" in a.shards && "m" in plan.meta && a.loader == At("m", FetchGlm.Entry)
            && a.shards["m"].deleted && a.shards["m"].files.final.None? && plan.meta["m"].size > 0
  {
    var meta := FetchGlm.Meta(1, Some([]), None);
    var hash := FetchGlm.Hash(b => [], (n, b) => []);
    plan := Plan(map["m" := {}], map["m" := meta], hash, 0, "c");
    var files := FetchGlm.OnDisk(None, Some([0]), Some(FetchGlm.Marker(1, [], [])));
    var x := Shard(files, None, false);
    var r0 := Sys(map["m" := x], Between, Conv(None, None, None), Idle);
    var r1 := r0.(loader := At("m", FetchGlm.Entry));
    var r2 := r1.(conv := r1.conv.(journal := Some([])));
    var y := x.(done := Some("c"));
    var r3 := r2.(shards := r2.shards["m" := y]);
    var w := Written(r3.conv);
    var r4 := r3.(sup := Pass(w));
    var r5 := r4.(sup := Looked("m", w, true));
    var r6 := r5.(sup := Marking("m", w));
    var z := y.(deleted := true);
    var r7 := r6.(shards := r6.shards["m" := z], sup := Unlinking("m", w));
    var r8 := r7.(shards := r7.shards["m" := z.(files := files.(final := None))], sup := Pass(w));
    run := [r0, r1, r2, r3, r4, r5, r6, r7, r8];
    assert LoaderLooks(r0, r1, "m") && ConvStarts(r1, r2) && ConvMarksDone(plan, r2, r3, "m") && SupStarts(r3, r4);
    assert SupLooks(r4, r5, "m");
    assert Need(plan, "m") == {};
    assert VerdictFor(plan, y, "m", true, w) == May;
    assert SupDecides(plan, r5, r6) && SupMarks(r6, r7) && SupUnlinks(r7, r8);
  }

  // ----- Stage.one_pass, alone on the disk

  /** What one pass does to one shard, given what `written` returned. */
  function AfterPass(plan: Plan, x: Shard, s: string, written: Option<set<string>>): Shard
    requires s in plan.headers && s in plan.meta
  {
    var onDisk := x.files.final.Some?;
    if (x.deleted && !onDisk) || VerdictFor(plan, x, s, onDisk, written) != May then x
    else x.(deleted := true, files := x.files.(final := None))
  }

  ghost predicate SupRun(plan: Plan, run: seq<Sys>) {
    run != [] && forall i | 0 < i < |run| :: SupNext(plan, run[i - 1], run[i])
  }

  ghost function Then(plan: Plan, run: seq<Sys>, b: Sys): (longer: seq<Sys>)
    requires SupRun(plan, run) && SupNext(plan, run[|run| - 1], b)
    ensures SupRun(plan, longer) && longer[0] == run[0] && longer[|longer| - 1] == b
  {
    run + [b]
  }

  /** The listed shards whose final file was there before and is not there after. */
  function WentAway(names: seq<string>, before: map<string, Shard>, after: map<string, Shard>): set<string> {
    set s | s in names && s in before && s in after &&
            before[s].files.final.Some? && after[s].files.final.None?
  }

  lemma OneMoreWent(names: seq<string>, i: nat, first: map<string, Shard>, before: map<string, Shard>,
                    after: map<string, Shard>)
    requires i < |names| && names[i] !in names[..i] && names[i] in first && names[i] in before && names[i] in after
    requires first[names[i]] == before[names[i]] && after == before[names[i] := after[names[i]]]
    ensures |WentAway(names[..i + 1], first, after)| == |WentAway(names[..i], first, before)| +
              if before[names[i]].files.final.Some? && after[names[i]].files.final.None? then 1 else 0
  {
    var s := names[i];
    assert names[..i + 1] == names[..i] + [s];
    var was, now := WentAway(names[..i], first, before), WentAway(names[..i + 1], first, after);
    if before[s].files.final.Some? && after[s].files.final.None? {
      assert now == was + {s} && s !in was;
    } else {
      assert now == was;
    }
  }

  class Stage {
    const plan: Plan
    var shards: map<string, Shard>

    constructor (plan: Plan, shards: map<string, Shard>)
      ensures this.plan == plan && this.shards == shards
    {
      this.plan, this.shards := plan, shards;
    }

    /** One shard of the pass; `run` gains the supervisor steps it stands for. */
    method OneShard(s: string, conv: Conv, written: Option<set<string>>, ghost before: seq<Sys>)
        returns (removed: bool, ghost run: seq<Sys>)
      requires s in shards && s in plan.headers && s in plan.meta
      requires SupRun(plan, before) && before[|before| - 1] == Sys(shards, Between, conv, Pass(written))
      modifies `shards
      ensures shards == old(shards)[s := AfterPass(plan, old(shards)[s], s, written)]
      ensures removed <==> old(shards)[s].files.final.Some? && shards[s].files.final.None?
      ensures SupRun(plan, run) && run[0] == before[0] && run[|run| - 1] == Sys(shards, Between, conv, Pass(written))
    {
      var x := shards[s];
      var onDisk := x.files.final.Some?;
      ghost var at := before[|before| - 1];
      run := before;
      removed := false;
      ghost var looked := at.(sup := Looked(s, written, onDisk));
      assert SupLooks(at, looked, s);
      run := Then(plan, run, looked);
      if x.deleted && !onDisk {
        run := Then(plan, run, at);
        assert shards == old(shards)[s := x];
        return;
      }
      if VerdictFor(plan, x, s, onDisk, written) != May {
        run := Then(plan, run, at);
        assert shards == old(shards)[s := x];
        return;
      }
      ghost var ready := at.(sup := if onDisk then Marking(s, written) else Recovering(s, written));
      assert SupDecides(plan, looked, ready);
      run := Then(plan, run, ready);
      shards := shards[s := x.(deleted := true)];
      ghost var marked := Sys(shards, Between, conv, if onDisk then Unlinking(s, written) else Pass(written));
      assert SupMarks(ready, marked);
      run := Then(plan, run, marked);
      if !onDisk {
        return;
      }
      shards := shards[s := x.(deleted := true, files := x.files.(final := None))];
      assert SupUnlinks(marked, Sys(shards, Between, conv, Pass(written)));
      run := Then(plan, run, Sys(shards, Between, conv, Pass(written)));
      removed := true;
    }

    /** Every listed shard gets its verdict against one reading of the journal; the others are untouched. */
    method OnePass(names: seq<string>, conv: Conv) returns (n: nat, ghost run: seq<Sys>)
      requires forall i, j | 0 <= i < j < |names| :: names[i] != names[j]
      requires shards.Keys == plan.headers.Keys == plan.meta.Keys && forall s | s in names :: s in shards
      modifies `shards
      ensures shards.Keys == old(shards).Keys
      ensures forall s | s in names :: shards[s] == AfterPass(plan, old(shards)[s], s, Written(conv))
      ensures forall s | s in shards && s !in names :: shards[s] == old(shards)[s]
      ensures n == |WentAway(names, old(shards), shards)|
      ensures SupRun(plan, run)
      ensures run[0] == Sys(old(shards), Between, conv, Idle) && run[|run| - 1] == Sys(shards, Between, conv, Idle)
    {
      ghost var first := shards;
      var written := Written(conv);
      n := 0;
      run := [Sys(shards, Between, conv, Idle)];
      run := Then(plan, run, Sys(shards, Between, conv, Pass(written)));
      for i := 0 to |names|
        invariant shards.Keys == first.Keys
        invariant forall j | 0 <= j < i :: shards[names[j]] == AfterPass(plan, first[names[j]], names[j], written)
        invariant forall s | s in shards && s !in names[..i] :: shards[s] == first[s]
        invariant n == |WentAway(names[..i], first, shards)|
        invariant SupRun(plan, run) && run[0] == Sys(first, Between, conv, Idle)
        invariant run[|run| - 1] == Sys(shards, Between, conv, Pass(written))
      {
        assert names[i] !in names[..i];
        ghost var before := shards;
        var removed;
        removed, run := OneShard(names[i], conv, written, run);
        n := n + if removed then 1 else 0;
        OneMoreWent(names, i, first, before, shards);
      }
      assert names[..|names|] == names;
      run := Then(plan, run, Sys(shards, Between, conv, Idle));
    }
  }
}
