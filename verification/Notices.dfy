/** The licence expression evaluator: covered of tools/engine_notices.py, from its tokens on. */
module Notices {
  import opened Common

  /** SPDX_KIND, which no statement here depends on, and the kinds a crate's texts are of. */
  datatype Env = Env(table: map<string, string>, kinds: set<string>)

  datatype Token = Open | Close | And | Or | Id(name: string)

  /** What a parse that starts somewhere gives: a truth value and where it stopped, or the exception. */
  datatype Parse = Ok(v: bool, pos: nat) | PastTheEnd | UnknownId(token: Token)

  /** The kind an id stands for; a trailing "+" does not count. */
  function KindOf(env: Env, name: string): Option<string> {
    var id := if |name| > 0 && name[|name| - 1] == '+' then name[..|name| - 1] else name;
    if id in env.table then Some(env.table[id]) else None
  }

  // ----- the grammar as functions of the position

  function Atom(ts: seq<Token>, pos: nat, env: Env): (p: Parse)
    ensures p.Ok? ==> p.pos > pos
    decreases |ts| - pos, 0
  {
    if pos >= |ts| then PastTheEnd
    else match ts[pos]
      case Open =>
        (match Disj(ts, pos + 1, false, env)
         case Ok(v, next) => Ok(v, next + 1)
         case error => error)
      case Id(name) =>
        if KindOf(env, name).Some? then Ok(KindOf(env, name).value in env.kinds, pos + 1) else UnknownId(ts[pos])
      case _ => UnknownId(ts[pos])
  }

  /** One more atom onto a conjunction that stands at `acc`, and on over every AND. */
  function Conj(ts: seq<Token>, pos: nat, acc: bool, env: Env): (p: Parse)
    ensures p.Ok? ==> p.pos > pos
    decreases |ts| - pos, 1
  {
    match Atom(ts, pos, env)
    case Ok(v, next) => if next < |ts| && ts[next] == And then Conj(ts, next + 1, v && acc, env) else Ok(v && acc, next)
    case error => error
  }

  function Disj(ts: seq<Token>, pos: nat, acc: bool, env: Env): (p: Parse)
    ensures p.Ok? ==> p.pos > pos
    decreases |ts| - pos, 2
  {
    match Conj(ts, pos, true, env)
    case Ok(v, next) => if next < |ts| && ts[next] == Or then Disj(ts, next + 1, v || acc, env) else Ok(v || acc, next)
    case error => error
  }

  // ----- the program: three closures over one position

  class Parser {
    const tokens: seq<Token>
    const env: Env
    var pos: nat

    constructor (tokens: seq<Token>, env: Env)
      ensures this.tokens == tokens && this.env == env && pos == 0
    {
      this.tokens := tokens;
      this.env := env;
      pos := 0;
    }

    /** The outcome of a call that found the position at `from`. */
    predicate Did(p: Parse, r: Parse) reads this {
      r == p && (p.Ok? ==> pos == p.pos)
    }

    method ReadAtom() returns (r: Parse)
      modifies this
      ensures Did(Atom(tokens, old(pos), env), r)
      decreases |tokens| - pos, 0
    {
      if pos >= |tokens| {
        return PastTheEnd;
      }
      var tok := tokens[pos];
      pos := pos + 1;
      match tok {
        case Open =>
          var v := ReadDisj();
          if v.Ok? {
            pos := pos + 1;
            r := Ok(v.v, pos);
          } else {
            r := v;
          }
        case Id(name) =>
          if KindOf(env, name).None? {
            return UnknownId(tok);
          }
          r := Ok(KindOf(env, name).value in env.kinds, pos);
        case _ =>
          return UnknownId(tok);
      }
    }

    method ReadConj() returns (r: Parse)
      modifies this
      ensures Did(Conj(tokens, old(pos), true, env), r)
      decreases |tokens| - pos, 1
    {
      r := ReadAtom();
      if !r.Ok? {
        return;
      }
      var v := r.v;
      ghost var start := old(pos);
      assert Conj(tokens, old(pos), true, env) == AfterAtom(Ok(v, pos));
      while pos < |tokens| && tokens[pos] == And
        invariant pos > old(pos)
        invariant Conj(tokens, old(pos), true, env) == AfterAtom(Ok(v, pos))
        decreases |tokens| - pos
      {
        pos := pos + 1;
        r := ReadAtom();
        if !r.Ok? {
          return;
        }
        v := r.v && v;
      }
      r := Ok(v, pos);
    }

    function AfterAtom(p: Parse): Parse
      requires p.Ok?
    {
      if p.pos < |tokens| && tokens[p.pos] == And then Conj(tokens, p.pos + 1, p.v, env) else p
    }

    method ReadDisj() returns (r: Parse)
      modifies this
      ensures Did(Disj(tokens, old(pos), false, env), r)
      decreases |tokens| - pos, 2
    {
      r := ReadConj();
      if !r.Ok? {
        return;
      }
      var v := r.v;
      while pos < |tokens| && tokens[pos] == Or
        invariant pos > old(pos)
        invariant Disj(tokens, old(pos), false, env) == AfterConj(Ok(v, pos))
        decreases |tokens| - pos
      {
        pos := pos + 1;
        r := ReadConj();
        if !r.Ok? {
          return;
        }
        v := r.v || v;
      }
      r := Ok(v, pos);
    }

    function AfterConj(p: Parse): Parse
      requires p.Ok?
    {
      if p.pos < |tokens| && tokens[p.pos] == Or then Disj(tokens, p.pos + 1, p.v, env) else p
    }
  }

  method Covered(tokens: seq<Token>, env: Env) returns (r: Parse)
    ensures r == Disj(tokens, 0, false, env)
    ensures forall e :: WellBracketed(e, env) && tokens == Print(e) ==> r == Ok(Holds(e, env), |tokens|)
    ensures r.Ok? ==> exists e :: Opens(tokens, e, env, r.pos) && Holds(e, env) == r.v
  {
    var parser := new Parser(tokens, env);
    r := parser.ReadDisj();
    if r.Ok? { CoveredIff(tokens, env, r.v, r.pos); }
    forall e | WellBracketed(e, env) && tokens == Print(e) ensures r == Ok(Holds(e, env), |tokens|) {
      CoveredUndoesPrint(e, [], env);
      assert Print(e) + [] == Print(e);
    }
  }

  // ----- expressions

  datatype Expr = License(name: string) | Paren(e: Expr) | Both(l: Expr, r: Expr) | Either(l: Expr, r: Expr)

  predicate Holds(e: Expr, env: Env) {
    match e
    case License(name) => KindOf(env, name).Some? && KindOf(env, name).value in env.kinds
    case Paren(x) => Holds(x, env)
    case Both(l, r) => Holds(l, env) && Holds(r, env)
    case Either(l, r) => Holds(l, env) || Holds(r, env)
  }

  /** How many tokens it prints. */
  function Width(e: Expr): nat {
    match e
    case License(_) => 1
    case Paren(x) => Width(x) + 2
    case Both(l, r) => Width(l) + 1 + Width(r)
    case Either(l, r) => Width(l) + 1 + Width(r)
  }

  function Print(e: Expr): (p: seq<Token>)
    ensures |p| == Width(e)
  {
    match e
    case License(name) => [Id(name)]
    case Paren(x) => [Open] + Print(x) + [Close]
    case Both(l, r) => Print(l) + [And] + Print(r)
    case Either(l, r) => Print(l) + [Or] + Print(r)
  }

  /** Known ids, and an OR below an AND stands in parentheses. */
  predicate WellBracketed(e: Expr, env: Env) {
    match e
    case License(name) => KindOf(env, name).Some?
    case Paren(x) => WellBracketed(x, env)
    case Both(l, r) => WellBracketed(l, env) && WellBracketed(r, env) && !l.Either? && !r.Either?
    case Either(l, r) => WellBracketed(l, env) && WellBracketed(r, env)
  }

  predicate Follows(ts: seq<Token>, pos: nat, t: Token) {
    pos < |ts| && ts[pos] == t
  }

  /** Neither operator follows. */
  predicate Ends(ts: seq<Token>, pos: nat) {
    !Follows(ts, pos, And) && !Follows(ts, pos, Or)
  }

  function End(pos: nat, e: Expr): nat {
    pos + Width(e)
  }

  /** The tokens of `e` from pos on, but in the place of a closing parenthesis any token that is no operator, or
      the end of the list. */
  predicate Stands(ts: seq<Token>, pos: nat, e: Expr)
    decreases e
  {
    match e
    case License(name) => Follows(ts, pos, Id(name))
    case Paren(x) => Follows(ts, pos, Open) && Stands(ts, pos + 1, x) && Ends(ts, End(pos + 1, x))
    case Both(l, r) => Stands(ts, pos, l) && Follows(ts, End(pos, l), And) && Stands(ts, End(pos, l) + 1, r)
    case Either(l, r) => Stands(ts, pos, l) && Follows(ts, End(pos, l), Or) && Stands(ts, End(pos, l) + 1, r)
  }

  // ----- a printed expression stands where it is

  ghost predicate At(ts: seq<Token>, pos: nat, part: seq<Token>) {
    pos + |part| <= |ts| && ts[pos..pos + |part|] == part
  }

  lemma AtParts(ts: seq<Token>, pos: nat, a: seq<Token>, t: Token, b: seq<Token>)
    requires At(ts, pos, a + [t] + b)
    ensures At(ts, pos, a) && ts[pos + |a|] == t && At(ts, pos + |a| + 1, b)
  {
    var whole := a + [t] + b;
    assert forall k | 0 <= k < |whole| :: ts[pos + k] == whole[k];
    assert whole[..|a|] == a && whole[|a|] == t && whole[|a| + 1..] == b;
  }

  lemma InsideParen(ts: seq<Token>, pos: nat, inner: seq<Token>)
    requires At(ts, pos, [Open] + inner + [Close])
    ensures ts[pos] == Open && At(ts, pos + 1, inner) && ts[pos + 1 + |inner|] == Close
  {
    var whole := [Open] + inner + [Close];
    assert forall k | 0 <= k < |whole| :: ts[pos + k] == whole[k];
    assert whole[1..1 + |inner|] == inner;
  }

  lemma {:induction false} PrintStands(e: Expr, ts: seq<Token>, pos: nat)
    requires At(ts, pos, Print(e))
    ensures Stands(ts, pos, e)
    decreases Width(e), 1
  {
    match e
    case License(name) =>
      assert ts[pos] == ts[pos..pos + 1][0];
    case Paren(x) =>
      InsideParen(ts, pos, Print(x));
      PrintStands(x, ts, pos + 1);
    case Both(l, r) =>
      PartsStand(l, And, r, ts, pos);
    case Either(l, r) =>
      PartsStand(l, Or, r, ts, pos);
  }

  lemma {:induction false} PartsStand(l: Expr, t: Token, r: Expr, ts: seq<Token>, pos: nat)
    requires At(ts, pos, Print(l) + [t] + Print(r))
    ensures Stands(ts, pos, l) && Follows(ts, End(pos, l), t) && Stands(ts, End(pos, l) + 1, r)
    decreases Width(l) + 1 + Width(r), 0
  {
    AtParts(ts, pos, Print(l), t, Print(r));
    PrintStands(l, ts, pos);
    PrintStands(r, ts, End(pos, l) + 1);
  }

  // ----- completeness: what stands there is read off

  /** From pos, conj reads on to `end` as a value v and goes on behind it. */
  ghost predicate ConjRuns(ts: seq<Token>, pos: nat, acc: bool, env: Env, v: bool, end: nat) {
    Conj(ts, pos, acc, env) == if Follows(ts, end, And) then Conj(ts, end + 1, v && acc, env) else Ok(v && acc, end)
  }

  lemma OneAtom(ts: seq<Token>, pos: nat, acc: bool, env: Env, v: bool, end: nat)
    requires Atom(ts, pos, env) == Ok(v, end)
    ensures ConjRuns(ts, pos, acc, env, v, end)
  {
  }

  lemma ParenAtom(ts: seq<Token>, pos: nat, env: Env, v: bool, close: nat)
    requires Follows(ts, pos, Open) && Ends(ts, close) && DisjRuns(ts, pos + 1, false, env, v, close)
    ensures Atom(ts, pos, env) == Ok(v, close + 1)
  {
  }

  lemma TwoRuns(ts: seq<Token>, pos: nat, acc: bool, env: Env, v: bool, mid: nat, w: bool, end: nat)
    requires ConjRuns(ts, pos, acc, env, v, mid) && Follows(ts, mid, And)
    requires ConjRuns(ts, mid + 1, v && acc, env, w, end)
    ensures ConjRuns(ts, pos, acc, env, v && w, end)
  {
    assert (w && (v && acc)) == ((v && w) && acc);
  }

  /** A conjunction that stands there is read off in one run of conj. */
  lemma {:induction false} ConjReads(e: Expr, ts: seq<Token>, pos: nat, acc: bool, env: Env)
    requires WellBracketed(e, env) && !e.Either? && Stands(ts, pos, e)
    ensures ConjRuns(ts, pos, acc, env, Holds(e, env), End(pos, e))
    decreases e, 1
  {
    if e.License? {
      OneAtom(ts, pos, acc, env, Holds(e, env), pos + 1);
    } else if e.Paren? {
      ParenReads(e, ts, pos, acc, env);
    } else {
      BothReads(e, ts, pos, acc, env);
    }
  }

  lemma {:induction false} ParenReads(e: Expr, ts: seq<Token>, pos: nat, acc: bool, env: Env)
    requires e.Paren? && WellBracketed(e.e, env) && Stands(ts, pos, e)
    ensures ConjRuns(ts, pos, acc, env, Holds(e, env), End(pos, e))
    decreases e, 0
  {
    DisjReads(e.e, ts, pos + 1, false, env);
    ParenAtom(ts, pos, env, Holds(e.e, env), End(pos + 1, e.e));
    OneAtom(ts, pos, acc, env, Holds(e.e, env), End(pos, e));
  }

  lemma {:induction false} BothReads(e: Expr, ts: seq<Token>, pos: nat, acc: bool, env: Env)
    requires e.Both? && WellBracketed(e, env) && Stands(ts, pos, e)
    ensures ConjRuns(ts, pos, acc, env, Holds(e, env), End(pos, e))
    decreases e, 0
  {
    var mid := End(pos, e.l);
    ConjReads(e.l, ts, pos, acc, env);
    ConjReads(e.r, ts, mid + 1, Holds(e.l, env) && acc, env);
    TwoRuns(ts, pos, acc, env, Holds(e.l, env), mid, Holds(e.r, env), End(mid + 1, e.r));
  }

  ghost predicate DisjRuns(ts: seq<Token>, pos: nat, acc: bool, env: Env, v: bool, end: nat) {
    Disj(ts, pos, acc, env) == if Follows(ts, end, Or) then Disj(ts, end + 1, v || acc, env) else Ok(v || acc, end)
  }

  lemma OneConj(ts: seq<Token>, pos: nat, acc: bool, env: Env, v: bool, end: nat)
    requires ConjRuns(ts, pos, true, env, v, end) && !Follows(ts, end, And)
    ensures DisjRuns(ts, pos, acc, env, v, end)
  {
  }

  lemma TwoDisjRuns(ts: seq<Token>, pos: nat, acc: bool, env: Env, v: bool, mid: nat, w: bool, end: nat)
    requires DisjRuns(ts, pos, acc, env, v, mid) && Follows(ts, mid, Or)
    requires DisjRuns(ts, mid + 1, v || acc, env, w, end)
    ensures DisjRuns(ts, pos, acc, env, v || w, end)
  {
    assert (w || (v || acc)) == ((v || w) || acc);
  }

  /** An expression that stands there with no AND behind it is read off in one run of disj. */
  lemma {:induction false} DisjReads(e: Expr, ts: seq<Token>, pos: nat, acc: bool, env: Env)
    requires WellBracketed(e, env) && Stands(ts, pos, e) && !Follows(ts, End(pos, e), And)
    ensures DisjRuns(ts, pos, acc, env, Holds(e, env), End(pos, e))
    decreases e, 2
  {
    if e.Either? {
      var mid := End(pos, e.l);
      DisjReads(e.l, ts, pos, acc, env);
      DisjReads(e.r, ts, mid + 1, Holds(e.l, env) || acc, env);
      TwoDisjRuns(ts, pos, acc, env, Holds(e.l, env), mid, Holds(e.r, env), End(mid + 1, e.r));
    } else {
      ConjReads(e, ts, pos, true, env);
      OneConj(ts, pos, acc, env, Holds(e, env), End(pos, e));
    }
  }

  // ----- soundness: whatever is read off stands there

  lemma {:induction false} ConjStops(ts: seq<Token>, pos: nat, acc: bool, env: Env)
    requires Conj(ts, pos, acc, env).Ok?
    ensures !Follows(ts, Conj(ts, pos, acc, env).pos, And)
    decreases |ts| - pos
  {
    var p := Atom(ts, pos, env);
    if Follows(ts, p.pos, And) { ConjStops(ts, p.pos + 1, p.v && acc, env); }
  }

  lemma {:induction false} DisjStops(ts: seq<Token>, pos: nat, acc: bool, env: Env)
    requires Disj(ts, pos, acc, env).Ok?
    ensures Ends(ts, Disj(ts, pos, acc, env).pos)
    decreases |ts| - pos
  {
    ConjStops(ts, pos, true, env);
    var p := Conj(ts, pos, true, env);
    if Follows(ts, p.pos, Or) { DisjStops(ts, p.pos + 1, p.v || acc, env); }
  }

  /** `e` is what a parse from pos to p.pos read as p.v, on top of nothing. */
  ghost predicate Means(ts: seq<Token>, pos: nat, env: Env, e: Expr, end: nat) {
    WellBracketed(e, env) && Stands(ts, pos, e) && end == End(pos, e)
  }

  lemma {:induction false} AtomMeans(ts: seq<Token>, pos: nat, env: Env) returns (e: Expr)
    requires Atom(ts, pos, env).Ok?
    ensures var p := Atom(ts, pos, env); Means(ts, pos, env, e, p.pos) && Holds(e, env) == p.v
    ensures e.License? || e.Paren?
    decreases |ts| - pos, 0
  {
    if ts[pos].Open? {
      var x := DisjMeans(ts, pos + 1, false, env);
      DisjStops(ts, pos + 1, false, env);
      e := Paren(x);
    } else {
      e := License(ts[pos].name);
    }
  }

  lemma {:induction false} ConjMeans(ts: seq<Token>, pos: nat, acc: bool, env: Env) returns (e: Expr)
    requires Conj(ts, pos, acc, env).Ok?
    ensures var p := Conj(ts, pos, acc, env); Means(ts, pos, env, e, p.pos) && p.v == (Holds(e, env) && acc)
    ensures !e.Either?
    decreases |ts| - pos, 1
  {
    e := AtomMeans(ts, pos, env);
    var p := Atom(ts, pos, env);
    if Follows(ts, p.pos, And) {
      var r := ConjMeans(ts, p.pos + 1, p.v && acc, env);
      e := Both(e, r);
    }
  }

  lemma {:induction false} DisjMeans(ts: seq<Token>, pos: nat, acc: bool, env: Env) returns (e: Expr)
    requires Disj(ts, pos, acc, env).Ok?
    ensures var p := Disj(ts, pos, acc, env); Means(ts, pos, env, e, p.pos) && p.v == (Holds(e, env) || acc)
    decreases |ts| - pos, 2
  {
    e := ConjMeans(ts, pos, true, env);
    var p := Conj(ts, pos, true, env);
    if Follows(ts, p.pos, Or) {
      var r := DisjMeans(ts, p.pos + 1, p.v || acc, env);
      e := Either(e, r);
    }
  }

  // ----- what covered accepts, exactly

  /** `e` opens the token list up to `end`, and no operator follows. */
  ghost predicate Opens(ts: seq<Token>, e: Expr, env: Env, end: nat) {
    Means(ts, 0, env, e, end) && Ends(ts, end)
  }

  /** covered returns v, stopping at `end`, if and only if a tree that means v opens the list up to there. */
  lemma CoveredIff(ts: seq<Token>, env: Env, v: bool, end: nat)
    ensures Disj(ts, 0, false, env) == Ok(v, end) <==> exists e :: Opens(ts, e, env, end) && Holds(e, env) == v
  {
    if Disj(ts, 0, false, env) == Ok(v, end) {
      var e := DisjMeans(ts, 0, false, env);
      DisjStops(ts, 0, false, env);
      assert Opens(ts, e, env, end);
    }
    forall e | Opens(ts, e, env, end) && Holds(e, env) == v ensures Disj(ts, 0, false, env) == Ok(v, end) {
      DisjReads(e, ts, 0, false, env);
    }
  }

  /** Printing and reading back gives the meaning and consumes exactly the expression if and only if neither AND
      nor OR follows; nothing else of what follows is ever looked at. */
  lemma CoveredUndoesPrint(e: Expr, rest: seq<Token>, env: Env)
    requires WellBracketed(e, env)
    ensures Disj(Print(e) + rest, 0, false, env) == Ok(Holds(e, env), |Print(e)|) <==>
            rest == [] || (rest[0] != And && rest[0] != Or)
  {
    var ts, end := Print(e) + rest, |Print(e)|;
    assert ts[0..end] == Print(e) && (rest != [] ==> ts[end] == rest[0]);
    PrintStands(e, ts, 0);
    if Disj(ts, 0, false, env) == Ok(Holds(e, env), end) {
      DisjStops(ts, 0, false, env);
    } else if Ends(ts, end) {
      DisjReads(e, ts, 0, false, env);
    }
  }

  lemma {:induction false} LastToken(ts: seq<Token>, pos: nat, e: Expr)
    requires Stands(ts, pos, e)
    ensures End(pos, e) > pos && Ends(ts, End(pos, e) - 1)
    decreases e
  {
    match e
    case License(_) =>
    case Paren(_) =>
    case Both(l, r) => LastToken(ts, End(pos, l) + 1, r);
    case Either(l, r) => LastToken(ts, End(pos, l) + 1, r);
  }

  /** A parenthesis opened in front of a tree, and a token in the closing one's place or the end of the list. */
  lemma OpenedReads(e: Expr, ts: seq<Token>, env: Env)
    requires WellBracketed(e, env) && Follows(ts, 0, Open) && Stands(ts, 1, e) && |ts| <= End(1, e) + 1
    ensures Disj(ts, 0, false, env) == Ok(Holds(e, env), End(1, e) + 1) <==> Ends(ts, End(1, e))
  {
    if Ends(ts, End(1, e)) {
      DisjReads(Paren(e), ts, 0, false, env);
    } else if Disj(ts, 0, false, env) == Ok(Holds(e, env), End(1, e) + 1) {
      var x := DisjMeans(ts, 0, false, env);
      LastToken(ts, 0, x);
    }
  }

  /** What stands in a closing parenthesis' place, if anything does, is passed over unread exactly when it is
      neither AND nor OR. */
  lemma CloseIsNotChecked(e: Expr, place: seq<Token>, env: Env)
    requires WellBracketed(e, env) && |place| <= 1
    ensures Disj([Open] + Print(e) + place, 0, false, env) == Ok(Holds(e, env), |Print(e)| + 2) <==>
            place == [] || (place[0] != And && place[0] != Or)
  {
    var ts, end := [Open] + Print(e) + place, 1 + |Print(e)|;
    assert ts[1..end] == Print(e) && (place != [] ==> ts[end] == place[0]);
    PrintStands(e, ts, 1);
    OpenedReads(e, ts, env);
  }

  /** Without parentheses an AND binds tighter: the parentheses are needed. */
  lemma LooseOrMeansOtherwise(a: string, b: string, c: string, table: map<string, string>)
    requires var env := Env(table, {}); KindOf(env, a).Some? && KindOf(env, b).Some? && KindOf(env, c).Some?
    requires KindOf(Env(table, {}), a) != KindOf(Env(table, {}), c)
    ensures var e := Both(Either(License(a), License(b)), License(c));
            var env := Env(table, {KindOf(Env(table, {}), a).value});
            Disj(Print(e), 0, false, env) == Ok(true, 5) && !Holds(e, env)
  {
    var tight := Either(License(a), Both(License(b), License(c)));
    var e := Both(Either(License(a), License(b)), License(c));
    assert Print(Either(License(a), License(b))) == [Id(a), Or, Id(b)];
    assert Print(Both(License(b), License(c))) == [Id(b), And, Id(c)];
    assert Print(e) == [Id(a), Or, Id(b), And, Id(c)] == Print(tight);
    assert Print(tight) + [] == Print(tight);
    CoveredUndoesPrint(tight, [], Env(table, {KindOf(Env(table, {}), a).value}));
  }

  // ----- more kinds never cover less

  /** Same stop or same error, and the value can only rise. */
  predicate Rises(p: Parse, q: Parse) {
    if p.Ok? then q.Ok? && p.pos == q.pos && (p.v ==> q.v) else p == q
  }

  predicate Richer(env: Env, more: Env) {
    env.table == more.table && env.kinds <= more.kinds
  }

  lemma {:induction false} AtomRises(ts: seq<Token>, pos: nat, env: Env, more: Env)
    requires Richer(env, more)
    ensures Rises(Atom(ts, pos, env), Atom(ts, pos, more))
    decreases |ts| - pos, 0
  {
    if pos < |ts| && ts[pos].Open? { DisjRises(ts, pos + 1, false, false, env, more); }
  }

  lemma {:induction false} ConjRises(ts: seq<Token>, pos: nat, acc: bool, high: bool, env: Env, more: Env)
    requires Richer(env, more) && (acc ==> high)
    ensures Rises(Conj(ts, pos, acc, env), Conj(ts, pos, high, more))
    decreases |ts| - pos, 1
  {
    AtomRises(ts, pos, env, more);
    var p, q := Atom(ts, pos, env), Atom(ts, pos, more);
    if p.Ok? && Follows(ts, p.pos, And) { ConjRises(ts, p.pos + 1, p.v && acc, q.v && high, env, more); }
  }

  lemma {:induction false} DisjRises(ts: seq<Token>, pos: nat, acc: bool, high: bool, env: Env, more: Env)
    requires Richer(env, more) && (acc ==> high)
    ensures Rises(Disj(ts, pos, acc, env), Disj(ts, pos, high, more))
    decreases |ts| - pos, 2
  {
    ConjRises(ts, pos, true, true, env, more);
    var p, q := Conj(ts, pos, true, env), Conj(ts, pos, true, more);
    if p.Ok? && Follows(ts, p.pos, Or) { DisjRises(ts, p.pos + 1, p.v || acc, q.v || high, env, more); }
  }

  /** covered is monotone in the kinds, on every token list. */
  lemma CoveredIsMonotone(ts: seq<Token>, env: Env, more: Env)
    requires Richer(env, more)
    ensures Rises(Disj(ts, 0, false, env), Disj(ts, 0, false, more))
  {
    DisjRises(ts, 0, false, false, env, more);
  }
}
