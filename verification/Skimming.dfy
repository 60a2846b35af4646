/** What code does where nothing of it is: in front of an element that none of its instructions
    matches, or at the end of the enclosing element. This decides when an absent field is passed
    over, and when a loop goes round for ever. */
module Skimming {
  import opened Octets
  import opened Bytecode
  import opened Grammar
  import opened Code
  import opened Layout
  import opened BerMachine
  import opened Safety
  import opened Steps
  import opened RegularGrammars
  import opened Termination

  /** The run gets behind the code with this `matched` flag; stops on a tag mismatch; or skips
      the opener of an inline element, whose END will then close the enclosing frame. */
  datatype Skim = Passes(matched: bool) | Stops | SkipsFrame

  /** The outcome of `c` where nothing of it is, `atEnd` of the enclosing element or in front of
      another element, when the flag is `matched`. */
  function Skims(c: Code, matched: bool, atEnd: bool): Skim {
    match c
    case Then(a, b) => var r := Skims(a, matched, atEnd); if r.Passes? then Skims(b, r.matched, atEnd) else r
    case MatchPrim(_, cond, skip, _) => Leaf(cond, skip, matched, atEnd)
    case Call(_, cond, skip, _) => Leaf(cond, skip, matched, atEnd)
    case Block(_, _, _, _) => if atEnd then SkipsFrame else Stops
    case CondFail => if matched then Passes(true) else Stops
    case _ => Passes(matched)
  }

  function Leaf(cond: bool, skip: bool, matched: bool, atEnd: bool): Skim {
    if atEnd || (cond && matched) then Passes(matched) else if skip then Passes(false) else Stops
  }

  /** The end of the enclosing element, or another element: its tag is not a long one and none of
      the instructions of `c` matches it. */
  predicate Nowhere(env: Env, c: Code, s: State) {
    || s.dp == s.datalen
    || (Bounded(env, s) && s.dp + 1 < s.datalen && !IsLongTag(env.data[s.dp]) && !Grabs(c, env.data[s.dp]))
  }

  /** `t` stands behind `c`, in the place of `s`. */
  predicate Behind(c: Code, s: State, t: State, matched: bool) {
    t.pc == s.pc + Size(c) && SamePlace(s, t) && t.dp == s.dp && t.matched == matched
  }

  /** The run from `s` comes to what `r` says about `c`. */
  ghost predicate ComesTo(env: Env, c: Code, s: State, r: Skim, d: Config) {
    && Reaches(env, Run(s), d)
    && match r
       case Passes(m) => d.Run? && Behind(c, s, d.st, m)
       case Stops => d.Halt? && d.out == TagMismatch
       case SkipsFrame => d.Run? && SkipsOpener(env, d.st)
  }

  // ----- single instructions ------------------------------------------------------------

  lemma {:induction false} LeafSkims(env: Env, entries: map<Element, int>, c: Code, s: State)
    requires c.MatchPrim? || c.Call?
    requires Sound(c, env.nrActions) && Placed(env.machine, c, entries, s.pc) && Nowhere(env, c, s)
    ensures ComesTo(env, c, s, Skims(c, s.matched, s.dp == s.datalen), Step(env, s))
  {
    ReachesStep(env, s);
    hide Step, Reaches, Placed, Emit, Sound;
    if s.dp == s.datalen || (IsCond(c) && s.matched) {
      var t := StepPast(env, entries, c, s);
    } else if c.skip {
      var t := StepMiss(env, entries, c, s);
    } else {
      StepMismatch(env, entries, c, s);
    }
  }

  lemma {:induction false} StepMismatch(env: Env, entries: map<Element, int>, c: Code, s: State)
    requires (c.MatchPrim? || c.Call?) && !c.skip
    requires Sound(c, env.nrActions) && Placed(env.machine, c, entries, s.pc)
    requires Bounded(env, s) && s.dp + 1 < s.datalen
    requires !IsLongTag(env.data[s.dp]) && !TagMatches(c.optag, env.data[s.dp])
    requires !(IsCond(c) && s.matched)
    ensures Step(env, s).Halt? && Step(env, s).out == TagMismatch
  {
    LeafOp(env, entries, c, s.pc);
    SizeOfTagged(c);
    hide OpOf, HasCond, IsCond, OpLength, EndStep, Emit, Placed, HasAny, HasSkip, TagMatches, IsLongTag, HasConsBit,
      Header, Size, Tagged;
  }

  lemma {:induction false} AnySkims(env: Env, entries: map<Element, int>, c: Code, s: State)
    requires c.MatchAny? && Sound(c, env.nrActions) && Placed(env.machine, c, entries, s.pc) && s.dp == s.datalen
    ensures ComesTo(env, c, s, Passes(s.matched), Step(env, s))
  {
    ReachesStep(env, s);
    hide Step, Reaches, Placed, Emit, Sound;
    var t := StepPast(env, entries, c, s);
  }

  /** The opener of an inline element stops the machine, or is skipped at the end. */
  lemma {:induction false} BlockSkims(env: Env, entries: map<Element, int>, c: Code, s: State) returns (d: Config)
    requires c.Block? && Sound(c, env.nrActions) && Placed(env.machine, c, entries, s.pc) && Nowhere(env, c, s)
    ensures ComesTo(env, c, s, Skims(c, s.matched, s.dp == s.datalen), d)
  {
    PlacedBlock(env.machine, c, entries, s.pc);
    ReachesStep(env, s);
    ReachesSelf(env, Run(s));
    hide Reaches, Placed, Emit, PlacedEnd, Step;
    if s.dp == s.datalen {
      d := Run(s);
    } else {
      d := Step(env, s);
      OpenerMismatch(env, s);
    }
  }

  lemma {:induction false} OpenerMismatch(env: Env, s: State)
    requires 0 <= s.pc && s.pc + 1 < |env.machine| && env.machine[s.pc] == MATCH
    requires Bounded(env, s) && s.dp + 1 < s.datalen
    requires !IsLongTag(env.data[s.dp]) && !TagMatches(env.machine[s.pc + 1], env.data[s.dp])
    ensures Step(env, s).Halt? && Step(env, s).out == TagMismatch
  {
    hide EndStep, TagMatches, IsLongTag, HasConsBit, Header, Tagged;
  }

  lemma {:induction false} OtherSkims(env: Env, entries: map<Element, int>, c: Code, s: State)
    requires c.CondFail? || c.Act?
    requires Sound(c, env.nrActions) && Placed(env.machine, c, entries, s.pc)
    ensures ComesTo(env, c, s, Skims(c, s.matched, s.dp == s.datalen), Step(env, s))
  {
    ReachesStep(env, s);
    PlacedLeaf(env.machine, c, entries, s.pc);
    PlacedFits(env.machine, c, entries, s.pc);
    hide Reaches, Placed, Emit, MatchStep, EndStep;
  }

  // ----- the outcome is the static one --------------------------------------------------

  /** The run over code where nothing of it is comes to what `Skims` says. */
  lemma {:induction false} SkimRun(env: Env, entries: map<Element, int>, c: Code, s: State) returns (d: Config)
    requires Sound(c, env.nrActions) && Placed(env.machine, c, entries, s.pc) && Nowhere(env, c, s)
    ensures ComesTo(env, c, s, Skims(c, s.matched, s.dp == s.datalen), d)
    decreases c
  {
    hide Step, Reaches, Placed, Emit, SkipsOpener;
    match c
    case Nil =>
      d := Run(s);
      ReachesSelf(env, d);
    case Then(a, b) =>
      PlacedThen(env.machine, a, b, entries, s.pc);
      d := SkimRun(env, entries, a, s);
      if d.Run? && Skims(a, s.matched, s.dp == s.datalen).Passes? {
        var t := d.st;
        d := SkimRun(env, entries, b, t);
        ReachesTrans(env, Run(s), Run(t), d);
      }
    case Block(_, _, _, _) =>
      d := BlockSkims(env, entries, c, s);
    case MatchAny(_, _) =>
      d := Step(env, s);
      AnySkims(env, entries, c, s);
    case MatchPrim(_, _, _, _) =>
      d := Step(env, s);
      LeafSkims(env, entries, c, s);
    case Call(_, _, _, _) =>
      d := Step(env, s);
      LeafSkims(env, entries, c, s);
    case _ =>
      d := Step(env, s);
      OtherSkims(env, entries, c, s);
  }

  // ----- when it passes -----------------------------------------------------------------

  /** An element rendered inline is in `c`. */
  predicate HasOpener(c: Code) {
    match c
    case Then(a, b) => HasOpener(a) || HasOpener(b)
    case Block(_, _, _, _) => true
    case _ => false
  }

  /** At the end the code is passed if and only if it has no inline element, and no CHOICE check
      or something matched before. */
  lemma {:induction false} PassesAtEnd(c: Code, matched: bool)
    ensures Skims(c, matched, true).Passes? <==> !HasOpener(c) && (matched || !Fails(c))
    ensures Skims(c, matched, true).Passes? ==> Skims(c, matched, true).matched == matched
  {
    match c
    case Then(a, b) =>
      PassesAtEnd(a, matched);
      PassesAtEnd(b, matched);
    case _ =>
  }

  /** No instruction of `c` takes just anything. */
  predicate NoAny(c: Code) {
    match c
    case Then(a, b) => NoAny(a) && NoAny(b)
    case MatchAny(_, _) => false
    case _ => true
  }

  lemma {:induction false} NotGrabbing(c: Code, o: Octet)
    requires !Grabs(c, o)
    ensures NoAny(c)
  {
    match c
    case Then(a, b) =>
      NotGrabbing(a, o);
      NotGrabbing(b, o);
    case _ =>
  }

  /** In front of another element, code that clears the flag leaves it cleared, code that fails
      stops when it is clear, and code that has to read something stops. */
  lemma {:induction false} StopsBefore(c: Code, matched: bool, nrActions: nat)
    requires Sound(c, nrActions) && NoAny(c)
    ensures var r := Skims(c, matched, false);
            && !r.SkipsFrame?
            && (Eats(c) ==> r.Stops?)
            && (Clears(c) && r.Passes? ==> !r.matched)
            && (Fails(c) && !matched ==> r.Stops?)
            && (r.Passes? && r.matched ==> matched)
  {
    match c
    case Then(a, b) =>
      StopsBefore(a, matched, nrActions);
      var r := Skims(a, matched, false);
      if r.Passes? {
        StopsBefore(b, r.matched, nrActions);
      }
    case _ =>
  }

  /** Code that need not read anything and holds no CHOICE check is passed. */
  lemma {:induction false} PassesBefore(c: Code, matched: bool, nrActions: nat)
    requires Sound(c, nrActions) && !Eats(c) && !Fails(c)
    ensures Skims(c, matched, false).Passes?
  {
    match c
    case Then(a, b) =>
      PassesBefore(a, matched, nrActions);
      PassesBefore(b, Skims(a, matched, false).matched, nrActions);
    case _ =>
  }

  // ----- loops --------------------------------------------------------------------------

  /** Round after round the code is passed: after two of them the flag has been seen before. */
  predicate Circles(c: Code, matched: bool) {
    var r := Skims(c, matched, false);
    r.Passes? && Skims(c, r.matched, false).Passes?
  }

  lemma {:induction false} CirclesOn(c: Code, matched: bool)
    requires Circles(c, matched)
    ensures Circles(c, Skims(c, matched, false).matched)
  {
  }

  lemma {:induction false} CirclesPasses(c: Code, matched: bool)
    requires Circles(c, matched)
    ensures Skims(c, matched, false).Passes?
  {
  }

  /** Code that has to read something does not circle; code that need not, and holds no CHOICE
      check, does. */
  lemma {:induction false} CirclesUnlessEating(c: Code, matched: bool, nrActions: nat)
    requires Sound(c, nrActions) && NoAny(c)
    ensures Eats(c) ==> !Circles(c, matched)
    ensures !Eats(c) && !Fails(c) ==> Circles(c, matched)
  {
    StopsBefore(c, matched, nrActions);
    if !Eats(c) && !Fails(c) {
      PassesBefore(c, matched, nrActions);
      PassesBefore(c, Skims(c, matched, false).matched, nrActions);
    }
  }

  /** At the head of a loop over `inner`, in front of an element that is none of it and does not
      end the contents. */
  ghost predicate AtHead(env: Env, entries: map<Element, int>, kind: Kind, inner: Code, act: Option<nat>, s: State) {
    && Sound(inner, env.nrActions) && Placed(env.machine, inner, entries, s.pc)
    && kind != SeqKind && PlacedEnd(env.machine, kind, s.pc, act, s.pc + Size(inner)) && ActionOk(act, env.nrActions)
    && Nowhere(env, inner, s) && s.dp != s.datalen
    && s.cons != [] && (InDefinite(s) || env.data[s.dp] != 0)
  }

  lemma {:induction false} GoesBack(env: Env, entries: map<Element, int>, kind: Kind, inner: Code, act: Option<nat>,
                                    s: State, t: State) returns (u: State)
    requires AtHead(env, entries, kind, inner, act, s) && Behind(inner, s, t, t.matched)
    ensures Step(env, t) == Run(u) && u.pc == s.pc && SamePlace(s, u) && u.dp == s.dp && u.matched == t.matched
  {
    EndFacts(kind, act);
    var f := t.cons[|t.cons| - 1];
    u := t.(tdp := f.dp, hdr := f.hdrlen, len := t.datalen, pc := s.pc);
    hide EndOp, EndSize, IsEnd, EndsOf, EndsWithAct, OpLength, MatchStep, CallAction, Placed, Grabs, Sound;
  }

  lemma {:induction false} SameHead(env: Env, entries: map<Element, int>, kind: Kind, inner: Code, act: Option<nat>,
                                    s: State, u: State)
    requires AtHead(env, entries, kind, inner, act, s) && u.pc == s.pc && SamePlace(s, u) && u.dp == s.dp
    ensures AtHead(env, entries, kind, inner, act, u)
  {
    hide Placed, PlacedEnd, Grabs, Sound;
  }

  /** A halt is the end of a run: what is reached later is the halt. */
  lemma {:induction false} RunBefore(env: Env, c: Config, m: nat, n: nat)
    requires m <= n && After(env, c, n).Run?
    ensures After(env, c, m).Run?
  {
    hide Step;
    AfterAdd(env, c, m, n - m);
  }

  /** One round: the machine is back at the head, or has stopped. */
  lemma {:induction false} Round(env: Env, entries: map<Element, int>, kind: Kind, inner: Code, act: Option<nat>, s: State)
    returns (n: nat, u: State)
    requires AtHead(env, entries, kind, inner, act, s)
    ensures var r := Skims(inner, s.matched, false);
            if r.Passes? then
              && n > 0 && After(env, Run(s), n) == Run(u) && u.matched == r.matched
              && AtHead(env, entries, kind, inner, act, u)
            else After(env, Run(s), n).Halt? && After(env, Run(s), n).out == TagMismatch
  {
    HeadHolds(env, entries, kind, inner, act, s);
    hide AtHead, Step, Skims, Sound, Placed, After, Nowhere;
    var d := SkimRun(env, entries, inner, s);
    var m: nat :| After(env, Run(s), m) == d;
    n, u := m, s;
    StopsBefore(inner, s.matched, env.nrActions);
    if Skims(inner, s.matched, false).Passes? {
      u := GoesBack(env, entries, kind, inner, act, s, d.st);
      SameHead(env, entries, kind, inner, act, s, u);
      AfterAdd(env, Run(s), m, 1);
      n := m + 1;
      OneStep(env, d.st);
    }
  }

  lemma {:induction false} OneStep(env: Env, s: State)
    ensures After(env, Run(s), 1) == Step(env, s)
  {
    hide Step;
    assert After(env, Step(env, s), 0) == Step(env, s);
  }

  lemma {:induction false} HeadHolds(env: Env, entries: map<Element, int>, kind: Kind, inner: Code, act: Option<nat>,
                                     s: State)
    requires AtHead(env, entries, kind, inner, act, s)
    ensures Sound(inner, env.nrActions) && Placed(env.machine, inner, entries, s.pc) && Nowhere(env, inner, s)
    ensures s.dp != s.datalen && NoAny(inner)
  {
    NotGrabbing(inner, env.data[s.dp]);
    hide Placed, PlacedEnd, Grabs, Sound;
  }

  lemma {:induction false} GoesOn(env: Env, entries: map<Element, int>, kind: Kind, inner: Code, act: Option<nat>,
                                  s: State, n: nat)
    requires AtHead(env, entries, kind, inner, act, s) && Circles(inner, s.matched)
    ensures After(env, Run(s), n).Run?
    decreases n
  {
    hide *;
    var m, u := Round(env, entries, kind, inner, act, s);
    CirclesOn(inner, s.matched);
    CirclesPasses(inner, s.matched);
    if n <= m {
      RunBefore(env, Run(s), n, m);
    } else {
      AfterAdd(env, Run(s), m, n - m);
      GoesOn(env, entries, kind, inner, act, u, n - m);
    }
  }

  /** Exactly when a loop never ends: a machine at the head of a loop, in front of an element
      that none of the repeated instructions matches, runs for ever if and only if the repeated
      code circles; otherwise it stops with a tag mismatch. */
  lemma {:induction false} LoopsForever(env: Env, entries: map<Element, int>, kind: Kind, inner: Code, act: Option<nat>,
                                        s: State)
    requires AtHead(env, entries, kind, inner, act, s)
    ensures (forall n: nat :: After(env, Run(s), n).Run?) <==> Circles(inner, s.matched)
    ensures !Circles(inner, s.matched) ==>
              exists n: nat :: After(env, Run(s), n).Halt? && After(env, Run(s), n).out == TagMismatch
  {
    var m, u := Round(env, entries, kind, inner, act, s);
    hide AtHead, Step, Skims;
    if Circles(inner, s.matched) {
      forall n: nat
        ensures After(env, Run(s), n).Run?
      {
        GoesOn(env, entries, kind, inner, act, s, n);
      }
    } else if Skims(inner, s.matched, false).Passes? {
      var l, w := Round(env, entries, kind, inner, act, u);
      AfterAdd(env, Run(s), m, l);
      assert After(env, Run(s), m + l).Halt?;
    } else {
      assert After(env, Run(s), m).Halt?;
    }
  }

  // ----- absent fields ------------------------------------------------------------------

  lemma {:induction false} SkipsAdd(env: Env, c: Config, m: nat, n: nat)
    ensures SkipsIn(env, c, m + n) == SkipsIn(env, c, m) + SkipsIn(env, After(env, c, m), n)
    decreases m
  {
    hide Step, SkipsOpener;
    if m > 0 && c.Run? {
      SkipsAdd(env, Step(env, c.st), m - 1, n);
    }
  }

  predicate Accepts(env: Env, n: nat) {
    var d := After(env, BerMachine.Start(env), n);
    d.Halt? && d.out.Accepted?
  }

  lemma {:induction false} SkippedOnce(env: Env, c: Config, m: nat, n: nat)
    requires m < n && After(env, c, m).Run? && SkipsOpener(env, After(env, c, m).st)
    ensures SkipsIn(env, c, n) > 0
  {
    hide Step, SkipsOpener;
    SkipsAdd(env, c, m, n - m);
  }

  lemma {:induction false} HaltStays(env: Env, c: Config, m: nat, n: nat)
    requires After(env, c, m).Halt?
    ensures After(env, c, n).Halt? ==> After(env, c, n) == After(env, c, m)
  {
    hide Step;
    if n <= m {
      AfterAdd(env, c, n, m - n);
    } else {
      AfterAdd(env, c, m, n - m);
    }
  }

  /** A run that stops on a mismatch or skips the opener of an inline element is not accepted. */
  lemma {:induction false} NeverAccepted(k: Machine, env: Env, m: nat, n: nat)
    requires For(k, env)
    requires var d := After(env, BerMachine.Start(env), m);
             if d.Halt? then !d.out.Accepted? else SkipsOpener(env, d.st)
    ensures !Accepts(env, n)
  {
    EveryRun(k, env, n);
    hide Machine.Valid, Step, SkipsOpener, After, SkipsIn;
    var c := BerMachine.Start(env);
    if After(env, c, m).Halt? {
      HaltStays(env, c, m, n);
    } else if n > m {
      SkippedOnce(env, c, m, n);
    } else if After(env, c, n).Halt? {
      HaltStays(env, c, n, m);
      StillHalted(env, c, n, m);
    }
  }

  lemma {:induction false} StillHalted(env: Env, c: Config, m: nat, n: nat)
    requires m <= n && After(env, c, m).Halt?
    ensures After(env, c, n).Halt?
  {
    hide Step;
    AfterAdd(env, c, m, n - m);
  }

  /** The machine has come to a field without a match for it. */
  ghost predicate Absent(k: Machine, env: Env, c: Code, n: nat) {
    && For(k, env) && Sound(c, k.nrActions)
    && var d := After(env, BerMachine.Start(env), n);
    d.Run? && Placed(k.m, c, k.entries, d.st.pc) && Nowhere(env, c, d.st)
  }

  /** What an absent field needs to be passed. */
  predicate MayBeLast(c: Code, s: State) {
    s.dp == s.datalen && !HasOpener(c) && (s.matched || !Fails(c))
  }

  lemma {:induction false} PassesIfLast(env: Env, c: Code, s: State)
    requires Sound(c, env.nrActions) && Nowhere(env, c, s) && Eats(c)
    ensures var r := Skims(c, s.matched, s.dp == s.datalen);
            && (r.Passes? <==> MayBeLast(c, s)) && (r.Passes? ==> r.matched == s.matched)
            && (s.dp != s.datalen ==> r.Stops?)
  {
    if s.dp == s.datalen {
      PassesAtEnd(c, s.matched);
    } else {
      NotGrabbing(c, env.data[s.dp]);
      StopsBefore(c, s.matched, env.nrActions);
    }
    hide Skims, Eats, HasOpener, Fails, Sound;
  }

  /** A field with mandatory code that is absent: the run goes on behind it if and only if it is
      the end of the enclosing element, the code has no inline element, and no CHOICE check or
      something matched before. Otherwise the input is refused. */
  lemma {:induction false} AbsentField(k: Machine, env: Env, c: Code, n: nat)
    requires Absent(k, env, c, n) && Eats(c)
    ensures var s := After(env, BerMachine.Start(env), n).st;
            && (MayBeLast(c, s) ==> exists t :: Reaches(env, Run(s), Run(t)) && Behind(c, s, t, s.matched))
            && (!MayBeLast(c, s) ==> forall m: nat :: !Accepts(env, m))
            && (s.dp != s.datalen ==> exists t :: Reaches(env, Run(s), Halt(TagMismatch, t)))
  {
    var s := After(env, BerMachine.Start(env), n).st;
    hide Machine.Valid, Step, Skims, Eats, MayBeLast, Placed, Sound, After, SkipsOpener, Nowhere, Accepts, Behind;
    PassesIfLast(env, c, s);
    var d := SkimRun(env, k.entries, c, s);
    var l: nat :| After(env, Run(s), l) == d;
    AfterAdd(env, BerMachine.Start(env), n, l);
    if MayBeLast(c, s) {
      assert Reaches(env, Run(s), Run(d.st)) && Behind(c, s, d.st, s.matched);
    } else {
      forall m: nat
        ensures !Accepts(env, m)
      {
        NeverAccepted(k, env, n + l, m);
      }
      if s.dp != s.datalen {
        assert Reaches(env, Run(s), Halt(TagMismatch, d.st));
      }
    }
  }
}
