/** The ten entries of the stacks: a regular grammar's machine accepts the encoding of a readable
    value if and only if its constructed elements nest at most ten deep. */
module Depth {
  import opened Octets
  import opened Bytecode
  import opened Grammar
  import opened Code
  import opened Layout
  import opened BerMachine
  import opened Steps
  import opened SupportedGrammars
  import opened RegularGrammars
  import opened ReadableValues
  import opened Correct
  import Der

  /** The stack has room for what is open, but not for `depth` more. */
  predicate TooDeep(s: State, depth: int) {
    |s.jumps| <= |s.cons| <= NR_CONS_STACK < |s.cons| + depth
  }

  ghost predicate Overflows(env: Env, s: State, d: Config) {
    Reaches(env, Run(s), d) && d.Halt? && d.out == ConsOverflow
  }

  lemma {:induction false} OverflowsFrom(env: Env, s: State, u: State, d: Config)
    requires Reaches(env, Run(s), Run(u)) && Overflows(env, u, d)
    ensures Overflows(env, s, d)
  {
    hide Reaches;
    ReachesTrans(env, Run(s), Run(u), d);
  }

  // ----- the eleventh opener ------------------------------------------------------------

  lemma {:induction false} HeaderOverflows(env: Env, s: State, id: Octet, form: Der.Form, n: nat, op: int)
    requires AtHeader(env, s, id, form, n) && |s.cons| == NR_CONS_STACK
    ensures Header(env, Tagged(s, id, true), op).Halt? && Header(env, Tagged(s, id, true), op).out == ConsOverflow
  {
    var u := ConstructedRead(env, s, id, form, n);
    hide Matched, ReadLength, Sized, Tagged, AtHeader;
  }

  lemma {:induction false} OpenOverflows(env: Env, entries: map<Element, int>, c: Code, s: State, id: Octet,
                                         form: Der.Form, n: nat)
    requires c.Block? && Sound(c, env.nrActions) && Placed(env.machine, c, entries, s.pc)
    requires AtHeader(env, s, id, form, n) && TagMatches(c.optag, id) && |s.cons| == NR_CONS_STACK
    ensures Step(env, s).Halt? && Step(env, s).out == ConsOverflow
  {
    PlacedBlock(env.machine, c, entries, s.pc);
    HeaderFacts(env, s, id, form, n);
    HeaderOverflows(env, s, id, form, n, MATCH);
    hide Header, Tagged, TagMatches, IsLongTag, EndStep, Emit, Placed, PlacedEnd, CallAction, AtHeader;
  }

  lemma {:induction false} CallOverflows(env: Env, entries: map<Element, int>, c: Code, s: State, id: Octet,
                                         form: Der.Form, n: nat)
    requires c.Call? && Sound(c, env.nrActions) && Placed(env.machine, c, entries, s.pc)
    requires AtHeader(env, s, id, form, n) && TagMatches(c.optag, id) && |s.cons| == NR_CONS_STACK
    requires !(c.cond && s.matched)
    ensures Step(env, s).Halt? && Step(env, s).out == ConsOverflow
  {
    hide Header, Tagged, TagMatches, IsLongTag, EndStep, Emit, Placed, CallAction, OpOf, IsCond,
      HasAct, HasSkip, HasCond, HasAny, OpLength, HasConsBit, Entry, AtHeader;
    CallOperands(env, entries, c, s.pc);
    LeafOp(env, entries, c, s.pc);
    HeaderFacts(env, s, id, form, n);
    HeaderOverflows(env, s, id, form, n, env.machine[s.pc]);
  }

  /** The opener of a constructed element, with ten elements open. */
  lemma {:induction false} Opener(k: Machine, env: Env, e: Element, tag: Override, v: Der.Value, s: State)
    requires Good(k, env) && Ready(k, e, tag) && Der.IsConstructed(e.compound) && !(Conditional(e, tag) && s.matched)
    requires Der.Conforms(k.g, e, v) && Holds(env, s, Der.Encode(k.g, e, tag, v)) && |s.cons| == NR_CONS_STACK
    requires Here(k, Render(k.g, e, tag, k.fuel), s.pc)
    ensures Step(env, s).Halt? && Step(env, s).out == ConsOverflow
  {
    hide Machine.Valid, Step, Placed, Emit, Render, RenderAll, InnerOf, ContentsOf, OpTag, Der.Identifier, IsLongTag,
      HasConsBit, TagMatches, Der.Wrap, AtHeader, AtElement, Der.Conforms, KindOf, Der.Nesting, PlacedEnd, Der.FormOf;
    ReadyParts(k, e, tag);
    ConstructedParts(k.g, e, tag, k.fuel, v, s.dp);
    IdentifierIsOpTag(e, tag, k.nrActions);
    var c, id, contents := Render(k.g, e, tag, k.fuel), Der.Identifier(e, tag), ContentsOf(k.g, e, v);
    WrapAt(env, s, id, Der.FormOf(v), contents);
    ElementBounds(env, s, id, Der.FormOf(v), contents);
    if OutOfLine(k.g, e, tag) {
      CallOverflows(env, k.entries, c, s, id, Der.FormOf(v), |contents|);
    } else {
      OpenOverflows(env, k.entries, c, s, id, Der.FormOf(v), |contents|);
    }
  }

  // ----- the induction ------------------------------------------------------------------

  lemma {:induction false} Deep(k: Machine, env: Env, e: Element, tag: Override, v: Der.Value, s: State)
    returns (d: Config)
    requires Good(k, env) && Ready(k, e, tag) && !(Conditional(e, tag) && s.matched)
    requires Der.Conforms(k.g, e, v) && Readable(k.g, k.fuel, e, v)
    requires Holds(env, s, Der.Encode(k.g, e, tag, v)) && TooDeep(s, Der.Nesting(v))
    requires Here(k, Render(k.g, e, tag, k.fuel), s.pc)
    ensures Overflows(env, s, d)
    decreases v, e, 2
  {
    hide Step, Here, Holds, Machine.Valid, Good, Overflows;
    match e.compound
    case TagOverride(inner) =>
      OverrideReady(k, e, tag, v);
      d := Deep(k, env, inner, Some(e), v, s);
    case TypeRef(target) =>
      RefReady(k, env, e, tag, v, s);
      d := Deep(k, env, k.g.types[target], tag, v.val, s);
    case Choice(es) => d := DeepChoice(k, env, e, v, s);
    case Sequence(_) => d := DeepConstructed(k, env, e, tag, v, s);
    case SequenceOf(_) => d := DeepConstructed(k, env, e, tag, v, s);
    case SetOf(_) => d := DeepConstructed(k, env, e, tag, v, s);
  }

  lemma {:induction false} DeepChoice(k: Machine, env: Env, e: Element, v: Der.Value, s: State) returns (d: Config)
    requires Good(k, env) && Ready(k, e, None) && e.compound.Choice?
    requires Der.Conforms(k.g, e, v) && Readable(k.g, k.fuel, e, v)
    requires Holds(env, s, Der.Encode(k.g, e, None, v)) && TooDeep(s, Der.Nesting(v))
    requires Here(k, Render(k.g, e, None, k.fuel), s.pc)
    ensures Overflows(env, s, d)
    decreases v, e, 1
  {
    hide Machine.Valid, Step, Placed, Emit, Holds, Good, Render, RenderAll, Here, Ready, Choosing, Readable, Der.Calls,
      Der.Length, Der.OwnCall, Der.Nesting, Der.FormOf, Der.Encode, Overflows;
    ChoiceParts(k.g, e, k.fuel, v, s.dp);
    var es := e.compound.alternatives;
    HereThen(k, RenderAll(k.g, es, k.fuel), Then(if e.skippable then Nil else CondFail, ActCode(e.action)), s.pc);
    ChoiceReady(k, env, e, v, s);
    d := DeepAlternatives(k, env, es, true, v.index, v.val, s);
  }

  lemma {:induction false} DeepAlternatives(k: Machine, env: Env, es: seq<Element>, first: bool, i: nat,
                                            w: Der.Value, s: State) returns (d: Config)
    requires Good(k, env) && Choosing(k, env, es, first, i, w, s) && TooDeep(s, Der.Nesting(w))
    requires Here(k, RenderAll(k.g, es, k.fuel), s.pc)
    ensures Overflows(env, s, d)
    decreases w, es, 3
  {
    hide Step, Placed, Emit, Machine.Valid, OpTag, Render, Regular, Good, Here, Holds, Grabs, ElementOk, Unclaimed,
      Overflows, Reaches;
    if i == 0 {
      HereThen(k, Render(k.g, es[0], None, k.fuel), RenderAll(k.g, es[1..], k.fuel), s.pc);
      d := Deep(k, env, es[0], None, w, s);
    } else {
      var u := MissFirst(k, env, es, first, i, w, s);
      d := DeepAlternatives(k, env, es[1..], false, i - 1, w, u);
      OverflowsFrom(env, s, u, d);
    }
  }

  lemma {:induction false} DeepConstructed(k: Machine, env: Env, e: Element, tag: Override, v: Der.Value, s: State)
    returns (d: Config)
    requires Good(k, env) && Ready(k, e, tag) && Der.IsConstructed(e.compound) && !(Conditional(e, tag) && s.matched)
    requires Der.Conforms(k.g, e, v) && Readable(k.g, k.fuel, e, v)
    requires Holds(env, s, Der.Encode(k.g, e, tag, v)) && TooDeep(s, Der.Nesting(v))
    requires Here(k, Render(k.g, e, tag, k.fuel), s.pc)
    ensures Overflows(env, s, d)
    decreases v, e, 1
  {
    ReachesStep(env, s);
    hide Step, Here, Holds, Machine.Valid, Good, AtBody, Der.Conforms, Der.Encode, Render, Inside, Reaches, Ready;
    ReadyParts(k, e, tag);
    NestingPositive(k.g, e, v);
    if |s.cons| == NR_CONS_STACK {
      Opener(k, env, e, tag, v, s);
      d := Step(env, s);
    } else {
      var u: State;
      if OutOfLine(k.g, e, tag) {
        u := EnterCall(k, env, e, tag, v, s);
      } else {
        u := EnterBlock(k, env, e, tag, v, s);
      }
      DeepInside(s, u, Der.FormOf(v), |ContentsOf(k.g, e, v)|, v);
      d := DeepBody(k, env, e, v, u);
      OverflowsFrom(env, s, u, d);
    }
  }

  lemma {:induction false} DeepInside(s: State, t: State, form: Der.Form, n: nat, v: Der.Value)
    requires v.Fields? || v.Items?
    requires TooDeep(s, 1 + Der.NestingAll(v.vals)) && |s.cons| < NR_CONS_STACK && Inside(s, t, form, n)
    requires |t.jumps| <= |s.jumps| + 1
    ensures TooDeep(t, Der.NestingAll(v.vals))
  {
  }

  lemma {:induction false} DeepBody(k: Machine, env: Env, e: Element, v: Der.Value, s: State) returns (d: Config)
    requires Good(k, env) && ElementOk(e, k.nrActions) && Regular(k.g, k.fuel, e) && Der.IsConstructed(e.compound)
    requires Der.Conforms(k.g, e, v) && Readable(k.g, k.fuel, e, v) && AtBody(k, env, e, v, s)
    requires (v.Fields? || v.Items?) && TooDeep(s, Der.NestingAll(v.vals))
    ensures Overflows(env, s, d)
    decreases v, e, 0
  {
    hide Machine.Valid, Placed, Emit, Step, Reaches, PlacedEnd, Render, RenderAll, Overflows, ClosesIn, Holds, InDefinite,
      Grabs;
    match e.compound
    case Sequence(es) =>
      d := DeepFields(k, env, es, v.vals, v.form, s);
    case SequenceOf(item) =>
      d := DeepItems(k, env, item, SeqOfKind, e.action, v.vals, v.form, s);
    case SetOf(item) =>
      d := DeepItems(k, env, item, SetOfKind, e.action, v.vals, v.form, s);
  }

  /** The first field that nests too deep is reached. */
  lemma {:induction false} DeepFields(k: Machine, env: Env, es: seq<Element>, vs: seq<Der.Value>, form: Der.Form, s: State)
    returns (d: Config)
    requires Good(k, env) && AtFields(k, env, es, vs, form, s)
    requires TooDeep(s, Der.NestingAll(vs)) && Here(k, RenderAll(k.g, es, k.fuel), s.pc)
    ensures Overflows(env, s, d)
    decreases vs, es, 0
  {
    hide Machine.Valid, Placed, Emit, Step, Reaches, Render, Here, Good, Holds, Regular, Separate, Decoded, PassedOver,
      Overflows, AtFields;
    SameLength(k, env, es, vs, form, s);
    var a, b := Render(k.g, es[0], None, k.fuel), RenderAll(k.g, es[1..], k.fuel);
    HereThen(k, a, b, s.pc);
    if vs[0].Absent? {
      FieldAbsent(k, env, es, vs, form, s);
      var u := PassOver(k, env, a, s);
      AbsentDone(k, env, es, vs, form, s, u);
      d := DeepFields(k, env, es[1..], vs[1..], form, u);
      OverflowsFrom(env, s, u, d);
    } else {
      FieldPresent(k, env, es, vs, form, s);
      if TooDeep(s, Der.Nesting(vs[0])) {
        d := Deep(k, env, es[0], None, vs[0], s);
      } else {
        var u := Exec(k, env, es[0], None, vs[0], s);
        PresentDone(k, env, es, vs, form, s, u);
        d := DeepFields(k, env, es[1..], vs[1..], form, u);
        OverflowsFrom(env, s, u, d);
      }
    }
  }

  lemma {:induction false} DeepItems(k: Machine, env: Env, item: Element, kind: Kind, act: Option<nat>,
                                     vs: seq<Der.Value>, form: Der.Form, s: State) returns (d: Config)
    requires Good(k, env) && Ready(k, item, None) && !item.conditional && kind != SeqKind
    requires vs != [] && AtItems(k, env, item, vs, form, s) && TooDeep(s, Der.NestingAll(vs))
    requires Here(k, Render(k.g, item, None, k.fuel), s.pc) && Body(k, kind, act, Render(k.g, item, None, k.fuel), s.pc)
    ensures Overflows(env, s, d)
    decreases vs, item, 0
  {
    hide Machine.Valid, Placed, Emit, Step, Reaches, Render, Here, Holds, Decoded, Ready, PlacedEnd, Overflows, AtItems;
    ItemReady(k, env, item, vs, form, s);
    if TooDeep(s, Der.Nesting(vs[0])) {
      d := Deep(k, env, item, None, vs[0], s);
    } else {
      var u := Exec(k, env, item, None, vs[0], s);
      ItemDone(k, env, item, vs, form, s, u);
      OneIsNotAll(s, vs);
      var x := StepAgain(env, u, kind, s.pc, act);
      ReachesStep(env, u);
      MoreItems(k, env, item, vs[1..], form, u, x);
      d := DeepItems(k, env, item, kind, act, vs[1..], form, x);
      OverflowsFrom(env, u, x, d);
      OverflowsFrom(env, s, u, d);
    }
  }

  lemma {:induction false} OneIsNotAll(s: State, vs: seq<Der.Value>)
    requires vs != [] && TooDeep(s, Der.NestingAll(vs)) && !TooDeep(s, Der.Nesting(vs[0]))
    ensures |vs| > 1 && TooDeep(s, Der.NestingAll(vs[1..]))
  {
  }

  // ----- the theorem --------------------------------------------------------------------

  lemma {:induction false} DeepIsRefused(k: Machine, env: Env, v: Der.Value) returns (d: Config)
    requires Good(k, env) && k.g.types != []
    requires Der.Conforms(k.g, k.g.types[0], v) && Readable(k.g, k.fuel, k.g.types[0], v)
    requires Der.Nesting(v) > NR_CONS_STACK
    requires env.data == Der.Encode(k.g, k.g.types[0], None, v) && |env.data| <= 65535
    ensures Overflows(env, Init(env), d)
  {
    RootReady(k, env);
    RootHere(k);
    StartHolds(env);
    hide Machine.Valid, Reaches, Step, Render, Placed, Emit, Here, Holds, Ready, Good, Init, Start, RenderBodies,
      Der.Conforms, Der.Nesting, RenderMachine, Der.Encode, Overflows;
    d := Deep(k, env, k.g.types[0], None, v, Init(env));
  }

  /** Over the encoding of a readable value of a regular grammar the run ends accepted if and only
      if the value nests at most ten deep; otherwise it ends with an overflow of the stack. */
  lemma {:induction false} TenDeep(k: Machine, env: Env, v: Der.Value)
    requires Good(k, env) && k.g.types != []
    requires Der.Conforms(k.g, k.g.types[0], v) && Readable(k.g, k.fuel, k.g.types[0], v)
    requires env.data == Der.Encode(k.g, k.g.types[0], None, v) && |env.data| <= 65535
    ensures (exists t :: Reaches(env, Start(env), Halt(Accepted, t))) <==> Der.Nesting(v) <= NR_CONS_STACK
    ensures Der.Nesting(v) > NR_CONS_STACK ==> exists t :: Reaches(env, Start(env), Halt(ConsOverflow, t))
  {
    hide Machine.Valid, Step, Good, Der.Conforms, Der.Nesting, Der.Encode, Der.Calls, Seen, Reaches;
    if Der.Nesting(v) <= NR_CONS_STACK {
      CompilerIsCorrect(k, env, v);
    } else {
      var d := DeepIsRefused(k, env, v);
      assert Reaches(env, Start(env), Halt(ConsOverflow, d.st));
      forall t | Reaches(env, Start(env), Halt(Accepted, t))
        ensures false
      {
        OneHalt(env, Start(env), d, Halt(Accepted, t));
      }
    }
  }

  lemma {:induction false} OneHalt(env: Env, c: Config, d: Config, e: Config)
    requires Reaches(env, c, d) && Reaches(env, c, e) && d.Halt? && e.Halt?
    ensures d == e
  {
    hide Step;
    var m: nat :| After(env, c, m) == d;
    var n: nat :| After(env, c, n) == e;
    OneEnd(env, c, m, n);
  }
}
