/** Compiler correctness: the machine of a regular grammar decodes every encoding of every value
    that can be read as it is meant, and calls the actions the value asks for. */
module Correct {
  import opened Octets
  import opened Slices
  import opened Bytecode
  import opened Grammar
  import opened Code
  import opened Layout
  import opened SupportedGrammars
  import opened RegularGrammars
  import opened ReadableValues
  import opened BerMachine
  import opened Steps
  import Der
  import Safety

  ghost predicate Good(k: Machine, env: Env) {
    && Safety.For(k, env) && Willing(env)
    && AllOk(k.g.types, k.nrActions) && RegularGrammar(k.g, k.fuel)
  }

  /** Code `c` stands at `pc`, something follows it, and its jumps are known. */
  ghost predicate Here(k: Machine, c: Code, pc: int) {
    && Sound(c, k.nrActions) && Placed(k.m, c, k.entries, pc) && pc + Size(c) < |k.m|
    && forall t :: t in Targets(c) ==> t in k.order
  }

  lemma {:induction false} HereThen(k: Machine, a: Code, b: Code, pc: int)
    requires Here(k, Then(a, b), pc)
    ensures Here(k, a, pc) && Here(k, b, pc + Size(a))
    ensures Size(Then(a, b)) == Size(a) + Size(b)
  {
    hide Placed, Emit, Sound, Size, Targets, Machine.Valid;
    PlacedThen(k.m, a, b, k.entries, pc);
    ThenParts(a, b, k.nrActions);
  }

  lemma {:induction false} ThenParts(a: Code, b: Code, nrActions: nat)
    ensures Sound(Then(a, b), nrActions) <==> Sound(a, nrActions) && Sound(b, nrActions)
    ensures Targets(Then(a, b)) == Targets(a) + Targets(b)
    ensures Size(Then(a, b)) == Size(a) + Size(b)
  {
  }

  /** The octets `b` lie at the cursor, inside the enclosing element. */
  predicate Holds(env: Env, s: State, b: seq<Octet>) {
    Bounded(env, s) && s.dp + |b| <= s.datalen && env.data[s.dp..s.dp + |b|] == b
  }

  /** There is room on both stacks for `depth` more constructed elements. */
  predicate Room(s: State, depth: int) {
    |s.cons| + depth <= NR_CONS_STACK && |s.jumps| <= |s.cons|
  }

  /** From `s` to `t` exactly the value `v` has been decoded. */
  predicate Decoded(g: Grammar, e: Element, v: Der.Value, s: State, t: State) {
    var n, form := Der.Length(g, e, v), Der.FormOf(v);
    var hdr := Der.HeadSize(form, n);
    && SamePlace(s, t) && (Settled(v) ==> t.matched)
    && t.dp == s.dp + hdr + n + Der.TailSize(form) && t.tdp == s.dp + hdr && t.len == n && t.hdr == hdr
    && Seen(t.trace) == Seen(s.trace) + Der.Calls(g, e, v, s.dp)
  }

  // ----- the parts of a tag-length-value element ----------------------------------------

  lemma {:induction false} TlvAt(env: Env, s: State, id: Octet, contents: seq<Octet>)
    requires Holds(env, s, Der.Tlv(id, contents)) && !IsLongTag(id)
    ensures AtTlv(env, s, id, |contents|)
    ensures var start := s.dp + Der.HeaderSize(|contents|);
            env.data[start..start + |contents|] == contents
  {
    var n := |contents|;
    var len := Der.LengthOctets(n);
    var end := s.dp + |Der.Tlv(id, contents)|;
    assert Der.Tlv(id, contents) == [id] + (len + contents);
    Cut(env.data, s.dp, end, [id], len + contents);
    Slices.At(env.data, s.dp, s.dp + 1, [id]);
    assert env.data[s.dp + 0] == id;
    Cut(env.data, s.dp + 1, end, len, contents);
    hide Der.LengthOctets;
  }

  /** A constructed element at the cursor: its header, its contents and what closes it. */
  predicate AtElement(env: Env, s: State, id: Octet, form: Der.Form, contents: seq<Octet>) {
    && AtHeader(env, s, id, form, |contents|)
    && var start := s.dp + Der.HeadSize(form, |contents|);
       var end := start + |contents|;
       && 0 <= s.dp && end + Der.TailSize(form) <= s.datalen <= |env.data|
       && env.data[start..end] == contents
       && (form.Indefinite? ==> env.data[end] == 0 == env.data[end + 1])
  }

  lemma {:induction false} WrapAt(env: Env, s: State, id: Octet, form: Der.Form, contents: seq<Octet>)
    requires Holds(env, s, Der.Wrap(id, form, contents)) && !IsLongTag(id) && HasConsBit(id)
    ensures AtElement(env, s, id, form, contents)
  {
    hide Der.Tlv, AtTlv, IsLongTag, HasConsBit;
    match form {
      case Definite =>
        TlvAt(env, s, id, contents);
        TlvBounds(env, s, id, |contents|);
      case Indefinite => IndefiniteAt(env, s, id, contents);
    }
  }

  lemma {:induction false} TlvBounds(env: Env, s: State, id: Octet, n: nat)
    requires AtTlv(env, s, id, n)
    ensures 0 <= s.dp && s.dp + Der.HeaderSize(n) + n <= s.datalen <= |env.data|
  {
  }

  lemma {:induction false} IndefiniteAt(env: Env, s: State, id: Octet, contents: seq<Octet>)
    requires Holds(env, s, [id, 0x80] + contents + [0, 0]) && !IsLongTag(id) && HasConsBit(id)
    ensures AtElement(env, s, id, Der.Indefinite, contents)
  {
    hide IsLongTag, HasConsBit;
    var whole := [id, 0x80] + contents + [0, 0];
    var end := s.dp + |whole|;
    assert whole == [id, 0x80] + (contents + [0, 0]);
    Cut(env.data, s.dp, end, [id, 0x80], contents + [0, 0]);
    Slices.At(env.data, s.dp, s.dp + 2, [id, 0x80]);
    assert env.data[s.dp + 0] == id && env.data[s.dp + 1] == 0x80;
    Cut(env.data, s.dp + 2, end, contents, [0, 0]);
    Slices.At(env.data, end - 2, end, [0, 0]);
    assert env.data[end - 2 + 0] == 0 && env.data[end - 2 + 1] == 0;
  }

  /** Once the frame is open, the contents lie at the cursor and the frame closes behind them. */
  lemma {:induction false} Entered(env: Env, s: State, id: Octet, form: Der.Form, contents: seq<Octet>, u: State)
    requires AtElement(env, s, id, form, contents) && Bounded(env, s) && s.datalen != 0
    requires Inside(s, u, form, |contents|)
    ensures Holds(env, u, contents) && ClosesIn(env, u, |contents|) && (InDefinite(u) <==> form.Definite?)
  {
    hide AtHeader, Der.HeaderSize;
  }

  lemma {:induction false} ElementBounds(env: Env, s: State, id: Octet, form: Der.Form, contents: seq<Octet>)
    requires AtElement(env, s, id, form, contents)
    ensures Bounded(env, s) && s.datalen != 0 && AtHeader(env, s, id, form, |contents|)
  {
  }

  lemma {:induction false} HoldsFirst(env: Env, s: State, a: seq<Octet>, b: seq<Octet>)
    requires Holds(env, s, a + b)
    ensures Holds(env, s, a)
    ensures env.data[s.dp + |a|..s.dp + |a| + |b|] == b
  {
    Cut(env.data, s.dp, s.dp + |a + b|, a, b);
  }

  // ----- leaves -------------------------------------------------------------------------

  lemma {:induction false} LeafDecoded(g: Grammar, e: Element, v: Der.Value, s: State, t: State)
    requires e.compound.NotCompound? || e.compound.Any?
    requires Der.Conforms(g, e, v) && PastLeaf(s, t, Der.Length(g, e, v), e.action)
    ensures Decoded(g, e, v, s, t)
  {
    hide Seen;
  }

  lemma {:induction false} ExecPrim(k: Machine, env: Env, e: Element, tag: Override, v: Der.Value, s: State) returns (t: State)
    requires Good(k, env) && ElementOk(e, k.nrActions) && e.compound.NotCompound?
    requires tag.Some? ==> TagOk(tag.value) && !tag.value.cons
    requires !(Conditional(e, tag) && s.matched)
    requires Der.Conforms(k.g, e, v) && Holds(env, s, Der.Encode(k.g, e, tag, v))
    requires Here(k, Render(k.g, e, tag, k.fuel), s.pc)
    ensures Step(env, s) == Run(t) && t.pc == s.pc + Size(Render(k.g, e, tag, k.fuel))
    ensures Decoded(k.g, e, v, s, t)
  {
    hide OpTag, Der.Identifier, TagOk, IsLongTag, HasConsBit, TagMatches, Placed, Emit, AtTlv, Step, Machine.Valid,
      Decoded, PastLeaf, Skippable, Conditional;
    var c := Render(k.g, e, tag, k.fuel);
    IdentifierIsOpTag(e, tag, k.nrActions);
    TlvAt(env, s, Der.Identifier(e, tag), v.octets);
    t := StepPrim(env, k.entries, c, s, |v.octets|);
    LeafDecoded(k.g, e, v, s, t);
  }

  lemma {:induction false} ExecAny(k: Machine, env: Env, e: Element, v: Der.Value, s: State) returns (t: State)
    requires Good(k, env) && ElementOk(e, k.nrActions) && e.compound.Any? && !(e.conditional && s.matched)
    requires Der.Conforms(k.g, e, v) && Holds(env, s, Der.Encode(k.g, e, None, v))
    requires Here(k, Render(k.g, e, None, k.fuel), s.pc)
    ensures Step(env, s) == Run(t) && t.pc == s.pc + Size(Render(k.g, e, None, k.fuel))
    ensures Decoded(k.g, e, v, s, t)
  {
    hide OpTag, Der.Identifier, TagOk, IsLongTag, HasConsBit, TagMatches, Placed, Emit, AtTlv, Step, Machine.Valid,
      Decoded, PastLeaf;
    var c := Render(k.g, e, None, k.fuel);
    Der.AnyIsShort(k.g, e, v);
    TlvAt(env, s, v.id, v.octets);
    t := StepAny(env, k.entries, c, s, v.id, |v.octets|);
    LeafDecoded(k.g, e, v, s, t);
  }

  // ----- absent elements ----------------------------------------------------------------

  /** Passable code is passed over where the enclosing element ends, and in front of an
      element it does not grab. */
  lemma {:induction false} PassOver(k: Machine, env: Env, c: Code, s: State) returns (t: State)
    requires Safety.For(k, env) && Here(k, c, s.pc) && Passable(c)
    requires Bounded(env, s)
    requires s.dp == s.datalen ||
             (s.dp + 1 < s.datalen && !IsLongTag(env.data[s.dp]) && !Grabs(c, env.data[s.dp]))
    ensures Reaches(env, Run(s), Run(t)) && t.pc == s.pc + Size(c) && PassedOver(s, t)
    ensures s.dp == s.datalen ==> t.matched == s.matched
    decreases c
  {
    hide Step, Placed, Emit, Machine.Valid, IsLongTag, TagMatches, Reaches;
    match c
    case Nil =>
      t := s;
      ReachesSelf(env, Run(s));
    case Then(a, b) =>
      HereThen(k, a, b, s.pc);
      var u := PassOver(k, env, a, s);
      t := PassOver(k, env, b, u);
      ReachesTrans(env, Run(s), Run(u), Run(t));
    case _ =>
      if s.dp == s.datalen || (IsCond(c) && s.matched) {
        t := StepPast(env, k.entries, c, s);
      } else {
        t := StepMiss(env, k.entries, c, s);
      }
      ReachesStep(env, s);
  }

  // ----- CHOICE -------------------------------------------------------------------------

  /** A conditional instruction behind a match. */
  lemma {:induction false} PastOne(k: Machine, env: Env, c: Code, s: State) returns (t: State)
    requires Safety.For(k, env) && OneMatch(c, true) && Here(k, c, s.pc) && s.matched
    ensures Reaches(env, Run(s), Run(t)) && t == s.(pc := s.pc + Size(c))
    decreases c
  {
    hide Step, Placed, Emit, Machine.Valid, Reaches;
    match c
    case Then(a, b) =>
      HereThen(k, a, b, s.pc);
      t := PastOne(k, env, a, s);
    case _ =>
      t := StepPast(env, k.entries, c, s);
      ReachesStep(env, s);
  }

  /** An instruction that does not take the element at the cursor. */
  lemma {:induction false} MissOne(k: Machine, env: Env, c: Code, cond: bool, s: State) returns (t: State)
    requires Safety.For(k, env) && OneMatch(c, cond) && Here(k, c, s.pc) && !(cond && s.matched)
    requires Bounded(env, s) && s.dp + 1 < s.datalen && !IsLongTag(env.data[s.dp]) && !Grabs(c, env.data[s.dp])
    ensures Reaches(env, Run(s), Run(t)) && t.pc == s.pc + Size(c) && PassedOver(s, t) && !t.matched
    decreases c
  {
    hide Step, Placed, Emit, Machine.Valid, Reaches, IsLongTag, TagMatches;
    match c
    case Then(a, b) =>
      HereThen(k, a, b, s.pc);
      t := MissOne(k, env, a, cond, s);
    case _ =>
      t := StepMiss(env, k.entries, c, s);
      ReachesStep(env, s);
  }

  /** Behind the chosen alternative the conditional ones are passed over. */
  lemma {:induction false} PastAlternatives(k: Machine, env: Env, es: seq<Element>, s: State) returns (t: State)
    requires Good(k, env) && Alternatives(k.g, k.fuel, es, false) && s.matched
    requires Here(k, RenderAll(k.g, es, k.fuel), s.pc)
    ensures Reaches(env, Run(s), Run(t)) && t == s.(pc := s.pc + Size(RenderAll(k.g, es, k.fuel)))
    decreases es
  {
    hide Step, Placed, Emit, Machine.Valid, Reaches, OpTag, Render, Regular, OneMatch;
    if es == [] {
      t := s;
      ReachesSelf(env, Run(s));
    } else {
      var a := Render(k.g, es[0], None, k.fuel);
      HereThen(k, a, RenderAll(k.g, es[1..], k.fuel), s.pc);
      AlternativeCode(k.g, k.fuel, es[0], k.nrActions);
      var u := PastOne(k, env, a, s);
      t := PastAlternatives(k, env, es[1..], u);
      ReachesTrans(env, Run(s), Run(u), Run(t));
    }
  }

  lemma {:induction false} DecodedPast(g: Grammar, e: Element, v: Der.Value, s: State, u: State, pc: int)
    requires Decoded(g, e, v, s, u)
    ensures Decoded(g, e, v, s, u.(pc := pc))
  {
  }

  lemma {:induction false} DecodedFrom(g: Grammar, e: Element, v: Der.Value, s: State, u: State, t: State)
    requires PassedOver(s, u) && Decoded(g, e, v, u, t)
    ensures Decoded(g, e, v, s, t)
  {
  }

  lemma {:induction false} DecodedMatched(g: Grammar, e: Element, v: Der.Value, s: State, t: State)
    requires Decoded(g, e, v, s, t) && Settled(v)
    ensures t.matched
  {
  }

  /** The alternatives of a CHOICE from one on, the `i`th of which is the one to be taken. */
  ghost predicate Choosing(k: Machine, env: Env, es: seq<Element>, first: bool, i: nat, w: Der.Value, s: State) {
    && AllOk(es, k.nrActions) && Alternatives(k.g, k.fuel, es, first)
    && i < |es| && (first || !s.matched)
    && Der.Conforms(k.g, es[i], w) && Readable(k.g, k.fuel, es[i], w)
    && var b := Der.Encode(k.g, es[i], None, w);
       Holds(env, s, b) && b != [] && Unclaimed(k.g, k.fuel, es, i, b[0])
  }

  /** An alternative that is not the one to be taken does not match. */
  lemma {:induction false} MissFirst(k: Machine, env: Env, es: seq<Element>, first: bool, i: nat, w: Der.Value, s: State)
    returns (u: State)
    requires Good(k, env) && Choosing(k, env, es, first, i, w, s) && i > 0
    requires Here(k, RenderAll(k.g, es, k.fuel), s.pc)
    ensures var a := Render(k.g, es[0], None, k.fuel);
            && Reaches(env, Run(s), Run(u)) && PassedOver(s, u) && u.pc == s.pc + Size(a)
            && Size(RenderAll(k.g, es, k.fuel)) == Size(a) + Size(RenderAll(k.g, es[1..], k.fuel))
    ensures Choosing(k, env, es[1..], false, i - 1, w, u) && Here(k, RenderAll(k.g, es[1..], k.fuel), u.pc)
  {
    hide Step, Placed, Emit, Machine.Valid, Reaches, OpTag, Render, IsLongTag, Regular, OneMatch, ElementOk, Grabs,
      Der.Conforms, Readable, Here;
    var a, b := Render(k.g, es[0], None, k.fuel), RenderAll(k.g, es[1..], k.fuel);
    HereThen(k, a, b, s.pc);
    SoundHere(k, a, s.pc);
    AlternativeCode(k.g, k.fuel, es[0], k.nrActions);
    ChosenBegins(k, env, es, first, i, w, s);
    u := MissOne(k, env, a, es[0].conditional, s);
    assert es[i] == es[1..][i - 1];
    assert forall j :: 0 <= j < i - 1 ==> es[1..][j] == es[j + 1];
  }

  lemma {:induction false} SoundHere(k: Machine, c: Code, pc: int)
    requires Here(k, c, pc)
    ensures Sound(c, k.nrActions)
  {
  }

  lemma {:induction false} ChosenBegins(k: Machine, env: Env, es: seq<Element>, first: bool, i: nat, w: Der.Value, s: State)
    requires Good(k, env) && Choosing(k, env, es, first, i, w, s)
    requires Here(k, RenderAll(k.g, es, k.fuel), s.pc)
    ensures Bounded(env, s) && s.dp + 1 < s.datalen && !IsLongTag(env.data[s.dp])
    ensures env.data[s.dp] == Der.Encode(k.g, es[i], None, w)[0]
  {
    hide Render, Machine.Valid, IsLongTag, Regular, ElementOk, Grabs, Placed, Emit;
    AllOkAt(es, i, k.nrActions);
    AlternativeAt(k.g, k.fuel, es, first, i);
    AltIsSound(k.g, k.fuel, es, i, k.nrActions);
    BeginsGrabbed(k.g, k.fuel, es[i], None, w, k.nrActions);
    FirstHeld(env, s, Der.Encode(k.g, es[i], None, w));
  }

  /** Alternatives before the chosen one do not match; the chosen one does. */
  lemma {:induction false} ExecAlternatives(k: Machine, env: Env, es: seq<Element>, first: bool, i: nat,
                                            w: Der.Value, s: State) returns (t: State)
    requires Good(k, env) && Choosing(k, env, es, first, i, w, s) && Settled(w) && Room(s, Der.Nesting(w))
    requires Here(k, RenderAll(k.g, es, k.fuel), s.pc)
    ensures Reaches(env, Run(s), Run(t)) && t.pc == s.pc + Size(RenderAll(k.g, es, k.fuel))
    ensures Decoded(k.g, es[i], w, s, t) && t.matched
    decreases w, es, 3
  {
    hide Step, Placed, Emit, Machine.Valid, Reaches, OpTag, Render, Decoded, IsLongTag, Regular, Good, Here, Holds,
      Grabs, ElementOk, Unclaimed;
    var u: State;
    if i == 0 {
      var a, b := Render(k.g, es[0], None, k.fuel), RenderAll(k.g, es[1..], k.fuel);
      HereThen(k, a, b, s.pc);
      u := Exec(k, env, es[0], None, w, s);
      DecodedMatched(k.g, es[0], w, s, u);
      t := PastAlternatives(k, env, es[1..], u);
      DecodedPast(k.g, es[0], w, s, u, t.pc);
    } else {
      u := MissFirst(k, env, es, first, i, w, s);
      assert es[i] == es[1..][i - 1];
      t := ExecAlternatives(k, env, es[1..], false, i - 1, w, u);
      DecodedFrom(k.g, es[i], w, s, u, t);
    }
    ReachesTrans(env, Run(s), Run(u), Run(t));
  }

  // ----- constructed elements: the inner code -------------------------------------------

  function KindOf(e: Element): Kind {
    match e.compound
    case SequenceOf(_) => SeqOfKind
    case SetOf(_) => SetOfKind
    case _ => SeqKind
  }

  /** The code between the opener and END. */
  function InnerOf(g: Grammar, e: Element, fuel: nat): Code {
    match e.compound
    case Sequence(es) => RenderAll(g, es, fuel)
    case SequenceOf(item) => Render(g, item, None, fuel)
    case SetOf(item) => Render(g, item, None, fuel)
    case _ => Nil
  }

  function ContentsOf(g: Grammar, e: Element, v: Der.Value): seq<Octet> {
    match e.compound
    case Sequence(es) => if v.Fields? then Der.EncodeFields(g, es, v.vals) else []
    case SequenceOf(item) => if v.Items? then Der.EncodeItems(g, item, v.vals) else []
    case SetOf(item) => if v.Items? then Der.EncodeItems(g, item, v.vals) else []
    case _ => []
  }

  function InnerCalls(g: Grammar, e: Element, v: Der.Value, at: int): seq<Der.Call> {
    match e.compound
    case Sequence(es) => if v.Fields? then Der.FieldCalls(g, es, v.vals, at) else []
    case SequenceOf(item) => if v.Items? then Der.ItemCalls(g, item, v.vals, at) else []
    case SetOf(item) => if v.Items? then Der.ItemCalls(g, item, v.vals, at) else []
    case _ => []
  }

  lemma {:induction false} ConstructedParts(g: Grammar, e: Element, tag: Override, fuel: nat, v: Der.Value, at: int)
    requires Der.IsConstructed(e.compound) && !e.compound.Set? && Der.Conforms(g, e, v)
    ensures Render(g, e, tag, fuel) ==
            if OutOfLine(g, e, tag) then Call(OpTag(e, tag), Conditional(e, tag), Skippable(e, tag), e)
            else Block(OpTag(e, tag), KindOf(e), InnerOf(g, e, fuel), e.action)
    ensures RenderBody(g, e, fuel) == Sub(KindOf(e), InnerOf(g, e, fuel), e.action)
    ensures Der.Encode(g, e, tag, v) == Der.Wrap(Der.Identifier(e, tag), Der.FormOf(v), ContentsOf(g, e, v))
    ensures Der.Length(g, e, v) == |ContentsOf(g, e, v)|
    ensures Der.Calls(g, e, v, at) ==
            InnerCalls(g, e, v, at + Der.HeadSize(Der.FormOf(v), Der.Length(g, e, v))) + Der.OwnCall(g, e, v, at)
    ensures v.Fields? || v.Items?
    ensures Der.Nesting(v) >= 1
  {
    ConstructedCode(g, e, tag, fuel);
    hide Render, RenderBody, Der.Conforms, InnerOf;
    ConstructedValue(g, e, tag, v, at);
    hide ContentsOf, InnerCalls, Der.Encode, Der.Length, Der.Calls, Der.Nesting, Der.OwnCall, Der.FormOf;
  }

  lemma {:induction false} ConstructedCode(g: Grammar, e: Element, tag: Override, fuel: nat)
    requires Der.IsConstructed(e.compound) && !e.compound.Set?
    ensures Render(g, e, tag, fuel) ==
            if OutOfLine(g, e, tag) then Call(OpTag(e, tag), Conditional(e, tag), Skippable(e, tag), e)
            else Block(OpTag(e, tag), KindOf(e), InnerOf(g, e, fuel), e.action)
    ensures RenderBody(g, e, fuel) == Sub(KindOf(e), InnerOf(g, e, fuel), e.action)
  {
    hide OpTag, Conditional, Skippable;
  }

  lemma {:induction false} ConstructedValue(g: Grammar, e: Element, tag: Override, v: Der.Value, at: int)
    requires Der.IsConstructed(e.compound) && !e.compound.Set? && Der.Conforms(g, e, v)
    ensures Der.Encode(g, e, tag, v) == Der.Wrap(Der.Identifier(e, tag), Der.FormOf(v), ContentsOf(g, e, v))
    ensures Der.Length(g, e, v) == |ContentsOf(g, e, v)|
    ensures Der.Calls(g, e, v, at) ==
            InnerCalls(g, e, v, at + Der.HeadSize(Der.FormOf(v), Der.Length(g, e, v))) + Der.OwnCall(g, e, v, at)
    ensures v.Fields? || v.Items?
    ensures Der.Nesting(v) >= 1
  {
    hide Der.Identifier, Der.Wrap, Der.HeadSize, Der.OwnCall;
  }

  /** `t` is `s` with `n` octets of contents consumed. */
  predicate Consumed(s: State, t: State, n: nat, calls: seq<Der.Call>) {
    SamePlace(s, t) && t.dp == s.dp + n && Seen(t.trace) == Seen(s.trace) + calls
  }

  lemma {:induction false} ClosesOn(env: Env, s: State, n: nat, t: State, m: nat)
    requires ClosesIn(env, s, n) && SamePlace(s, t) && t.dp == s.dp + m && m <= n
    ensures ClosesIn(env, t, n - m) && (InDefinite(t) <==> InDefinite(s))
  {
  }

  /** An END op for a body that starts at `head`. */
  predicate Body(k: Machine, kind: Kind, act: Option<nat>, inner: Code, head: int) {
    PlacedEnd(k.m, kind, head, act, head + Size(inner)) && ActionOk(act, k.nrActions)
  }

  ghost predicate Ready(k: Machine, e: Element, tag: Override) {
    && ElementOk(e, k.nrActions) && Regular(k.g, k.fuel, e)
    && (tag.Some? ==> TagOk(tag.value) && !tag.value.cons && Overridable(k.g, e, k.fuel))
  }

  // ----- the induction ------------------------------------------------------------------

  /** Running the code of an element over the encoding of a value of it. */
  lemma {:induction false} Exec(k: Machine, env: Env, e: Element, tag: Override, v: Der.Value, s: State)
    returns (t: State)
    requires Good(k, env) && Ready(k, e, tag) && !(Conditional(e, tag) && s.matched)
    requires Der.Conforms(k.g, e, v) && Readable(k.g, k.fuel, e, v)
    requires Holds(env, s, Der.Encode(k.g, e, tag, v)) && Room(s, Der.Nesting(v))
    requires Here(k, Render(k.g, e, tag, k.fuel), s.pc)
    ensures Reaches(env, Run(s), Run(t)) && t.pc == s.pc + Size(Render(k.g, e, tag, k.fuel))
    ensures Decoded(k.g, e, v, s, t)
    decreases v, e, 2
  {
    hide Step, Reaches, Here, Holds, Machine.Valid, Decoded, Good;
    match e.compound
    case NotCompound =>
      t := LeafCase(k, env, e, tag, v, s);
    case Any =>
      t := LeafCase(k, env, e, tag, v, s);
    case TagOverride(inner) =>
      OverrideReady(k, e, tag, v);
      t := Exec(k, env, inner, Some(e), v, s);
      OverrideDecoded(k.g, e, v, s, t);
    case TypeRef(target) =>
      RefReady(k, env, e, tag, v, s);
      var u := Exec(k, env, k.g.types[target], tag, v.val, s);
      t := RefDone(k, env, e, tag, v, s, u);
    case Choice(es) =>
      t := ExecChoice(k, env, e, v, s);
    case _ =>
      t := ExecConstructed(k, env, e, tag, v, s);
  }

  lemma {:induction false} LeafCase(k: Machine, env: Env, e: Element, tag: Override, v: Der.Value, s: State) returns (t: State)
    requires Good(k, env) && Ready(k, e, tag) && (e.compound.NotCompound? || e.compound.Any?)
    requires !(Conditional(e, tag) && s.matched)
    requires Der.Conforms(k.g, e, v) && Holds(env, s, Der.Encode(k.g, e, tag, v))
    requires Here(k, Render(k.g, e, tag, k.fuel), s.pc)
    ensures Reaches(env, Run(s), Run(t)) && t.pc == s.pc + Size(Render(k.g, e, tag, k.fuel))
    ensures Decoded(k.g, e, v, s, t)
  {
    hide Step, Reaches, Here, Holds, Machine.Valid, Decoded, Good;
    if e.compound.Any? {
      t := ExecAny(k, env, e, v, s);
    } else {
      t := ExecPrim(k, env, e, tag, v, s);
    }
    ReachesStep(env, s);
  }

  lemma {:induction false} OverrideReady(k: Machine, e: Element, tag: Override, v: Der.Value)
    requires Ready(k, e, tag) && e.compound.TagOverride?
    ensures tag == None && Ready(k, e.compound.inner, Some(e))
    ensures Conditional(e.compound.inner, Some(e)) == Conditional(e, tag)
    ensures Render(k.g, e, tag, k.fuel) == Render(k.g, e.compound.inner, Some(e), k.fuel)
    ensures Der.Encode(k.g, e, tag, v) == Der.Encode(k.g, e.compound.inner, Some(e), v)
  {
  }

  lemma {:induction false} OverrideDecoded(g: Grammar, e: Element, v: Der.Value, s: State, t: State)
    requires e.compound.TagOverride? && Decoded(g, e.compound.inner, v, s, t)
    ensures Decoded(g, e, v, s, t)
  {
  }

  lemma {:induction false} RefReady(k: Machine, env: Env, e: Element, tag: Override, v: Der.Value, s: State)
    requires Good(k, env) && Ready(k, e, tag) && e.compound.TypeRef? && Der.Conforms(k.g, e, v)
    requires Here(k, Render(k.g, e, tag, k.fuel), s.pc)
    ensures var t := e.compound.target;
            && t < |k.g.types| && Ready(k, k.g.types[t], tag) && Here(k, Render(k.g, k.g.types[t], tag, k.fuel), s.pc)
            && (Conditional(k.g.types[t], tag) ==> Conditional(e, tag))
  {
    var t := e.compound.target;
    RefCode(k.g, e, tag, k.fuel, k.nrActions);
    AllOkAt(k.g.types, t, k.nrActions);
    HereThen(k, Render(k.g, k.g.types[t], tag, k.fuel), ActCode(e.action), s.pc);
    if tag.Some? {
      OverridableMono(k.g, k.g.types[t], k.fuel - 1, k.fuel);
    }
    hide Render, Placed, Machine.Valid, Here;
  }

  /** The ACT behind a reference or a choice, on the element just decoded. */
  lemma {:induction false} ExecAct(k: Machine, env: Env, act: Option<nat>, s: State) returns (t: State)
    requires Safety.For(k, env) && Here(k, ActCode(act), s.pc)
    ensures Reaches(env, Run(s), Run(t)) && t.pc == s.pc + Size(ActCode(act))
    ensures t == s.(pc := t.pc, trace := t.trace) && Seen(t.trace) == Seen(s.trace) + CallOf(act, s.hdr, s.tdp, s.len)
  {
    hide Step, Reaches, Machine.Valid, Seen;
    if act.Some? {
      t := StepAct(env, k.entries, act.value, s);
      ReachesStep(env, s);
    } else {
      t := s;
      ReachesSelf(env, Run(s));
    }
  }

  /** ... which completes the element the ACT belongs to. */
  lemma {:induction false} ActDecoded(g: Grammar, e: Element, v: Der.Value, inner: Element, w: Der.Value, s: State, u: State, t: State)
    requires Der.Length(g, e, v) == Der.Length(g, inner, w) && Der.FormOf(v) == Der.FormOf(w)
    requires Settled(v) == Settled(w)
    requires Der.Calls(g, e, v, s.dp) == Der.Calls(g, inner, w, s.dp) + Der.OwnCall(g, e, v, s.dp)
    requires Decoded(g, inner, w, s, u)
    requires t == u.(pc := t.pc, trace := t.trace)
    requires Seen(t.trace) == Seen(u.trace) + CallOf(e.action, u.hdr, u.tdp, u.len)
    ensures Decoded(g, e, v, s, t)
  {
    hide Seen, Der.Calls, Der.Length, Der.HeadSize, Der.TailSize, Der.FormOf, Settled;
  }

  lemma {:induction false} RefDone(k: Machine, env: Env, e: Element, tag: Override, v: Der.Value, s: State, u: State) returns (t: State)
    requires Good(k, env) && e.compound.TypeRef? && Der.Conforms(k.g, e, v)
    requires Here(k, Render(k.g, e, tag, k.fuel), s.pc)
    requires Reaches(env, Run(s), Run(u)) && Decoded(k.g, k.g.types[e.compound.target], v.val, s, u)
    requires u.pc == s.pc + Size(Render(k.g, k.g.types[e.compound.target], tag, k.fuel))
    ensures Reaches(env, Run(s), Run(t)) && t.pc == s.pc + Size(Render(k.g, e, tag, k.fuel))
    ensures Decoded(k.g, e, v, s, t)
  {
    hide Machine.Valid, Reaches, Step, Seen, Decoded, Placed, Emit, SamePlace;
    var inner := k.g.types[e.compound.target];
    var a := Render(k.g, inner, tag, k.fuel);
    RefCalls(k.g, e, v, s.dp);
    RefCode(k.g, e, tag, k.fuel, k.nrActions);
    HereThen(k, a, ActCode(e.action), s.pc);
    hide Render, Here, Size, ActCode;
    t := ExecAct(k, env, e.action, u);
    ReachesTrans(env, Run(s), Run(u), Run(t));
    ActDecoded(k.g, e, v, inner, v.val, s, u, t);
  }

  lemma {:induction false} RefCalls(g: Grammar, e: Element, v: Der.Value, at: int)
    requires e.compound.TypeRef? && Der.Conforms(g, e, v)
    ensures var inner := g.types[e.compound.target];
            && Der.Calls(g, e, v, at) == Der.Calls(g, inner, v.val, at) + Der.OwnCall(g, e, v, at)
            && Der.Length(g, e, v) == Der.Length(g, inner, v.val)
            && Der.FormOf(v) == Der.FormOf(v.val) && Settled(v) == Settled(v.val)
  {
  }

  lemma {:induction false} ChoiceParts(g: Grammar, e: Element, fuel: nat, v: Der.Value, at: int)
    requires e.compound.Choice? && Der.Conforms(g, e, v)
    ensures var chosen := e.compound.alternatives[v.index];
            && Der.Calls(g, e, v, at) == Der.Calls(g, chosen, v.val, at) + Der.OwnCall(g, e, v, at)
            && Der.Length(g, e, v) == Der.Length(g, chosen, v.val)
            && Der.FormOf(v) == Der.FormOf(v.val) && Settled(v) == Settled(v.val)
            && Der.Encode(g, e, None, v) == Der.Encode(g, chosen, None, v.val)
            && Der.Nesting(v) == Der.Nesting(v.val)
    ensures Render(g, e, None, fuel) ==
            Then(RenderAll(g, e.compound.alternatives, fuel),
                 Then(if e.skippable then Nil else CondFail, ActCode(e.action)))
  {
  }

  /** The alternative a readable value chooses is the one the machine finds. */
  lemma {:induction false} ChoiceReady(k: Machine, env: Env, e: Element, v: Der.Value, s: State)
    requires Good(k, env) && Ready(k, e, None) && e.compound.Choice?
    requires Der.Conforms(k.g, e, v) && Readable(k.g, k.fuel, e, v)
    requires Holds(env, s, Der.Encode(k.g, e.compound.alternatives[v.index], None, v.val))
    requires Here(k, RenderAll(k.g, e.compound.alternatives, k.fuel), s.pc)
    ensures Choosing(k, env, e.compound.alternatives, true, v.index, v.val, s) && Settled(v.val)
  {
    hide Machine.Valid, Render, Placed, Emit, Grabs, IsLongTag;
    var es, i, w := e.compound.alternatives, v.index, v.val;
    AltIsSound(k.g, k.fuel, es, i, k.nrActions);
    AlternativeAt(k.g, k.fuel, es, true, i);
    AllOkAt(es, i, k.nrActions);
    BeginsGrabbed(k.g, k.fuel, es[i], None, w, k.nrActions);
    hide Regular, ElementOk, Der.Conforms, Readable, Holds, Settled;
    if es[i].compound.Any? {
      assert Der.Encode(k.g, es[i], None, w)[0] == w.id;
    }
  }

  lemma {:induction false} ExecChoice(k: Machine, env: Env, e: Element, v: Der.Value, s: State) returns (t: State)
    requires Good(k, env) && Ready(k, e, None) && e.compound.Choice?
    requires Der.Conforms(k.g, e, v) && Readable(k.g, k.fuel, e, v)
    requires Holds(env, s, Der.Encode(k.g, e, None, v)) && Room(s, Der.Nesting(v))
    requires Here(k, Render(k.g, e, None, k.fuel), s.pc)
    ensures Reaches(env, Run(s), Run(t)) && t.pc == s.pc + Size(Render(k.g, e, None, k.fuel))
    ensures Decoded(k.g, e, v, s, t)
    decreases v, e, 1
  {
    hide Machine.Valid, Reaches, Step, Seen, Placed, Emit, Decoded, Holds, Good, Render, RenderAll, Here, Ready,
      SamePlace, Choosing, Readable, Settled, Der.Calls, Der.Length, Der.OwnCall, Der.Nesting, Room, Der.FormOf, Der.Encode;
    ChoiceParts(k.g, e, k.fuel, v, s.dp);
    var es := e.compound.alternatives;
    var a, check, act := RenderAll(k.g, es, k.fuel), (if e.skippable then Nil else CondFail), ActCode(e.action);
    HereThen(k, a, Then(check, act), s.pc);
    HereThen(k, check, act, s.pc + Size(a));
    ChoiceReady(k, env, e, v, s);
    var u := ExecAlternatives(k, env, es, true, v.index, v.val, s);
    GoodIsFor(k, env);
    var w := ExecCheck(k, env, e.skippable, u);
    ReachesTrans(env, Run(s), Run(u), Run(w));
    t := ExecAct(k, env, e.action, w);
    ReachesTrans(env, Run(s), Run(w), Run(t));
    ActDecoded(k.g, e, v, es[v.index], v.val, s, u, t);
  }

  lemma {:induction false} GoodIsFor(k: Machine, env: Env)
    requires Good(k, env)
    ensures Safety.For(k, env)
  {
  }

  lemma {:induction false} ExecCheck(k: Machine, env: Env, skip: bool, s: State) returns (t: State)
    requires Safety.For(k, env) && s.matched
    requires Here(k, if skip then Nil else CondFail, s.pc)
    ensures Reaches(env, Run(s), Run(t)) && t == s.(pc := s.pc + if skip then 0 else 1)
  {
    hide Step, Reaches, Machine.Valid;
    if skip {
      t := s;
      ReachesSelf(env, Run(s));
    } else {
      t := StepCondFail(env, k.entries, s);
      ReachesStep(env, s);
    }
  }

  lemma {:induction false} ExecConstructed(k: Machine, env: Env, e: Element, tag: Override, v: Der.Value, s: State)
    returns (t: State)
    requires Good(k, env) && Ready(k, e, tag) && Der.IsConstructed(e.compound)
    requires !(Conditional(e, tag) && s.matched)
    requires Der.Conforms(k.g, e, v) && Readable(k.g, k.fuel, e, v)
    requires Holds(env, s, Der.Encode(k.g, e, tag, v)) && Room(s, Der.Nesting(v))
    requires Here(k, Render(k.g, e, tag, k.fuel), s.pc)
    ensures Reaches(env, Run(s), Run(t)) && t.pc == s.pc + Size(Render(k.g, e, tag, k.fuel))
    ensures Decoded(k.g, e, v, s, t)
    decreases v, e, 1
  {
    hide *;
    ReadyParts(k, e, tag);
    NestingPositive(k.g, e, v);
    RoomFor(s, v);
    if OutOfLine(k.g, e, tag) {
      var u := EnterCall(k, env, e, tag, v, s);
      RoomInside(s, u, Der.FormOf(v), |ContentsOf(k.g, e, v)|, v);
      var w := ExecBody(k, env, e, v, u);
      t := LeaveCall(k, env, e, tag, v, s, u, w);
    } else {
      var u := EnterBlock(k, env, e, tag, v, s);
      RoomInside(s, u, Der.FormOf(v), |ContentsOf(k.g, e, v)|, v);
      var w := ExecBody(k, env, e, v, u);
      t := LeaveBlock(k, env, e, tag, v, s, u, w);
    }
  }

  lemma {:induction false} ReadyParts(k: Machine, e: Element, tag: Override)
    requires Ready(k, e, tag)
    ensures ElementOk(e, k.nrActions) && Regular(k.g, k.fuel, e) && !e.compound.Set?
  {
  }

  /** At the head of the inner code of `e`, with the contents of `v` to be read and nothing
      else in the enclosing element. */
  ghost predicate AtBody(k: Machine, env: Env, e: Element, v: Der.Value, s: State) {
    && Here(k, InnerOf(k.g, e, k.fuel), s.pc) && Body(k, KindOf(e), e.action, InnerOf(k.g, e, k.fuel), s.pc)
    && Holds(env, s, ContentsOf(k.g, e, v)) && ClosesIn(env, s, |ContentsOf(k.g, e, v)|)
    && (InDefinite(s) <==> Der.FormOf(v).Definite?) && |s.jumps| <= |s.cons| && s.matched
  }

  lemma {:induction false} RoomInside(s: State, t: State, form: Der.Form, n: nat, v: Der.Value)
    requires Room(s, Der.Nesting(v)) && Inside(s, t, form, n) && (v.Fields? || v.Items?) && |t.jumps| <= |s.jumps| + 1
    ensures Room(t, Der.NestingAll(v.vals))
  {
  }

  /** In front of END, all contents read. */
  ghost predicate AtEnd(k: Machine, e: Element, v: Der.Value, s: State, t: State) {
    && t.pc == s.pc + Size(InnerOf(k.g, e, k.fuel)) && (Settled(v) ==> t.matched)
    && Consumed(s, t, |ContentsOf(k.g, e, v)|, InnerCalls(k.g, e, v, s.dp))
  }

  lemma {:induction false} EnterBlock(k: Machine, env: Env, e: Element, tag: Override, v: Der.Value, s: State) returns (t: State)
    requires Good(k, env) && Ready(k, e, tag) && Der.IsConstructed(e.compound) && !OutOfLine(k.g, e, tag)
    requires Der.Conforms(k.g, e, v) && Holds(env, s, Der.Encode(k.g, e, tag, v)) && |s.cons| < NR_CONS_STACK && |s.jumps| <= |s.cons|
    requires Here(k, Render(k.g, e, tag, k.fuel), s.pc)
    ensures Step(env, s) == Run(t) && t.pc == s.pc + 2 && t.jumps == s.jumps
    ensures AtBody(k, env, e, v, t) && Inside(s, t, Der.FormOf(v), |ContentsOf(k.g, e, v)|) && s.datalen != 0
  {
    hide Machine.Valid, Step, Placed, Emit, Render, RenderAll, InnerOf, ContentsOf, OpTag, Der.Identifier, IsLongTag,
      HasConsBit, TagMatches, Der.Wrap, AtHeader, AtElement, Der.Conforms, KindOf, Der.Nesting, PlacedEnd, ClosesIn,
      InDefinite, Holds, Der.FormOf;
    ConstructedParts(k.g, e, tag, k.fuel, v, s.dp);
    IdentifierIsOpTag(e, tag, k.nrActions);
    var c, id, contents := Render(k.g, e, tag, k.fuel), Der.Identifier(e, tag), ContentsOf(k.g, e, v);
    WrapAt(env, s, id, Der.FormOf(v), contents);
    ElementBounds(env, s, id, Der.FormOf(v), contents);
    t := StepOpen(env, k.entries, c, s, id, Der.FormOf(v), |contents|);
    Entered(env, s, id, Der.FormOf(v), contents, t);
    BlockHere(k, c, s.pc);
  }

  lemma {:induction false} BlockHere(k: Machine, c: Code, pc: int)
    requires c.Block? && Here(k, c, pc)
    ensures Here(k, c.inner, pc + 2) && Body(k, c.kind, c.act, c.inner, pc + 2)
    ensures Size(c) == 2 + Size(c.inner) + EndSize(c.kind, c.act)
  {
    PlacedBlock(k.m, c, k.entries, pc);
    PlacedFits(k.m, c, k.entries, pc);
    hide Placed, Emit, Machine.Valid;
  }

  lemma {:induction false} LeaveBlock(k: Machine, env: Env, e: Element, tag: Override, v: Der.Value, s: State, u: State, w: State)
    returns (t: State)
    requires Good(k, env) && Ready(k, e, tag) && Der.IsConstructed(e.compound) && !OutOfLine(k.g, e, tag)
    requires Der.Conforms(k.g, e, v) && Here(k, Render(k.g, e, tag, k.fuel), s.pc)
    requires Step(env, s) == Run(u) && u.pc == s.pc + 2 && u.jumps == s.jumps
    requires AtBody(k, env, e, v, u) && Inside(s, u, Der.FormOf(v), |ContentsOf(k.g, e, v)|) && s.datalen != 0
    requires Reaches(env, Run(u), Run(w)) && AtEnd(k, e, v, u, w)
    ensures Reaches(env, Run(s), Run(t)) && t.pc == s.pc + Size(Render(k.g, e, tag, k.fuel))
    ensures Decoded(k.g, e, v, s, t)
  {
    hide Machine.Valid, Step, Placed, Emit, Render, RenderAll, InnerOf, ContentsOf, OpTag, Der.Conforms, KindOf,
      PlacedEnd, Here, Inside, AtBody, Decoded, Reaches, EndSize, Size;
    ReadyParts(k, e, tag);
    ConstructedParts(k.g, e, tag, k.fuel, v, s.dp);
    BlockHere(k, Render(k.g, e, tag, k.fuel), s.pc);
    t := LeaveBody(k, env, e, v, s, u, w);
    AtEndPlace(k, e, v, u, w);
    ReachesStep(env, s);
    ReachesTrans(env, Run(s), Run(u), Run(w));
    ReachesTrans(env, Run(s), Run(w), Run(t));
    BodyDecoded(k, e, tag, v, s, u, t);
  }

  /** END closes the frame and calls the action of the element. */
  lemma {:induction false} LeaveBody(k: Machine, env: Env, e: Element, v: Der.Value, s: State, u: State, w: State) returns (t: State)
    requires Good(k, env) && Der.IsConstructed(e.compound)
    requires AtBody(k, env, e, v, u) && Inside(s, u, Der.FormOf(v), |ContentsOf(k.g, e, v)|) && s.datalen != 0
    requires Reaches(env, Run(u), Run(w)) && AtEnd(k, e, v, u, w)
    ensures Reaches(env, Run(w), Run(t)) && t.pc == w.pc + EndSize(KindOf(e), e.action)
    ensures Closed(k, e, v, s, u, t)
  {
    hide Machine.Valid, Step, Placed, Emit, Render, InnerOf, ContentsOf, Seen, Reaches, PlacedEnd, InnerCalls, KindOf,
      EndSize, Here, ClosesIn, Holds, Inside, Ended, Der.FormOf, InDefinite, Settled;
    ClosesOn(env, u, |ContentsOf(k.g, e, v)|, w, |ContentsOf(k.g, e, v)|);
    t := StepEnd(env, w, KindOf(e), u.pc, e.action);
    ReachesStep(env, w);
    EndedIsClosed(k, env, e, v, s, u, w, t);
  }

  lemma {:induction false} EndedIsClosed(k: Machine, env: Env, e: Element, v: Der.Value, s: State, u: State, w: State, t: State)
    requires Inside(s, u, Der.FormOf(v), |ContentsOf(k.g, e, v)|) && s.datalen != 0
    requires AtEnd(k, e, v, u, w) && Ended(w, t, e.action)
    ensures Closed(k, e, v, s, u, t)
  {
    hide Machine.Valid, InnerOf, ContentsOf, Seen, InnerCalls, Der.FormOf, Settled, Size, Der.HeaderSize;
  }

  /** Behind END: as `s` was, but behind the element; `u` is the state it was entered with. */
  predicate Closed(k: Machine, e: Element, v: Der.Value, s: State, u: State, t: State) {
    var n, form := |ContentsOf(k.g, e, v)|, Der.FormOf(v);
    && t.datalen == s.datalen && t.cons == s.cons && t.jumps == u.jumps && (Settled(v) ==> t.matched)
    && t.dp == u.dp + n + Der.TailSize(form) && t.tdp == u.dp && t.len == n && t.hdr == Der.HeadSize(form, n)
    && Seen(t.trace) == Seen(s.trace) + InnerCalls(k.g, e, v, u.dp) + CallOf(e.action, t.hdr, u.dp, n)
  }

  lemma {:induction false} AtEndPlace(k: Machine, e: Element, v: Der.Value, s: State, t: State)
    requires AtEnd(k, e, v, s, t)
    ensures t.pc == s.pc + Size(InnerOf(k.g, e, k.fuel)) && SamePlace(s, t)
  {
  }

  lemma {:induction false} BodyDecoded(k: Machine, e: Element, tag: Override, v: Der.Value, s: State, u: State, t: State)
    requires Der.IsConstructed(e.compound) && !e.compound.Set? && Der.Conforms(k.g, e, v)
    requires Inside(s, u, Der.FormOf(v), |ContentsOf(k.g, e, v)|) && Closed(k, e, v, s, u, t) && t.jumps == s.jumps
    ensures Decoded(k.g, e, v, s, t)
  {
    ConstructedParts(k.g, e, tag, k.fuel, v, s.dp);
    hide Machine.Valid, Render, InnerOf, ContentsOf, Seen, InnerCalls, Der.Calls, Der.Length, Der.HeadSize, Der.TailSize,
      Der.Conforms, Der.FormOf, Settled;
  }

  lemma {:induction false} EnterCall(k: Machine, env: Env, e: Element, tag: Override, v: Der.Value, s: State) returns (t: State)
    requires Good(k, env) && Ready(k, e, tag) && Der.IsConstructed(e.compound) && OutOfLine(k.g, e, tag)
    requires !(Conditional(e, tag) && s.matched)
    requires Der.Conforms(k.g, e, v) && Holds(env, s, Der.Encode(k.g, e, tag, v)) && |s.cons| < NR_CONS_STACK && |s.jumps| <= |s.cons|
    requires Here(k, Render(k.g, e, tag, k.fuel), s.pc)
    ensures Step(env, s) == Run(t) && t.jumps == s.jumps + [s.pc + 3] && t.pc == Entry(k.entries, e)
    ensures AtBody(k, env, e, v, t) && Inside(s, t, Der.FormOf(v), |ContentsOf(k.g, e, v)|) && s.datalen != 0
  {
    hide Machine.Valid, Step, Placed, Emit, Render, RenderAll, RenderBody, InnerOf, ContentsOf, OpTag, Der.Identifier,
      IsLongTag, HasConsBit, TagMatches, Der.Wrap, AtHeader, AtElement, Der.Conforms, KindOf, Der.Nesting, PlacedEnd,
      Body, ClosesIn, InDefinite, Holds, Der.FormOf;
    ReadyParts(k, e, tag);
    ConstructedParts(k.g, e, tag, k.fuel, v, s.dp);
    IdentifierIsOpTag(e, tag, k.nrActions);
    var c, id, contents := Render(k.g, e, tag, k.fuel), Der.Identifier(e, tag), ContentsOf(k.g, e, v);
    WrapAt(env, s, id, Der.FormOf(v), contents);
    ElementBounds(env, s, id, Der.FormOf(v), contents);
    GoodFits(k, env);
    CallKnown(k, e, tag, s.pc);
    t := StepCall(env, k.entries, c, s, id, Der.FormOf(v), |contents|);
    Entered(env, s, id, Der.FormOf(v), contents, t);
    SubHere(k, e);
  }

  lemma {:induction false} CallKnown(k: Machine, e: Element, tag: Override, pc: int)
    requires Der.IsConstructed(e.compound) && !e.compound.Set? && OutOfLine(k.g, e, tag)
    requires Here(k, Render(k.g, e, tag, k.fuel), pc)
    ensures e in k.order && Size(Render(k.g, e, tag, k.fuel)) == 3
  {
    assert Targets(Render(k.g, e, tag, k.fuel)) == [e];
  }

  lemma {:induction false} InsideAnyJumps(s: State, u: State, form: Der.Form, n: nat)
    requires Inside(s, u, form, n)
    ensures Inside(s, u.(jumps := s.jumps), form, n)
  {
  }

  /** RETURN changes nothing but pc and the jump stack. */
  lemma {:induction false} ClosedReturned(k: Machine, e: Element, v: Der.Value, s: State, u: State, x: State, t: State)
    requires Closed(k, e, v, s, u, x) && t == x.(pc := t.pc, jumps := s.jumps)
    ensures Closed(k, e, v, s, u.(jumps := s.jumps), t)
  {
  }

  lemma {:induction false} NestingPositive(g: Grammar, e: Element, v: Der.Value)
    requires Der.IsConstructed(e.compound) && Der.Conforms(g, e, v)
    ensures (v.Fields? || v.Items?) && Der.Nesting(v) == 1 + Der.NestingAll(v.vals)
  {
  }

  lemma {:induction false} RoomFor(s: State, v: Der.Value)
    requires Room(s, Der.Nesting(v)) && (v.Fields? || v.Items?)
    ensures |s.cons| < NR_CONS_STACK && |s.jumps| <= |s.cons|
  {
  }

  lemma {:induction false} GoodFits(k: Machine, env: Env)
    requires Good(k, env)
    ensures |k.m| <= 256 && k.g.types != []
  {
  }

  lemma {:induction false} BodyTargets(g: Grammar, order: seq<Element>, fuel: nat, e: Element)
    requires e in order
    ensures forall t :: t in Targets(RenderBody(g, e, fuel)) ==> t in Targets(RenderBodies(g, order, fuel))
    decreases order
  {
    hide RenderBody;
    assert Targets(RenderBodies(g, order, fuel)) ==
           Targets(RenderBody(g, order[0], fuel)) + Targets(RenderBodies(g, order[1..], fuel));
    if e != order[0] {
      BodyTargets(g, order[1..], fuel, e);
    }
  }

  /** The out-of-line code of an element the machine calls. */
  lemma {:induction false} SubHere(k: Machine, e: Element)
    requires k.Valid() && e in k.order && Der.IsConstructed(e.compound) && !e.compound.Set?
    ensures var pc, inner := Entry(k.entries, e), InnerOf(k.g, e, k.fuel);
            && Here(k, inner, pc) && Body(k, KindOf(e), e.action, inner, pc)
            && var ret := pc + Size(inner) + EndSize(KindOf(e), e.action);
               0 <= ret < |k.m| && k.m[ret] == RETURN
  {
    hide Placed, Emit, Render, RenderAll, RenderBody, RenderBodies, InnerOf, Within, EndSize, PlacedEnd, EntriesFrom,
      SoundSubs, Sound, Targets, Size, KindOf;
    var pc, c := Entry(k.entries, e), RenderBody(k.g, e, k.fuel);
    MachineParts(k);
    SubIsPlaced(k.m, k.nrActions, k.g, k.order, k.fuel, k.entries, k.Last() + 1, e);
    BodyTargets(k.g, k.order, k.fuel, e);
    TargetsByPart(k);
    SubCode(k.g, e, k.fuel);
    PlacedSub(k.m, c, k.entries, pc);
    PlacedFits(k.m, c, k.entries, pc);
    SubSize(c);
  }

  lemma {:induction false} SubSize(c: Code)
    requires c.Sub?
    ensures Size(c) == Size(c.inner) + EndSize(c.kind, c.act) + 1 && EndSize(c.kind, c.act) >= 1
    ensures Targets(c) == Targets(c.inner)
  {
  }

  lemma {:induction false} SubCode(g: Grammar, e: Element, fuel: nat)
    requires Der.IsConstructed(e.compound) && !e.compound.Set?
    ensures RenderBody(g, e, fuel) == Sub(KindOf(e), InnerOf(g, e, fuel), e.action)
  {
  }

  lemma {:induction false} LeaveCall(k: Machine, env: Env, e: Element, tag: Override, v: Der.Value, s: State, u: State, w: State)
    returns (t: State)
    requires Good(k, env) && Ready(k, e, tag) && Der.IsConstructed(e.compound) && OutOfLine(k.g, e, tag)
    requires Der.Conforms(k.g, e, v) && Here(k, Render(k.g, e, tag, k.fuel), s.pc)
    requires Step(env, s) == Run(u) && u.jumps == s.jumps + [s.pc + 3] && u.pc == Entry(k.entries, e)
    requires AtBody(k, env, e, v, u) && Inside(s, u, Der.FormOf(v), |ContentsOf(k.g, e, v)|) && s.datalen != 0
    requires Reaches(env, Run(u), Run(w)) && AtEnd(k, e, v, u, w)
    ensures Reaches(env, Run(s), Run(t)) && t.pc == s.pc + Size(Render(k.g, e, tag, k.fuel))
    ensures Decoded(k.g, e, v, s, t)
  {
    hide Machine.Valid, Step, Placed, Emit, Render, RenderAll, InnerOf, ContentsOf, OpTag, Der.Conforms, KindOf,
      PlacedEnd, Here, Inside, AtBody, Decoded, Reaches, EndSize, Body;
    ReadyParts(k, e, tag);
    ConstructedParts(k.g, e, tag, k.fuel, v, s.dp);
    CallKnown(k, e, tag, s.pc);
    GoodIsFor(k, env);
    SubHere(k, e);
    var x := LeaveBody(k, env, e, v, s, u, w);
    AtEndPlace(k, e, v, u, w);
    t := StepReturn(env, x);
    ReachesStep(env, s);
    ReachesStep(env, x);
    ReachesTrans(env, Run(s), Run(u), Run(w));
    ReachesTrans(env, Run(s), Run(w), Run(x));
    ReachesTrans(env, Run(s), Run(x), Run(t));
    assert t.jumps == s.jumps;
    ClosedReturned(k, e, v, s, u, x, t);
    InsideAnyJumps(s, u, Der.FormOf(v), |ContentsOf(k.g, e, v)|);
    BodyDecoded(k, e, tag, v, s, u.(jumps := s.jumps), t);
  }

  lemma {:induction false} ExecBody(k: Machine, env: Env, e: Element, v: Der.Value, s: State) returns (t: State)
    requires Good(k, env) && ElementOk(e, k.nrActions) && Regular(k.g, k.fuel, e) && Der.IsConstructed(e.compound)
    requires Der.Conforms(k.g, e, v) && Readable(k.g, k.fuel, e, v) && AtBody(k, env, e, v, s)
    requires (v.Fields? || v.Items?) && Room(s, Der.NestingAll(v.vals))
    ensures Reaches(env, Run(s), Run(t)) && AtEnd(k, e, v, s, t)
    decreases v, e, 0
  {
    hide Machine.Valid, Placed, Emit, Step, Reaches, PlacedEnd, Seen, Render, RenderAll, ClosesIn, Holds, InDefinite,
      Grabs;
    match e.compound
    case Sequence(es) =>
      t := ExecFields(k, env, es, v.vals, v.form, s);
    case SequenceOf(item) =>
      t := ExecItems(k, env, item, SeqOfKind, e.action, v.vals, v.form, s);
    case SetOf(item) =>
      t := ExecItems(k, env, item, SetOfKind, e.action, v.vals, v.form, s);
  }

  /** The octets of the fields from one on lie at the cursor and are the rest of the contents, of
      an element in the form `form`. */
  ghost predicate AtFields(k: Machine, env: Env, es: seq<Element>, vs: seq<Der.Value>, form: Der.Form, s: State) {
    var b := Der.EncodeFields(k.g, es, vs);
    && AllOk(es, k.nrActions) && AllRegular(k.g, k.fuel, es) && Separate(k.g, k.fuel, es)
    && Der.FieldsConform(k.g, es, vs) && FieldsReadable(k.g, k.fuel, es, vs, form)
    && Holds(env, s, b) && ClosesIn(env, s, |b|) && (InDefinite(s) <==> form.Definite?)
  }

  /** The fields of a SEQUENCE, up to the end of its contents. */
  lemma {:induction false} ExecFields(k: Machine, env: Env, es: seq<Element>, vs: seq<Der.Value>, form: Der.Form, s: State)
    returns (t: State)
    requires Good(k, env) && AtFields(k, env, es, vs, form, s)
    requires Room(s, Der.NestingAll(vs)) && Here(k, RenderAll(k.g, es, k.fuel), s.pc)
    ensures Reaches(env, Run(s), Run(t)) && t.pc == s.pc + Size(RenderAll(k.g, es, k.fuel))
    ensures Consumed(s, t, |Der.EncodeFields(k.g, es, vs)|, Der.FieldCalls(k.g, es, vs, s.dp))
    ensures MatchedAfter(vs, s.matched, form) ==> t.matched
    decreases vs, es, 0
  {
    hide Machine.Valid, Placed, Emit, Step, Reaches, Seen, Render, Here, Good, Holds, Consumed, Regular, Separate,
      Decoded, PassedOver, AtFields, MatchedAfter, Settled, ClosesIn;
    SameLength(k, env, es, vs, form, s);
    if es == [] {
      t := NoFields(k, env, vs, s);
    } else {
      var a, b := Render(k.g, es[0], None, k.fuel), RenderAll(k.g, es[1..], k.fuel);
      HereThen(k, a, b, s.pc);
      var u: State;
      if vs[0].Absent? {
        FieldAbsent(k, env, es, vs, form, s);
        u := PassOver(k, env, a, s);
        AbsentDone(k, env, es, vs, form, s, u);
        RoomOn(s, u, vs);
        t := ExecFields(k, env, es[1..], vs[1..], form, u);
        AbsentCalls(k, es, vs, s, u, t);
      } else {
        FieldPresent(k, env, es, vs, form, s);
        RoomOn(s, s, vs);
        u := Exec(k, env, es[0], None, vs[0], s);
        PresentDone(k, env, es, vs, form, s, u);
        RoomOn(s, u, vs);
        t := ExecFields(k, env, es[1..], vs[1..], form, u);
        PresentCalls(k, es, vs, s, u, t);
      }
      ReachesTrans(env, Run(s), Run(u), Run(t));
    }
  }

  lemma {:induction false} SameLength(k: Machine, env: Env, es: seq<Element>, vs: seq<Der.Value>, form: Der.Form, s: State)
    requires AtFields(k, env, es, vs, form, s)
    ensures |es| == |vs|
  {
    hide ClosesIn, Holds, Der.EncodeFields, AllRegular, Separate, FieldsReadable, AllOk;
  }

  lemma {:induction false} RoomOn(s: State, u: State, vs: seq<Der.Value>)
    requires vs != [] && Room(s, Der.NestingAll(vs)) && SamePlace(s, u)
    ensures Room(s, Der.Nesting(vs[0])) && Room(u, Der.NestingAll(vs[1..]))
  {
  }

  lemma {:induction false} NoFields(k: Machine, env: Env, vs: seq<Der.Value>, s: State) returns (t: State)
    requires vs == []
    ensures Reaches(env, Run(s), Run(t)) && t.pc == s.pc + Size(RenderAll(k.g, [], k.fuel))
    ensures Consumed(s, t, |Der.EncodeFields(k.g, [], vs)|, Der.FieldCalls(k.g, [], vs, s.dp))
    ensures forall form :: MatchedAfter(vs, s.matched, form) ==> t.matched
  {
    t := s;
    ReachesSelf(env, Run(s));
    hide Reaches, Seen;
  }

  /** What follows an absent field does not look like it. */
  lemma {:induction false} FieldAbsent(k: Machine, env: Env, es: seq<Element>, vs: seq<Der.Value>, form: Der.Form, s: State)
    requires Good(k, env) && AtFields(k, env, es, vs, form, s) && es != [] && |vs| == |es| && vs[0].Absent?
    requires Here(k, RenderAll(k.g, es, k.fuel), s.pc)
    ensures var c := Render(k.g, es[0], None, k.fuel);
            && Safety.For(k, env) && Passable(c) && Bounded(env, s)
            && (s.dp == s.datalen ||
                (s.dp + 1 < s.datalen && !IsLongTag(env.data[s.dp]) && !Grabs(c, env.data[s.dp])))
  {
    AbsentIsPassable(k, es, vs, s.pc);
    AbsentRest(k, es, vs);
    GoodFor(k, env);
    var rest := Der.EncodeFields(k.g, es[1..], vs[1..]);
    hide Machine.Valid, Here, Render, RenderAll, Regular, AllRegular, Grabs, Passable, Sound, Separate, Good,
      MayBegin, Der.EncodeFields, Der.FieldsConform, AllOk;
    if rest != [] {
      FieldsBegin(k.g, k.fuel, es[1..], vs[1..], k.nrActions);
      FirstHeld(env, s, rest);
      SeparateFirst(k.g, k.fuel, es, rest[0]);
    }
  }

  lemma {:induction false} GoodFor(k: Machine, env: Env)
    requires Good(k, env)
    ensures Safety.For(k, env) && AllOk(k.g.types, k.nrActions) && RegularGrammar(k.g, k.fuel)
  {
  }

  lemma {:induction false} AbsentIsPassable(k: Machine, es: seq<Element>, vs: seq<Der.Value>, pc: int)
    requires RegularGrammar(k.g, k.fuel) && AllRegular(k.g, k.fuel, es)
    requires Der.FieldsConform(k.g, es, vs) && es != [] && vs[0].Absent?
    requires Here(k, RenderAll(k.g, es, k.fuel), pc)
    ensures Passable(Render(k.g, es[0], None, k.fuel)) && es[0].skippable
    ensures Sound(RenderAll(k.g, es[1..], k.fuel), k.nrActions)
  {
    HereThen(k, Render(k.g, es[0], None, k.fuel), RenderAll(k.g, es[1..], k.fuel), pc);
    hide Placed, Passable, Regular, Render, Machine.Valid;
    OptionalIsPassable(k.g, k.fuel, es[0], k.nrActions);
  }

  lemma {:induction false} AbsentRest(k: Machine, es: seq<Element>, vs: seq<Der.Value>)
    requires AllOk(es, k.nrActions) && AllRegular(k.g, k.fuel, es)
    requires Der.FieldsConform(k.g, es, vs) && es != [] && vs[0].Absent?
    ensures AllOk(es[1..], k.nrActions) && AllRegular(k.g, k.fuel, es[1..]) && Der.FieldsConform(k.g, es[1..], vs[1..])
    ensures Der.EncodeFields(k.g, es, vs) == Der.EncodeFields(k.g, es[1..], vs[1..])
  {
    AbsentIsEmpty(k.g, es[0], None);
    hide Regular, Render, ElementOk;
    assert Der.EncodeFields(k.g, es, vs) == [] + Der.EncodeFields(k.g, es[1..], vs[1..]);
  }

  lemma {:induction false} SeparateFirst(g: Grammar, fuel: nat, es: seq<Element>, o: Octet)
    requires es != [] && Separate(g, fuel, es) && es[0].skippable && MayBegin(g, fuel, es[1..], o)
    ensures !Grabs(Render(g, es[0], None, fuel), o)
  {
    hide Grabs, Render;
  }

  lemma {:induction false} FirstHeld(env: Env, s: State, b: seq<Octet>)
    requires Holds(env, s, b) && b != []
    ensures env.data[s.dp] == b[0]
  {
    Slices.At(env.data, s.dp, s.dp + |b|, b);
    assert env.data[s.dp + 0] == b[0];
  }

  lemma {:induction false} AbsentDone(k: Machine, env: Env, es: seq<Element>, vs: seq<Der.Value>, form: Der.Form,
                                      s: State, u: State)
    requires AtFields(k, env, es, vs, form, s) && es != [] && |vs| == |es| && vs[0].Absent?
    requires PassedOver(s, u) && (s.dp == s.datalen ==> u.matched == s.matched)
    ensures AtFields(k, env, es[1..], vs[1..], form, u) && SamePlace(s, u)
    ensures MatchedAfter(vs, s.matched, form) ==> MatchedAfter(vs[1..], u.matched, form)
  {
    AbsentRest(k, es, vs);
    AbsentMatched(k, env, es, vs, form, s, u);
    hide Render, Regular, Grabs, MatchedAfter, Der.EncodeFields;
    ClosesOn(env, s, |Der.EncodeFields(k.g, es, vs)|, u, 0);
  }

  lemma {:induction false} AbsentMatched(k: Machine, env: Env, es: seq<Element>, vs: seq<Der.Value>, form: Der.Form,
                                         s: State, u: State)
    requires AtFields(k, env, es, vs, form, s) && es != [] && |vs| == |es| && vs[0].Absent?
    requires s.dp == s.datalen ==> u.matched == s.matched
    ensures MatchedAfter(vs, s.matched, form) ==> MatchedAfter(vs[1..], u.matched, form)
  {
    AbsentRest(k, es, vs);
    hide Render, Regular, Grabs, Settled, Der.EncodeFields, Holds;
    if MatchedAfter(vs, s.matched, form) {
      if Der.EncodeFields(k.g, es[1..], vs[1..]) == [] {
        MatchedMore(vs[1..], s.matched && form.Definite?, u.matched, form);
      } else if i: nat :| i < |vs[1..]| && !vs[1..][i].Absent? {
        MatchedAnew(vs[1..], s.matched && form.Definite?, u.matched, form, i);
      } else {
        AllAbsent(k.g, es[1..], vs[1..]);
      }
    }
  }

  lemma {:induction false} AllAbsent(g: Grammar, es: seq<Element>, vs: seq<Der.Value>)
    requires forall i :: 0 <= i < |vs| ==> vs[i].Absent?
    ensures Der.EncodeFields(g, es, vs) == []
    decreases vs
  {
    if es != [] && vs != [] {
      AbsentIsEmpty(g, es[0], None);
      AllAbsent(g, es[1..], vs[1..]);
    }
  }

  lemma {:induction false} AbsentCalls(k: Machine, es: seq<Element>, vs: seq<Der.Value>, s: State, u: State, t: State)
    requires es != [] && vs != [] && vs[0].Absent? && PassedOver(s, u)
    requires Consumed(u, t, |Der.EncodeFields(k.g, es[1..], vs[1..])|, Der.FieldCalls(k.g, es[1..], vs[1..], u.dp))
    ensures Consumed(s, t, |Der.EncodeFields(k.g, es, vs)|, Der.FieldCalls(k.g, es, vs, s.dp))
  {
    AbsentIsEmpty(k.g, es[0], None);
    hide Seen;
    assert Der.FieldCalls(k.g, es, vs, s.dp) == [] + Der.FieldCalls(k.g, es[1..], vs[1..], s.dp);
    assert Der.EncodeFields(k.g, es, vs) == [] + Der.EncodeFields(k.g, es[1..], vs[1..]);
  }

  lemma {:induction false} FieldPresent(k: Machine, env: Env, es: seq<Element>, vs: seq<Der.Value>, form: Der.Form, s: State)
    requires AtFields(k, env, es, vs, form, s) && es != [] && |vs| == |es| && !vs[0].Absent?
    ensures Ready(k, es[0], None) && Der.Conforms(k.g, es[0], vs[0]) && Readable(k.g, k.fuel, es[0], vs[0])
    ensures Holds(env, s, Der.Encode(k.g, es[0], None, vs[0])) && !Conditional(es[0], None)
  {
    hide Regular, ElementOk, Der.Conforms, ClosesIn, Readable, Grabs;
    HoldsFirst(env, s, Der.Encode(k.g, es[0], None, vs[0]), Der.EncodeFields(k.g, es[1..], vs[1..]));
  }

  lemma {:induction false} PresentDone(k: Machine, env: Env, es: seq<Element>, vs: seq<Der.Value>, form: Der.Form,
                                       s: State, u: State)
    requires AtFields(k, env, es, vs, form, s) && es != [] && |vs| == |es| && !vs[0].Absent?
    requires Decoded(k.g, es[0], vs[0], s, u)
    ensures AtFields(k, env, es[1..], vs[1..], form, u) && SamePlace(s, u)
    ensures MatchedAfter(vs, s.matched, form) ==> MatchedAfter(vs[1..], u.matched, form)
  {
    hide Regular, ElementOk, Der.Conforms, Render, Grabs, Der.Length, Der.HeadSize, Der.TailSize, Seen, ClosesIn, Readable,
      Settled, InDefinite;
    Der.EncodeIsTlv(k.g, es[0], None, vs[0]);
    var a, b := Der.Encode(k.g, es[0], None, vs[0]), Der.EncodeFields(k.g, es[1..], vs[1..]);
    assert Der.EncodeFields(k.g, es, vs) == a + b;
    HoldsFirst(env, s, a, b);
    ClosesOn(env, s, |a + b|, u, |a|);
    if MatchedAfter(vs, s.matched, form) {
      MatchedMore(vs[1..], Settled(vs[0]), u.matched, form);
    }
  }

  lemma {:induction false} PresentCalls(k: Machine, es: seq<Element>, vs: seq<Der.Value>, s: State, u: State, t: State)
    requires es != [] && vs != [] && !vs[0].Absent? && Der.Conforms(k.g, es[0], vs[0])
    requires Decoded(k.g, es[0], vs[0], s, u)
    requires Consumed(u, t, |Der.EncodeFields(k.g, es[1..], vs[1..])|, Der.FieldCalls(k.g, es[1..], vs[1..], u.dp))
    ensures Consumed(s, t, |Der.EncodeFields(k.g, es, vs)|, Der.FieldCalls(k.g, es, vs, s.dp))
  {
    Der.EncodeIsTlv(k.g, es[0], None, vs[0]);
    hide Der.Conforms, Der.Length, Der.HeadSize, Der.TailSize, Der.Calls, Seen, Settled;
    assert Der.FieldCalls(k.g, es, vs, s.dp) ==
           Der.Calls(k.g, es[0], vs[0], s.dp) + Der.FieldCalls(k.g, es[1..], vs[1..], u.dp);
  }

  // ----- the items of a repetition ------------------------------------------------------

  /** The octets of the items from one on lie at the cursor and are the rest of the contents, of
      an element in the form `form`. */
  ghost predicate AtItems(k: Machine, env: Env, item: Element, vs: seq<Der.Value>, form: Der.Form, s: State) {
    var b := Der.EncodeItems(k.g, item, vs);
    && Der.ItemsConform(k.g, item, vs) && ItemsReadable(k.g, k.fuel, item, vs, form)
    && Holds(env, s, b) && ClosesIn(env, s, |b|) && (InDefinite(s) <==> form.Definite?)
  }

  /** In front of an item the loop goes round again. */
  predicate Onward(env: Env, s: State) {
    && s.cons != [] && 0 <= s.dp
    && (if InDefinite(s) then s.dp < s.datalen else s.dp + 2 <= s.datalen <= |env.data| && env.data[s.dp] != 0)
  }

  /** The items of a SEQUENCE OF or SET OF: END goes back for each but the last. */
  lemma {:induction false} ExecItems(k: Machine, env: Env, item: Element, kind: Kind, act: Option<nat>,
                                     vs: seq<Der.Value>, form: Der.Form, s: State) returns (t: State)
    requires Good(k, env) && Ready(k, item, None) && !item.conditional && kind != SeqKind
    requires vs != [] && AtItems(k, env, item, vs, form, s) && Room(s, Der.NestingAll(vs))
    requires Here(k, Render(k.g, item, None, k.fuel), s.pc) && Body(k, kind, act, Render(k.g, item, None, k.fuel), s.pc)
    ensures Reaches(env, Run(s), Run(t)) && t.pc == s.pc + Size(Render(k.g, item, None, k.fuel))
    ensures Consumed(s, t, |Der.EncodeItems(k.g, item, vs)|, Der.ItemCalls(k.g, item, vs, s.dp))
    ensures MatchedAfter(vs, s.matched, form) ==> t.matched
    decreases vs, item, 0
  {
    hide Machine.Valid, Placed, Emit, Step, Reaches, Seen, Render, Here, Holds, Consumed, Decoded, Ready, PlacedEnd,
      AtItems, MatchedAfter, Settled;
    ItemReady(k, env, item, vs, form, s);
    RoomOn(s, s, vs);
    var u := Exec(k, env, item, None, vs[0], s);
    ItemDone(k, env, item, vs, form, s, u);
    if |vs| == 1 {
      t := u;
      LastItem(k, item, vs, s, u);
      NoneLeft(u.matched, form);
      assert vs[1..] == [];
    } else {
      var x := StepAgain(env, u, kind, s.pc, act);
      ReachesStep(env, u);
      MoreItems(k, env, item, vs[1..], form, u, x);
      RoomOn(s, x, vs);
      t := ExecItems(k, env, item, kind, act, vs[1..], form, x);
      ReachesTrans(env, Run(u), Run(x), Run(t));
      ReachesTrans(env, Run(s), Run(u), Run(t));
      ItemsCalls(k, item, vs, s, u, x, t);
    }
  }

  lemma {:induction false} NoneLeft(matched: bool, form: Der.Form)
    ensures MatchedAfter([], matched, form) == matched
  {
  }

  lemma {:induction false} ItemReady(k: Machine, env: Env, item: Element, vs: seq<Der.Value>, form: Der.Form, s: State)
    requires vs != [] && AtItems(k, env, item, vs, form, s)
    ensures Der.Conforms(k.g, item, vs[0]) && Readable(k.g, k.fuel, item, vs[0])
    ensures Holds(env, s, Der.Encode(k.g, item, None, vs[0]))
  {
    hide Der.Conforms, Readable, ClosesIn;
    HoldsFirst(env, s, Der.Encode(k.g, item, None, vs[0]), Der.EncodeItems(k.g, item, vs[1..]));
  }

  lemma {:induction false} NotAbsent(g: Grammar, e: Element, v: Der.Value)
    requires Der.Conforms(g, e, v)
    ensures !v.Absent?
    decreases e
  {
    if e.compound.TagOverride? {
      NotAbsent(g, e.compound.inner, v);
    }
  }

  lemma {:induction false} ItemDone(k: Machine, env: Env, item: Element, vs: seq<Der.Value>, form: Der.Form,
                                    s: State, u: State)
    requires vs != [] && AtItems(k, env, item, vs, form, s) && Decoded(k.g, item, vs[0], s, u)
    ensures SamePlace(s, u) && AtItems(k, env, item, vs[1..], form, u)
    ensures |vs| > 1 ==> Onward(env, u)
    ensures MatchedAfter(vs, s.matched, form) ==> MatchedAfter(vs[1..], u.matched, form)
  {
    hide Der.Conforms, Der.Length, Der.HeadSize, Der.TailSize, Seen, ClosesIn, Readable, Settled, InDefinite, Onward;
    Der.EncodeIsTlv(k.g, item, None, vs[0]);
    var a, b := Der.Encode(k.g, item, None, vs[0]), Der.EncodeItems(k.g, item, vs[1..]);
    assert Der.EncodeItems(k.g, item, vs) == a + b;
    HoldsFirst(env, s, a, b);
    ClosesOn(env, s, |a + b|, u, |a|);
    NotAbsent(k.g, item, vs[0]);
    if MatchedAfter(vs, s.matched, form) {
      MatchedMore(vs[1..], Settled(vs[0]), u.matched, form);
    }
    if |vs| > 1 {
      ItemAhead(k, env, item, vs[1..], form, u);
    }
  }

  lemma {:induction false} ItemAhead(k: Machine, env: Env, item: Element, vs: seq<Der.Value>, form: Der.Form, s: State)
    requires vs != [] && AtItems(k, env, item, vs, form, s)
    ensures Onward(env, s)
  {
    hide Readable, Der.Conforms;
    Der.EncodeIsTlv(k.g, item, None, vs[0]);
    var a, b := Der.Encode(k.g, item, None, vs[0]), Der.EncodeItems(k.g, item, vs[1..]);
    assert Der.EncodeItems(k.g, item, vs) == a + b;
    FirstHeld(env, s, a + b);
    assert (a + b)[0] == a[0];
  }

  lemma {:induction false} LastItem(k: Machine, item: Element, vs: seq<Der.Value>, s: State, u: State)
    requires |vs| == 1 && Decoded(k.g, item, vs[0], s, u) && Der.Conforms(k.g, item, vs[0])
    ensures Consumed(s, u, |Der.EncodeItems(k.g, item, vs)|, Der.ItemCalls(k.g, item, vs, s.dp))
  {
    hide Der.Length, Der.HeadSize, Der.TailSize, Seen, Der.Calls, Settled;
    Der.EncodeIsTlv(k.g, item, None, vs[0]);
    assert vs[1..] == [];
    assert Der.ItemCalls(k.g, item, vs, s.dp) == Der.Calls(k.g, item, vs[0], s.dp) + [];
    assert Der.EncodeItems(k.g, item, vs) == Der.Encode(k.g, item, None, vs[0]) + [];
  }

  lemma {:induction false} MoreItems(k: Machine, env: Env, item: Element, vs: seq<Der.Value>, form: Der.Form,
                                     u: State, x: State)
    requires AtItems(k, env, item, vs, form, u) && SamePlace(u, x) && x.dp == u.dp
    ensures AtItems(k, env, item, vs, form, x)
  {
    hide Der.ItemsConform, Der.EncodeItems, ItemsReadable;
  }

  lemma {:induction false} ItemsCalls(k: Machine, item: Element, vs: seq<Der.Value>, s: State, u: State, x: State, t: State)
    requires |vs| > 1 && Der.Conforms(k.g, item, vs[0])
    requires Decoded(k.g, item, vs[0], s, u)
    requires SamePlace(u, x) && x.dp == u.dp && x.trace == u.trace
    requires Consumed(x, t, |Der.EncodeItems(k.g, item, vs[1..])|, Der.ItemCalls(k.g, item, vs[1..], x.dp))
    ensures Consumed(s, t, |Der.EncodeItems(k.g, item, vs)|, Der.ItemCalls(k.g, item, vs, s.dp))
  {
    Der.EncodeIsTlv(k.g, item, None, vs[0]);
    hide Der.Conforms, Der.Length, Der.HeadSize, Der.TailSize, Der.Calls, Seen, Settled;
    assert Der.ItemCalls(k.g, item, vs, s.dp) ==
           Der.Calls(k.g, item, vs[0], s.dp) + Der.ItemCalls(k.g, item, vs[1..], x.dp);
  }

  // ----- the theorem --------------------------------------------------------------------

  lemma {:induction false} RootHere(k: Machine)
    requires k.Valid()
    ensures Here(k, k.Main(), 0)
  {
    MachineParts(k);
    TargetsByPart(k);
    hide Placed, Emit, Render, RenderBodies, Sound;
  }

  lemma {:induction false} StepComplete(env: Env, s: State)
    requires 0 <= s.pc < |env.machine| && env.machine[s.pc] == COMPLETE && s.cons == [] && s.jumps == []
    ensures Step(env, s) == Halt(Accepted, s)
  {
    hide MatchStep, EndStep;
  }

  lemma {:induction false} StartHolds(env: Env)
    requires |env.data| <= 65535
    ensures Start(env) == Run(Init(env)) && Holds(env, Init(env), env.data)
    ensures Init(env).cons == [] && Init(env).jumps == [] && Init(env).trace == [] && Init(env).pc == 0 == Init(env).dp
  {
    assert env.data[0..|env.data|] == env.data;
  }

  /** The code of the root has been run from end to end. */
  ghost predicate RootRun(k: Machine, env: Env, v: Der.Value, t: State)
    requires k.g.types != []
  {
    && Reaches(env, Run(Init(env)), Run(t)) && t.pc == k.Last() && t.cons == [] && t.jumps == []
    && t.dp == |env.data| && Seen(t.trace) == Der.Calls(k.g, k.g.types[0], v, 0)
  }

  lemma {:induction false} RunsRoot(k: Machine, env: Env, v: Der.Value) returns (t: State)
    requires Good(k, env) && k.g.types != []
    requires Der.Conforms(k.g, k.g.types[0], v) && Readable(k.g, k.fuel, k.g.types[0], v)
    requires Der.Nesting(v) <= NR_CONS_STACK
    requires env.data == Der.Encode(k.g, k.g.types[0], None, v) && |env.data| <= 65535
    ensures RootRun(k, env, v, t)
  {
    var root, s := k.g.types[0], Init(env);
    RootReady(k, env);
    RootHere(k);
    StartHolds(env);
    hide Machine.Valid, Reaches, Step, Render, Placed, Emit, Here, Holds, Ready, Good, Init, Start, RenderBodies,
      Der.Conforms, Der.Calls, Der.Nesting, Der.HeaderSize, RenderMachine, Size, Der.Encode, Der.Length, Seen;
    t := Exec(k, env, root, None, v, s);
    Der.EncodeIsTlv(k.g, root, None, v);
    NothingSeen();
    assert Seen(t.trace) == Der.Calls(k.g, root, v, 0);
  }

  /** Compiler correctness. Whatever regular grammar was compiled and whatever value is encoded,
      each of its constructed elements in the definite or the indefinite form: if it can be read
      as it is meant, nests at most ten deep and is short enough for the machine, the run over
      the encoding is accepted, stops exactly at its end, and has called exactly the actions of
      the value, in order, each on the contents of its own element and with the true lengths of
      those and of the header. */
  lemma {:induction false} CompilerIsCorrect(k: Machine, env: Env, v: Der.Value)
    requires Good(k, env)
    requires Der.Conforms(k.g, k.g.types[0], v) && Readable(k.g, k.fuel, k.g.types[0], v)
    requires Der.Nesting(v) <= NR_CONS_STACK
    requires env.data == Der.Encode(k.g, k.g.types[0], None, v) && |env.data| <= 65535
    ensures exists t :: Reaches(env, Start(env), Halt(Accepted, t))
                        && t.dp == |env.data| && Seen(t.trace) == Der.Calls(k.g, k.g.types[0], v, 0)
  {
    RootReady(k, env);
    MachineParts(k);
    StartHolds(env);
    var t := RunsRoot(k, env, v);
    hide Machine.Valid, Reaches, Step, Render, Placed, Emit, Good, Init, Start, RenderBodies,
      Der.Conforms, Der.Calls, Der.Nesting, Der.Encode, Seen;
    StepComplete(env, t);
    ReachesStep(env, t);
    ReachesTrans(env, Run(Init(env)), Run(t), Halt(Accepted, t));
  }

  lemma {:induction false} NothingSeen()
    ensures Seen([]) == []
  {
  }

  lemma {:induction false} RootReady(k: Machine, env: Env)
    requires Good(k, env)
    ensures k.Valid() && k.g.types != [] && Ready(k, k.g.types[0], None) && env.machine == k.m
  {
    AllOkAt(k.g.types, 0, k.nrActions);
    hide Machine.Valid, ElementOk, Regular;
  }
}
