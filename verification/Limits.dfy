/** Where the code does less than a reader of its documentation might expect, and exactly when
    it does. */
module Limits {
  import opened Octets
  import opened Bytecode
  import opened Grammar
  import opened Code
  import opened Layout
  import opened BerMachine
  import opened Safety
  import opened Steps
  import opened Termination
  import opened TerminatingGrammars
  import opened Queue
  import Nesting
  import Roots
  import Skimming
  import Der

  // ----- machines without code out of line ----------------------------------------------

  /** What the compiler makes of a grammar without actions if nothing goes out of line. */
  function Inline(g: Grammar, fuel: nat): Machine
    requires g.types != []
  {
    Machine(g, fuel, [], map[], 0, Emit(RenderMachine(g, [], fuel), map[], 0))
  }

  /** Nothing does, and the machine is a valid one. */
  ghost predicate IsInline(g: Grammar, fuel: nat) {
    g.types != [] && IsFinal(g, fuel, []) && Inline(g, fuel).Valid()
  }

  lemma {:induction false} CallsNothing(g: Grammar, fuel: nat, c: Code)
    requires g.types != [] && Render(g, g.types[0], None, fuel) == c
    requires Targets(c) == [] && Sound(c, 0) && Size(c) <= 255
    ensures IsInline(g, fuel)
  {
    hide Render, Emit, Sound;
    var img := Then(c, Then(Complete, Nil));
    assert Size(Then(Complete, Nil)) == 1 && Targets(Then(Complete, Nil)) == [];
    assert RenderMachine(g, [], fuel) == img && Targets(img) == [] && Size(img) <= 256;
    assert OrderAfter(g, fuel, 0) == AddAll([], []) == [];
  }

  // ----- runs that never stop -----------------------------------------------------------

  /** SEQUENCE OF INTEGER OPTIONAL. */
  function OptionalItems(): Grammar {
    var item := Element(1, 0, false, 2, true, false, None, None, NotCompound);
    Grammar([Element(0, 0, true, 16, false, false, None, Some(0), SequenceOf(item))], [0])
  }

  /** The code that is repeated. */
  function OptionalItem(): Code {
    MatchPrim(2, false, true, None)
  }

  lemma {:induction false} OptionalItemsTable()
    ensures Emit(RenderMachine(OptionalItems(), [], 0), map[], 0)
            == [MATCH, 0x30, MATCH + 1, 0x02, END_SEQ_OF, 2, COMPLETE]
    ensures IsInline(OptionalItems(), 0)
  {
    var g := OptionalItems();
    var inner := OptionalItem();
    var root := Block(0x30, SeqOfKind, inner, None);
    assert Render(g, g.types[0], None, 0) == root;
    assert RenderMachine(g, [], 0) == Then(root, Then(Complete, Nil));
    assert Emit(inner, map[], 2) == [MATCH + 1, 0x02];
    assert Emit(root, map[], 0) == [MATCH, 0x30, MATCH + 1, 0x02, END_SEQ_OF, 2];
    CallsNothing(g, 0, root);
  }

  ghost predicate LoopingEnv(env: Env) {
    env.machine == [MATCH, 0x30, MATCH + 1, 0x02, END_SEQ_OF, 2, COMPLETE] && env.data == [0x30, 2, 4, 0]
  }

  /** The first pass opens the SEQUENCE, in front of an OCTET STRING. */
  lemma {:induction false} LoopIsEntered(env: Env)
    requires LoopingEnv(env)
    ensures Step(env, Init(env)).Run?
    ensures var s := Step(env, Init(env)).st; s.pc == 2 && s.dp == 2 && s.datalen == 4 && s.cons == [Frame(2, 4, 2)]
  {
    assert env.machine[0] == MATCH && env.machine[1] == 0x30 && env.data[0] == 0x30 && env.data[1] == 2;
    hide EndStep, SkipData;
  }

  lemma {:induction false} AtLoopHead(env: Env, s: State)
    requires LoopingEnv(env) && s.pc == 2 && s.dp == 2 && s.datalen == 4 && s.cons == [Frame(2, 4, 2)]
    ensures Skimming.AtHead(env, map[], SeqOfKind, OptionalItem(), None, s)
  {
    assert env.machine[2..4] == [MATCH + 1, 0x02] == Emit(OptionalItem(), map[], 2);
    assert env.machine[4] == END_SEQ_OF && env.machine[5] == 2 && env.data[2] == 4;
  }

  /** What a loop repeats has to be mandatory for the machine to stop on every input: with
      an optional item it goes round for ever on 30 02 04 00. `Skimming.LoopsForever` says
      exactly when. */
  lemma {:induction false} OptionalItemsNeverStop(env: Env, n: nat)
    requires env.machine == Inline(OptionalItems(), 0).m && env.data == [0x30, 2, 4, 0]
    ensures IsInline(OptionalItems(), 0)
    ensures After(env, BerMachine.Start(env), n).Run?
  {
    hide Step, Emit, RenderMachine, OptionalItems, Render, Skimming.AtHead, IsInline;
    OptionalItemsTable();
    LoopIsEntered(env);
    if n > 0 {
      var s := Step(env, Init(env)).st;
      AtLoopHead(env, s);
      assert Skimming.Circles(OptionalItem(), s.matched);
      Skimming.LoopsForever(env, map[], SeqOfKind, OptionalItem(), None, s);
      assert After(env, Run(s), n - 1).Run?;
    }
  }

  // ----- IMPLICIT inside IMPLICIT -------------------------------------------------------

  /** `outer` is an IMPLICIT tag on `e`, an IMPLICIT tag on a primitive type. */
  predicate TwiceTagged(outer: Element, e: Element, inner: Element) {
    && outer.compound == TagOverride(e) && e.compound == TagOverride(inner) && inner.compound.NotCompound?
    && outer.cls < 4 && outer.number < 31 && !outer.cons && e.cls < 4 && e.number < 31 && !e.cons && !inner.cons
  }

  /** The inner tag stands in the table, the outer one in the encoding: the machine matches what
      is encoded if and only if both tags are the same. */
  lemma {:induction false} InnerTagWins(g: Grammar, outer: Element, e: Element, inner: Element, v: Der.Value, fuel: nat)
    requires TwiceTagged(outer, e, inner) && Der.Conforms(g, outer, v)
    ensures var c, b := Render(g, outer, None, fuel), Der.Encode(g, outer, None, v);
            && c.MatchPrim? && c == Render(g, e, None, fuel) && |b| >= 2
            && (TagMatches(c.optag, b[0]) <==> outer.cls == e.cls && outer.number == e.number)
  {
    Der.EncodeIsTlv(g, outer, None, v);
    assert Der.Encode(g, outer, None, v) == Der.Encode(g, inner, Some(outer), v);
    assert Der.Encode(g, inner, Some(outer), v)[0] == Der.Identifier(inner, Some(outer));
    assert Render(g, outer, None, fuel) == Render(g, e, Some(outer), fuel) == Render(g, inner, Some(e), fuel);
    TagsDecide(outer.cls, outer.number, e.cls, e.number);
    hide TagMatches, Der.Encode;
  }

  lemma {:induction false} TagsDecide(cls: nat, number: nat, other: nat, otherNumber: nat)
    requires cls < 4 && number < 31 && other < 4 && otherNumber < 31
    ensures TagMatches(other * 64 + otherNumber, cls * 64 + number) <==> cls == other && number == otherNumber
    ensures cls % 4 * 64 + number % 32 == cls * 64 + number
  {
  }

  // ----- OPTIONAL on a bare reference ---------------------------------------------------

  /** SEQUENCE { a A OPTIONAL, b BOOLEAN }, A ::= INTEGER. */
  function OptionalReference(): Grammar {
    var a := Element(1, 0, false, 0, true, false, None, None, TypeRef(1));
    var b := Element(2, 0, false, 1, false, false, None, None, NotCompound);
    Grammar([Element(0, 0, true, 16, false, false, None, Some(0), Sequence([a, b])),
             Element(3, 0, false, 2, false, false, None, Some(1), NotCompound)], [0, 1])
  }

  lemma {:induction false} OptionalReferenceCode()
    ensures var inner := Then(Then(MatchPrim(2, false, false, None), Nil), Then(MatchPrim(1, false, false, None), Nil));
            RenderMachine(OptionalReference(), [], 1) == Then(Block(0x30, SeqKind, inner, None), Then(Complete, Nil))
  {
    var g := OptionalReference();
    var es := g.types[0].compound.fields;
    var p, q := MatchPrim(2, false, false, None), MatchPrim(1, false, false, None);
    assert Render(g, g.types[1], None, 0) == p;
    assert Render(g, es[0], None, 1) == Then(p, Nil);
    assert Render(g, es[1], None, 1) == q;
    assert es[1..] == [es[1]] && es[1..][1..] == [];
    assert RenderAll(g, es[1..], 1) == Then(q, Nil);
    assert RenderAll(g, es, 1) == Then(Then(p, Nil), Then(q, Nil));
  }

  lemma {:induction false} OptionalReferenceInline()
    ensures IsInline(OptionalReference(), 1)
  {
    OptionalReferenceCode();
    var p, q := Then(MatchPrim(2, false, false, None), Nil), Then(MatchPrim(1, false, false, None), Nil);
    assert Targets(p) == [] && Targets(q) == [] && Size(p) == 2 && Size(q) == 2 && Sound(p, 0) && Sound(q, 0);
    assert Targets(Then(p, q)) == [] && Size(Then(p, q)) == 4 && Sound(Then(p, q), 0);
    hide Render;
    CallsNothing(OptionalReference(), 1, Block(0x30, SeqKind, Then(p, q), None));
  }

  lemma {:induction false} OptionalReferenceTable()
    ensures Emit(RenderMachine(OptionalReference(), [], 1), map[], 0)
            == [MATCH, 0x30, MATCH, 0x02, MATCH, 0x01, END_SEQ, COMPLETE]
    ensures IsInline(OptionalReference(), 1)
  {
    OptionalReferenceCode();
    OptionalReferenceInline();
    hide RenderMachine, OptionalReference, IsInline;
    var p, q := Then(MatchPrim(2, false, false, None), Nil), Then(MatchPrim(1, false, false, None), Nil);
    assert Emit(p, map[], 2) == [MATCH, 0x02];
    assert Emit(q, map[], 4) == [MATCH, 0x01];
    assert Emit(Then(p, q), map[], 2) == [MATCH, 0x02, MATCH, 0x01];
    assert Emit(Block(0x30, SeqKind, Then(p, q), None), map[], 0) == [MATCH, 0x30, MATCH, 0x02, MATCH, 0x01, END_SEQ];
  }

  /** So a value that leaves such a field out can be refused, although it conforms. */
  lemma {:induction false} OptionalReferenceIsRefused(env: Env)
    requires env.machine == Inline(OptionalReference(), 1).m && env.data == [0x30, 3, 1, 1, 0xff]
    ensures IsInline(OptionalReference(), 1)
    ensures var g, v := OptionalReference(), Der.Fields([Der.Absent, Der.Contents([0xff])], Der.Definite);
            && Der.Conforms(g, g.types[0], v) && env.data == Der.Encode(g, g.types[0], None, v)
            && After(env, BerMachine.Start(env), 2).Halt? && After(env, BerMachine.Start(env), 2).out == TagMismatch
  {
    OptionalReferenceTable();
    OptionalReferenceValue();
    hide IsInline, Emit, RenderMachine;
    RefusedRun(env);
  }

  lemma {:induction false} OptionalReferenceValue()
    ensures var g, v := OptionalReference(), Der.Fields([Der.Absent, Der.Contents([0xff])], Der.Definite);
            Der.Conforms(g, g.types[0], v) && Der.Encode(g, g.types[0], None, v) == [0x30, 3, 1, 1, 0xff]
  {
    var g := OptionalReference();
    var es, vs := g.types[0].compound.fields, [Der.Absent, Der.Contents([0xff])];
    assert es[1..] == [es[1]] && vs[1..] == [vs[1]] && es[1..][1..] == [] && vs[1..][1..] == [];
    assert Der.Conforms(g, es[1], vs[1]);
    assert Der.FieldsConform(g, es[1..], vs[1..]);
    assert Der.FieldsConform(g, es, vs);
    assert Der.Encode(g, es[1], None, vs[1]) == [1, 1, 0xff];
    assert Der.Encode(g, es[0], None, vs[0]) == [];
    assert Der.EncodeFields(g, es[1..], vs[1..]) == [1, 1, 0xff];
    assert Der.EncodeFields(g, es, vs) == [1, 1, 0xff];
  }

  lemma {:induction false} RootMatches(env: Env)
    requires |env.machine| >= 2 && env.machine[0] == MATCH && env.machine[1] == 0x30
    requires env.data == [0x30, 3, 1, 1, 0xff]
    ensures var c := Step(env, Init(env)); c.Run? && c.st.pc == 2 && c.st.dp == 2 && c.st.datalen == 5
  {
    assert env.data[0] == 0x30 && env.data[1] == 3;
    hide EndStep;
  }

  lemma {:induction false} ReferenceMisses(env: Env, s: State)
    requires |env.machine| >= 4 && env.machine[2] == MATCH && env.machine[3] == 0x02
    requires env.data == [0x30, 3, 1, 1, 0xff] && s.pc == 2 && s.dp == 2 && s.datalen == 5
    ensures Step(env, s).Halt? && Step(env, s).out == TagMismatch
  {
    assert env.data[2] == 1;
    hide EndStep, Header;
  }

  lemma {:induction false} RefusedRun(env: Env)
    requires env.machine == [MATCH, 0x30, MATCH, 0x02, MATCH, 0x01, END_SEQ, COMPLETE]
    requires env.data == [0x30, 3, 1, 1, 0xff]
    ensures After(env, BerMachine.Start(env), 2).Halt? && After(env, BerMachine.Start(env), 2).out == TagMismatch
  {
    hide Step;
    RootMatches(env);
    var t := Step(env, Init(env)).st;
    ReferenceMisses(env, t);
    assert After(env, Run(Init(env)), 2) == After(env, Run(t), 1);
  }

  /** Exactly when it is: if the type referred to is mandatory, a field that is absent is passed
      over only as the last of its element, and only if its code has no inline element and no
      unsatisfied CHOICE check. Whether the field is OPTIONAL does not show in its code. */
  lemma {:induction false} AbsentReference(k: Machine, env: Env, e: Element, skippable: bool, n: nat)
    requires e.compound.TypeRef? && e.compound.target < |k.g.types| && k.fuel > 0
    requires Mandatory(k.g, k.g.types[e.compound.target], k.fuel - 1)
    requires Skimming.Absent(k, env, Render(k.g, e.(skippable := skippable), None, k.fuel), n)
    ensures var c, s := Render(k.g, e, None, k.fuel), After(env, BerMachine.Start(env), n).st;
            && (Skimming.MayBeLast(c, s) ==>
                  exists t :: Reaches(env, Run(s), Run(t)) && Skimming.Behind(c, s, t, s.matched))
            && (!Skimming.MayBeLast(c, s) ==> forall m: nat :: !Skimming.Accepts(env, m))
            && (s.dp != s.datalen ==> exists t :: Reaches(env, Run(s), Halt(TagMismatch, t)))
  {
    assert Render(k.g, e.(skippable := skippable), None, k.fuel) == Render(k.g, e, None, k.fuel);
    var c := Render(k.g, e, None, k.fuel);
    MandatoryEats(k.g, k.g.types[e.compound.target], None, k.fuel - 1, k.nrActions);
    assert Eats(c);
    hide Render, Machine.Valid, Skimming.Absent, Skimming.MayBeLast, Skimming.Accepts, Eats, Step, After;
    Skimming.AbsentField(k, env, c, n);
  }

  /** SEQUENCE { b BOOLEAN, a A OPTIONAL }: the reference is the last field. */
  ghost predicate LastReferenceEnv(env: Env) {
    env.machine == [MATCH, 0x30, MATCH, 0x01, MATCH, 0x02, END_SEQ, COMPLETE] && env.data == [0x30, 3, 1, 1, 0xff]
  }

  lemma {:induction false} BooleanMatches(env: Env, s: State)
    requires LastReferenceEnv(env) && s.pc == 2 && s.dp == 2 && s.datalen == 5
    ensures var c := Step(env, s);
            c.Run? && c.st.pc == 4 && c.st.dp == 5 && c.st.datalen == 5 && c.st.cons == s.cons && c.st.jumps == s.jumps
  {
    assert env.machine[2] == MATCH && env.machine[3] == 1 && env.data[2] == 1 && env.data[3] == 1;
    hide EndStep, Push;
  }

  lemma {:induction false} LastReferenceSkipped(env: Env, s: State)
    requires LastReferenceEnv(env) && s.pc == 4 && s.dp == 5 == s.datalen && s.cons == [Frame(2, 5, 2)] && s.jumps == []
    ensures After(env, Run(s), 3).Halt? && After(env, Run(s), 3).out.Accepted?
  {
    assert env.machine[4] == MATCH && env.machine[6] == END_SEQ && env.machine[7] == COMPLETE;
    hide TagStep, CallAction;
    var t := Step(env, s).st;
    assert Step(env, s) == Run(s.(pc := 6)) == Run(t);
    var u := Step(env, t).st;
    assert Step(env, t) == Run(u) && u.pc == 7 && u.cons == [] && u.jumps == [];
    hide Step;
    AfterOne(env, t, 1);
    AfterOne(env, u, 0);
    AfterOne(env, s, 2);
  }

  function LastReference(): Grammar {
    var b := Element(1, 0, false, 1, false, false, None, None, NotCompound);
    var a := Element(2, 0, false, 0, true, false, None, None, TypeRef(1));
    Grammar([Element(0, 0, true, 16, false, false, None, Some(0), Sequence([b, a])),
             Element(3, 0, false, 2, false, false, None, Some(1), NotCompound)], [0, 1])
  }

  lemma {:induction false} LastReferenceCode()
    ensures var inner := Then(MatchPrim(1, false, false, None), Then(Then(MatchPrim(2, false, false, None), Nil), Nil));
            RenderMachine(LastReference(), [], 1) == Then(Block(0x30, SeqKind, inner, None), Then(Complete, Nil))
  {
    var g := LastReference();
    var es := g.types[0].compound.fields;
    var p, q := MatchPrim(2, false, false, None), MatchPrim(1, false, false, None);
    assert Render(g, g.types[1], None, 0) == p;
    assert Render(g, es[1], None, 1) == Then(p, Nil);
    assert Render(g, es[0], None, 1) == q;
    assert es[1..] == [es[1]] && es[1..][1..] == [];
    assert RenderAll(g, es[1..], 1) == Then(Then(p, Nil), Nil);
    assert RenderAll(g, es, 1) == Then(q, Then(Then(p, Nil), Nil));
  }

  lemma {:induction false} LastReferenceInline()
    ensures IsInline(LastReference(), 1)
  {
    LastReferenceCode();
    var p, q := Then(Then(MatchPrim(2, false, false, None), Nil), Nil), MatchPrim(1, false, false, None);
    assert Targets(p.first) == [] && Size(p.first) == 2 && Sound(p.first, 0);
    assert Targets(p) == [] && Targets(q) == [] && Size(p) == 2 && Size(q) == 2 && Sound(p, 0) && Sound(q, 0);
    assert Targets(Then(q, p)) == [] && Size(Then(q, p)) == 4 && Sound(Then(q, p), 0);
    hide Render;
    CallsNothing(LastReference(), 1, Block(0x30, SeqKind, Then(q, p), None));
  }

  lemma {:induction false} LastReferenceTable()
    ensures Emit(RenderMachine(LastReference(), [], 1), map[], 0)
            == [MATCH, 0x30, MATCH, 0x01, MATCH, 0x02, END_SEQ, COMPLETE]
    ensures IsInline(LastReference(), 1)
  {
    LastReferenceCode();
    LastReferenceInline();
    hide RenderMachine, LastReference, IsInline;
    var p, q := Then(Then(MatchPrim(2, false, false, None), Nil), Nil), MatchPrim(1, false, false, None);
    assert Emit(q, map[], 2) == [MATCH, 0x01];
    assert Emit(Then(MatchPrim(2, false, false, None), Nil), map[], 4) == [MATCH, 0x02];
    assert Emit(p, map[], 4) == [MATCH, 0x02];
    assert Emit(Then(q, p), map[], 2) == [MATCH, 0x01, MATCH, 0x02];
    assert Emit(Block(0x30, SeqKind, Then(q, p), None), map[], 0) == [MATCH, 0x30, MATCH, 0x01, MATCH, 0x02, END_SEQ];
  }

  lemma {:induction false} FirstOpens(env: Env)
    requires LastReferenceEnv(env)
    ensures var c := Step(env, Init(env));
            && c.Run? && c.st.pc == 2 && c.st.dp == 2 && c.st.datalen == 5 && c.st.cons == [Frame(2, 5, 2)]
            && c.st.jumps == []
  {
    assert env.machine[0] == MATCH && env.machine[1] == 0x30 && env.data[0] == 0x30 && env.data[1] == 3;
    hide EndStep, SkipData;
  }

  /** As the last field the same reference can be left out. */
  lemma {:induction false} LastReferenceIsPassed(env: Env)
    requires env.machine == Inline(LastReference(), 1).m && env.data == [0x30, 3, 1, 1, 0xff]
    ensures IsInline(LastReference(), 1)
    ensures Skimming.Accepts(env, 5)
  {
    LastReferenceTable();
    hide Step, RenderMachine, LastReference, Emit, After, IsInline;
    FirstOpens(env);
    var s := Step(env, Init(env)).st;
    BooleanMatches(env, s);
    var t := Step(env, s).st;
    LastReferenceSkipped(env, t);
    AfterOne(env, Init(env), 4);
    AfterOne(env, s, 3);
  }

  lemma {:induction false} AfterOne(env: Env, s: State, n: nat)
    ensures After(env, Run(s), n + 1) == After(env, Step(env, s), n)
  {
    hide Step;
  }

  // ----- an enclosing end behind 16 bits ------------------------------------------------

  /** SEQUENCE { a OCTET STRING, b SEQUENCE { c SEQUENCE { d BOOLEAN OPTIONAL } } }. */
  function NestedSequences(): Grammar {
    var a := Element(1, 0, false, 4, false, false, None, None, NotCompound);
    var d := Element(4, 0, false, 1, true, false, None, None, NotCompound);
    var c := Element(3, 0, true, 16, false, false, None, None, Sequence([d]));
    var b := Element(2, 0, true, 16, false, false, None, None, Sequence([c]));
    Grammar([Element(0, 0, true, 16, false, false, None, Some(0), Sequence([a, b]))], [0])
  }

  lemma {:induction false} OneField(g: Grammar, e: Element)
    ensures RenderAll(g, [e], 0) == Then(Render(g, e, None, 0), Nil)
  {
    assert [e][1..] == [];
  }

  lemma {:induction false} NestedSequencesCode()
    ensures var d := MatchPrim(1, false, true, None);
            var c := Block(0x30, SeqKind, Then(d, Nil), None);
            var b := Block(0x30, SeqKind, Then(c, Nil), None);
            RenderMachine(NestedSequences(), [], 0) ==
            Then(Block(0x30, SeqKind, Then(MatchPrim(4, false, false, None), Then(b, Nil)), None), Then(Complete, Nil))
  {
    var g := NestedSequences();
    var es := g.types[0].compound.fields;
    var b := es[1];
    var c := b.compound.fields[0];
    var d := c.compound.fields[0];
    OneField(g, d);
    OneField(g, c);
    OneField(g, b);
    assert Render(g, d, None, 0) == MatchPrim(1, false, true, None);
    assert es[1..] == [b];
    assert Render(g, es[0], None, 0) == MatchPrim(4, false, false, None);
    assert RenderAll(g, es, 0) == Then(Render(g, es[0], None, 0), RenderAll(g, [b], 0));
  }

  lemma {:induction false} NestedSequencesInline()
    ensures IsInline(NestedSequences(), 0)
  {
    NestedSequencesCode();
    var a, d := MatchPrim(4, false, false, None), Then(MatchPrim(1, false, true, None), Nil);
    var c := Then(Block(0x30, SeqKind, d, None), Nil);
    var b := Then(Block(0x30, SeqKind, c, None), Nil);
    assert Targets(d) == [] && Size(d) == 2 && Sound(d, 0);
    assert Targets(c.first) == [] && Size(c.first) == 5 && Sound(c.first, 0);
    assert Targets(c) == [] && Size(c) == 5 && Sound(c, 0);
    assert Targets(b.first) == [] && Size(b.first) == 8 && Sound(b.first, 0);
    assert Targets(b) == [] && Size(b) == 8 && Sound(b, 0);
    assert Targets(Then(a, b)) == [] && Size(Then(a, b)) == 10 && Sound(Then(a, b), 0);
    hide Render;
    CallsNothing(NestedSequences(), 0, Block(0x30, SeqKind, Then(a, b), None));
  }

  lemma {:induction false} NestedSequencesTable()
    ensures Emit(RenderMachine(NestedSequences(), [], 0), map[], 0)
            == [MATCH, 0x30, MATCH, 0x04, MATCH, 0x30, MATCH, 0x30, MATCH + 1, 0x01, END_SEQ, END_SEQ, END_SEQ, COMPLETE]
    ensures IsInline(NestedSequences(), 0)
  {
    NestedSequencesCode();
    NestedSequencesInline();
    hide RenderMachine, NestedSequences, IsInline;
    var d := Then(MatchPrim(1, false, true, None), Nil);
    assert Emit(d, map[], 8) == [MATCH + 1, 0x01];
    var c := Then(Block(0x30, SeqKind, d, None), Nil);
    assert Emit(c.first, map[], 6) == [MATCH, 0x30, MATCH + 1, 0x01, END_SEQ];
    assert Emit(c, map[], 6) == [MATCH, 0x30, MATCH + 1, 0x01, END_SEQ];
    var b := Then(Block(0x30, SeqKind, c, None), Nil);
    assert Emit(b.first, map[], 4) == [MATCH, 0x30, MATCH, 0x30, MATCH + 1, 0x01, END_SEQ, END_SEQ];
    assert Emit(b, map[], 4) == [MATCH, 0x30, MATCH, 0x30, MATCH + 1, 0x01, END_SEQ, END_SEQ];
    var a := MatchPrim(4, false, false, None);
    assert Emit(a, map[], 2) == [MATCH, 0x04];
    assert Emit(Then(a, b), map[], 2)
        == [MATCH, 0x04, MATCH, 0x30, MATCH, 0x30, MATCH + 1, 0x01, END_SEQ, END_SEQ];
    assert Emit(Block(0x30, SeqKind, Then(a, b), None), map[], 0)
        == [MATCH, 0x30, MATCH, 0x04, MATCH, 0x30, MATCH, 0x30, MATCH + 1, 0x01, END_SEQ, END_SEQ, END_SEQ];
  }

  /** 65413 octets: the element `b` at 65407 declares 127 octets of contents, to 65536, and holds
      four, an element `c` with two zero octets. */
  function LongData(): (data: seq<Octet>)
    ensures |data| == 65413
  {
    [0x30, 0x82, 0xff, 0x81, 0x04, 0x82, 0xff, 0x77] + seq(65399, i => 0) + [0x30, 0x7f, 0x30, 2, 0, 0]
  }

  lemma {:induction false} LongDataAt()
    ensures var d := LongData();
            && d[0] == 0x30 && d[1] == 0x82 && d[2] == 0xff && d[3] == 0x81
            && d[4] == 4 && d[5] == 0x82 && d[6] == 0xff && d[7] == 0x77
            && d[65407] == 0x30 && d[65408] == 0x7f && d[65409] == 0x30 && d[65410] == 2 && d[65411] == 0 && d[65412] == 0
  {
  }

  ghost predicate LongEnv(env: Env) {
    && env.machine ==
       [MATCH, 0x30, MATCH, 0x04, MATCH, 0x30, MATCH, 0x30, MATCH + 1, 0x01, END_SEQ, END_SEQ, END_SEQ, COMPLETE]
    && env.data == LongData()
  }

  /** Where a pass leaves the machine, as far as it matters here. */
  predicate At(s: State, pc: int, dp: int, datalen: int, cons: seq<Frame>) {
    s.pc == pc && s.dp == dp && s.datalen == datalen && s.cons == cons && s.jumps == []
  }

  const ROOT_FRAME := Frame(4, 65413, 4)
  const B_FRAME := Frame(65409, 65413, 2)
  const C_FRAME := Frame(65411, 0, 2)

  lemma {:induction false} LongRoot(env: Env)
    requires LongEnv(env)
    ensures var c := Step(env, Init(env)); c.Run? && At(c.st, 2, 4, 65413, [ROOT_FRAME])
  {
    LongDataAt();
    hide LongData, EndStep;
    assert env.machine[0] == MATCH && env.machine[1] == 0x30;
  }

  lemma {:induction false} LongString(env: Env, s: State)
    requires LongEnv(env) && At(s, 2, 4, 65413, [ROOT_FRAME])
    ensures var c := Step(env, s); c.Run? && At(c.st, 4, 65407, 65413, [ROOT_FRAME])
  {
    LongDataAt();
    hide LongData, EndStep, Push;
    assert env.machine[2] == MATCH && env.machine[3] == 4;
  }

  lemma {:induction false} LongB(env: Env, s: State)
    requires LongEnv(env) && At(s, 4, 65407, 65413, [ROOT_FRAME])
    ensures var c := Step(env, s); c.Run? && At(c.st, 6, 65409, 65536, [ROOT_FRAME, B_FRAME])
  {
    LongDataAt();
    hide LongData, EndStep;
    assert env.machine[4] == MATCH && env.machine[5] == 0x30;
  }

  /** The end of `b` is stacked as 0. */
  lemma {:induction false} LongC(env: Env, s: State)
    requires LongEnv(env) && At(s, 6, 65409, 65536, [ROOT_FRAME, B_FRAME])
    ensures var c := Step(env, s); c.Run? && At(c.st, 8, 65411, 65413, [ROOT_FRAME, B_FRAME, C_FRAME])
    ensures Nesting.Cuts(env, s)
  {
    LongDataAt();
    hide LongData, EndStep;
    assert env.machine[6] == MATCH && env.machine[7] == 0x30;
  }

  lemma {:induction false} LongSkip(env: Env, s: State)
    requires LongEnv(env) && At(s, 8, 65411, 65413, [ROOT_FRAME, B_FRAME, C_FRAME])
    ensures var c := Step(env, s); c.Run? && At(c.st, 10, 65411, 65413, [ROOT_FRAME, B_FRAME, C_FRAME])
  {
    LongDataAt();
    hide LongData, EndStep, Header;
    assert env.machine[8] == MATCH + 1 && env.machine[9] == 1;
  }

  /** So `c` is closed like an element of indefinite length, and `b` where `c` ends. */
  lemma {:induction false} LongCloses(env: Env, s: State)
    requires LongEnv(env)
    ensures At(s, 10, 65411, 65413, [ROOT_FRAME, B_FRAME, C_FRAME]) ==>
              Step(env, s).Run? && At(Step(env, s).st, 11, 65413, 65413, [ROOT_FRAME, B_FRAME])
  {
    LongDataAt();
    assert env.machine[10] == END_SEQ;
    hide LongData, MatchStep, CallAction;
  }

  lemma {:induction false} LongEnclosing(env: Env, s: State)
    requires LongEnv(env)
    ensures At(s, 11, 65413, 65413, [ROOT_FRAME, B_FRAME]) ==>
              Step(env, s).Run? && At(Step(env, s).st, 12, 65413, 65413, [ROOT_FRAME])
    ensures At(s, 12, 65413, 65413, [ROOT_FRAME]) ==>
              Step(env, s).Run? && At(Step(env, s).st, 13, 65413, 65413, [])
    ensures At(s, 13, 65413, 65413, []) ==> Step(env, s) == Halt(Accepted, s)
  {
    assert env.machine[11] == END_SEQ && env.machine[12] == END_SEQ && env.machine[13] == COMPLETE;
    hide LongData, MatchStep, CallAction;
  }

  lemma {:induction false} LongEnds(env: Env, s: State)
    requires LongEnv(env) && At(s, 10, 65411, 65413, [ROOT_FRAME, B_FRAME, C_FRAME])
    ensures After(env, Run(s), 4).Halt? && After(env, Run(s), 4).out.Accepted?
  {
    hide Step, LongEnv;
    LongCloses(env, s);
    var t := Step(env, s).st;
    LongEnclosing(env, t);
    var u := Step(env, t).st;
    LongEnclosing(env, u);
    var v := Step(env, u).st;
    LongEnclosing(env, v);
    AfterOne(env, s, 3);
    AfterOne(env, t, 2);
    AfterOne(env, u, 1);
    AfterOne(env, v, 0);
  }

  /** An accepted run can cut an enclosing end: of 65413 octets it matches `b` as four octets,
      although its header declares 127. `Truncation.AcceptedIsNested` says exactly when. */
  lemma {:induction false} LongDataIsAccepted(env: Env)
    requires env.machine == Inline(NestedSequences(), 0).m && env.data == LongData()
    ensures IsInline(NestedSequences(), 0)
    ensures Skimming.Accepts(env, 9) && !Nesting.NoCuts(env, BerMachine.Start(env), 9)
  {
    NestedSequencesTable();
    hide Step, Emit, RenderMachine, NestedSequences, LongData, At, After, Nesting.Cuts, IsInline;
    LongRoot(env);
    var s := Step(env, Init(env)).st;
    LongString(env, s);
    var t := Step(env, s).st;
    LongB(env, t);
    var u := Step(env, t).st;
    LongC(env, u);
    var v := Step(env, u).st;
    LongSkip(env, v);
    var w := Step(env, v).st;
    LongEnds(env, w);
    AfterOne(env, v, 4);
    AfterOne(env, u, 5);
    AfterOne(env, t, 6);
    AfterOne(env, s, 7);
    AfterOne(env, Init(env), 8);
    CutLater(env, u, 5);
    CutLater(env, t, 6);
    CutLater(env, s, 7);
    CutLater(env, Init(env), 8);
  }

  lemma {:induction false} CutLater(env: Env, s: State, n: nat)
    ensures Nesting.NoCuts(env, Run(s), n + 1) ==> !Nesting.Cuts(env, s) && Nesting.NoCuts(env, Step(env, s), n)
  {
    hide Step, Nesting.Cuts;
  }

  // ----- the end of the input -----------------------------------------------------------

  /** The root's header has a short-form length that reaches behind the input; the code
      compares only long-form lengths with what there is. */
  predicate OverlongRoot(data: seq<Octet>) {
    |data| >= 2 && data[1] < 0x80 && 2 + data[1] as int > |data|
  }

  lemma {:induction false} RootHeader(env: Env, s: State)
    requires s.pc == 0 && s.dp == 0 && s.datalen == |env.data| > 0 && !s.matched && |env.machine| >= 2
    requires 0 <= env.machine[0] <= OP_MATCHES_TAG && !HasAny(env.machine[0])
    requires TagMatches(env.machine[1], env.data[0]) && Step(env, s).Run?
    ensures |env.data| >= 2
    ensures env.data[1] == 0x81 ==> |env.data| >= 3 && 3 + env.data[2] as int <= |env.data|
    ensures env.data[1] == 0x82 ==>
              |env.data| >= 4 && 4 + 256 * env.data[2] as int + env.data[3] as int <= |env.data|
  {
    hide Matched, Push, HasConsBit, IsLongTag, TagMatches, EndStep, HasAny, HasSkip;
  }

  /** The first instruction of a run that is accepted and has the root reads its header. */
  lemma {:induction false} RootIsThere(k: Machine, env: Env, n: nat)
    requires For(k, env) && Roots.Rooted(k.Main()) && Roots.HasRoot(k, env)
    requires BerMachine.Start(env).Run?
    requires After(env, BerMachine.Start(env), n).Halt? && After(env, BerMachine.Start(env), n).out.Accepted?
    ensures |env.data| >= 2
    ensures env.data[1] == 0x81 ==> |env.data| >= 3 && 3 + env.data[2] as int <= |env.data|
    ensures env.data[1] == 0x82 ==>
              |env.data| >= 4 && 4 + 256 * env.data[2] as int + env.data[3] as int <= |env.data|
  {
    Roots.RootOp(k);
    var s := Init(env);
    FirstStepRuns(k, env, n);
    hide Machine.Valid, Step, MatchStep, Render, HasConsBit, TagMatches, After;
    RootHeader(env, s);
  }

  lemma {:induction false} FirstStepRuns(k: Machine, env: Env, n: nat)
    requires For(k, env) && Roots.Rooted(k.Main()) && BerMachine.Start(env).Run?
    requires After(env, BerMachine.Start(env), n).Halt? && After(env, BerMachine.Start(env), n).out.Accepted?
    ensures Step(env, Init(env)).Run?
  {
    StartsOnTrack(k, env);
    OneStepKeeps(k, env, Init(env));
    Roots.LastIsBehind(k);
    hide Machine.Valid, Step, After, Render, OnTrack;
    HaltIsFinal(env, Init(env), n);
  }

  lemma {:induction false} HaltIsFinal(env: Env, s: State, n: nat)
    requires After(env, Run(s), n).Halt?
    ensures Step(env, s).Halt? ==> After(env, Run(s), n) == Step(env, s)
  {
    hide Step;
    assert n > 0;
    assert After(env, Run(s), n) == After(env, Step(env, s), n - 1);
  }

  /** For every grammar with a constructed root: an accepted run ends behind the input exactly
      if the input begins with the root and the root claims more octets than there are with a
      short-form length. */
  lemma {:induction false} AcceptedEndsInside(k: Machine, env: Env, n: nat)
    requires For(k, env) && Roots.Rooted(k.Main())
    requires After(env, BerMachine.Start(env), n).Halt? && After(env, BerMachine.Start(env), n).out.Accepted?
    ensures After(env, BerMachine.Start(env), n).st.dp <= |env.data|
            <==> !(Roots.HasRoot(k, env) && OverlongRoot(env.data))
  {
    Roots.RootIsWhole(k, env, n);
    var c := BerMachine.Start(env);
    var log, dp := Nesting.Log(env, c, n), After(env, c, n).st.dp;
    if Roots.HasRoot(k, env) {
      RootIsThere(k, env, n);
      hide Step, Machine.Valid, Nesting.Log, After, Render, Roots.HasRoot;
      var x := log[|log| - 1];
      assert Nesting.EndsAsDeclared(env.data, x) && x.start == 0 && x.end == dp;
    } else {
      hide Step, Machine.Valid, Nesting.Log, After, Render, Roots.HasRoot;
    }
  }
}
