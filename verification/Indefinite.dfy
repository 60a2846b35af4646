/** What the machine makes of the indefinite form where it is not that of a constructed type of the
    grammar, and of end-of-contents octets where an optional element could stand. */
module Indefinite {
  import opened Octets
  import opened Slices
  import opened Bytecode
  import opened Grammar
  import opened Code
  import opened Layout
  import opened BerMachine
  import opened Steps
  import opened ReadableValues
  import BerScan
  import Der

  /** The instruction at `s` takes the element at the cursor, whatever its length octets are. */
  predicate Takes(env: Env, s: State) {
    && 0 <= s.pc < |env.machine| && 0 <= s.dp < |env.data|
    && var op, tag := env.machine[s.pc], env.data[s.dp];
       && 0 <= op <= OP_MATCHES_TAG && s.pc + OpLength(op) <= |env.machine|
       && !(HasCond(op) && s.matched) && s.dp + 1 < s.datalen && !IsLongTag(tag)
       && (HasAny(op) || (s.pc + 1 < |env.machine| && TagMatches(env.machine[s.pc + 1], tag)))
  }

  lemma {:induction false} TakesReads(env: Env, s: State) returns (t: State)
    requires Takes(env, s)
    ensures t.tag == env.data[s.dp] && t.dp == s.dp + 1 && t.datalen == s.datalen
    ensures var r := ReadLength(env, t);
            Step(env, s) == Header(env, t, env.machine[s.pc]) && (r.BadLength? ==> Step(env, s) == Halt(r.out, t))
    ensures t == Tagged(s, env.data[s.dp], t.compound) && (HasAny(env.machine[s.pc]) ==> !t.compound)
  {
    var op, tag := env.machine[s.pc], env.data[s.dp];
    t := Tagged(s, tag, !HasAny(op) && HasConsBit(env.machine[s.pc + 1]));
    hide ReadLength, TagMatches, HasConsBit, EndStep, Matched, OpLength, Push, Sized;
  }

  /** Where the length octet is 0x80, the machine stops for want of a constructed element if and
      only if the CONS bit of the identifier is not set. */
  lemma {:induction false} PrimitiveIsNeverIndefinite(env: Env, s: State)
    requires Takes(env, s) && s.dp + 1 < |env.data| && env.data[s.dp + 1] == 0x80
    ensures Step(env, s).Halt? && Step(env, s).out == IndefinitePrimitive <==> env.data[s.dp] / 32 % 2 == 0
  {
    var t := TakesReads(env, s);
    if HasConsBit(env.data[s.dp]) {
      HeaderGoesOn(env, t, env.machine[s.pc]);
    } else {
      assert ReadLength(env, t) == BadLength(IndefinitePrimitive);
    }
    hide Step, Header, Takes;
  }

  lemma {:induction false} HeaderGoesOn(env: Env, t: State, op: int)
    requires ReadLength(env, t) != BadLength(IndefinitePrimitive)
    ensures !(Header(env, t, op).Halt? && Header(env, t, op).out == IndefinitePrimitive)
  {
    hide ReadLength, OpLength;
  }

  // ----- definite lengths under the scan ------------------------------------------------

  lemma {:induction false} UpToThreeOctets(a: Octet, b: Octet, c: Octet)
    ensures BigEndian([a]) == a && BigEndian([a, b]) == 256 * a + b
    ensures BigEndian([a, b, c]) == 0x1_0000 * a + 0x100 * b + c
  {
    assert BigEndian([]) == 0;
    assert [a][..0] == [] && [a, b][..1] == [a] && [a, b, c][..2] == [a, b];
  }

  /** The long form of X.690 section 8.1.3.5: the count of the octets behind, which are the length
      with the most significant octet first. */
  lemma {:induction false} LengthIsBigEndian(n: nat)
    requires 0x80 <= n < 0x100_0000
    ensures var s := Der.LengthOctets(n);
            2 <= |s| <= 4 && s[0] == 0x80 + |s| - 1 && s[1] != 0 && BigEndian(s[1..]) == n
  {
    var s := Der.LengthOctets(n);
    hide BigEndian;
    if n < 0x100 {
      UpToThreeOctets(n, 0, 0);
      assert s[1..] == [n];
    } else if n < 0x10000 {
      UpToThreeOctets(n / 0x100, n % 0x100, 0);
      assert s[1..] == [n / 0x100, n % 0x100];
    } else {
      UpToThreeOctets(n / 0x10000, n / 0x100 % 0x100, n % 0x100);
      assert s[1..] == [n / 0x10000, n / 0x100 % 0x100, n % 0x100];
    }
  }

  /** The scan for the end of an indefinite ANY steps over an element in DER, whatever its length,
      unless that is 127: the length octet 0x7f is refused. */
  lemma {:induction false} DerIsSteppedOver(data: seq<Octet>, datalen: int, p: nat, id: Octet, contents: seq<Octet>)
    requires p + |Der.Tlv(id, contents)| <= datalen <= |data| && data[p..p + |Der.Tlv(id, contents)|] == Der.Tlv(id, contents)
    requires id != 0 && !IsLongTag(id) && |contents| < 0x100_0000
    ensures BerScan.Look(data, datalen, p) ==
            if |contents| == 127 then BerScan.Stop(BerScan.Error(BerScan.LengthTooLong))
            else BerScan.Whole(p + |Der.Tlv(id, contents)|)
  {
    var n, len := |contents|, Der.LengthOctets(|contents|);
    var end := p + |Der.Tlv(id, contents)|;
    assert Der.Tlv(id, contents) == [id] + (len + contents);
    Cut(data, p, end, [id], len + contents);
    At(data, p, p + 1, [id]);
    assert data[p + 0] == id;
    Cut(data, p + 1, end, len, contents);
    At(data, p + 1, p + 1 + |len|, len);
    assert data[p + 1 + 0] == len[0];
    if n >= 0x80 {
      LengthIsBigEndian(n);
      assert data[p + 2..p + 1 + |len|] == len[1..];
    }
    hide BigEndian, IsLongTag, HasConsBit;
  }

  // ----- ANY ----------------------------------------------------------------------------

  /** Whatever an element of indefinite length contains: ANY calls its action with the length octet
      0x80 for a length, before it looks for the end. */
  lemma {:induction false} AnyIndefiniteCall(env: Env, entries: map<Element, int>, c: Code, s: State) returns (t: State)
    requires c.MatchAny? && c.act.Some? && Sound(c, env.nrActions) && Placed(env.machine, c, entries, s.pc)
    requires Takes(env, s) && s.dp + 1 < |env.data| && env.data[s.dp + 1] == 0x80
    requires Step(env, s).Run?
    ensures Step(env, s) == Run(t)
    ensures Seen(t.trace) == Seen(s.trace) + [Der.Call(c.act.value, 2, s.dp + 2, 0x80)]
    ensures t.dp == s.dp + 2 + t.len && BerScan.Scan(env.data, s.datalen, s.dp + 2, 1) == BerScan.End(t.dp)
  {
    t := Step(env, s).st;
    OpFacts(c.cond, true, c.act);
    PlacedLeaf(env.machine, c, entries, s.pc);
    var u := TakesReads(env, s);
    hide Step, Takes, OpLength, HasAct, HasCond, HasSkip, HasAny, IsAnyMatch, IsPlainMatch, AnyOp, Placed;
    var r := ReadLength(env, u);
    var x := Sized(u, r).(tdp := r.dp);
    AnyMatched(env, x, env.machine[s.pc], c.act.value);
  }

  lemma {:induction false} AnyMatched(env: Env, x: State, op: int, act: nat)
    requires IsAnyMatch(op) && HasAct(op) && !x.compound && x.indefinite
    requires 0 <= x.pc + 1 < |env.machine| && env.machine[x.pc + 1] == act < env.nrActions
    requires Matched(env, x, op).Run?
    ensures var t := Matched(env, x, op).st;
            && Seen(t.trace) == Seen(x.trace) + [Der.Call(act, x.hdr, x.dp, x.len)]
            && t.dp == x.dp + t.len && BerScan.Scan(env.data, x.datalen, x.dp, 1) == BerScan.End(t.dp)
  {
    SeenAppend(x.trace, Event(act, x.hdr, x.tag, x.dp, x.len));
    hide Seen, OpLength, IsPlainMatch, IsJumpMatch, BerScan.Scan;
  }

  /** ANY takes the end-of-contents octets of the element around it for an element. */
  lemma {:induction false} AnyTakesTheEnd(env: Env, entries: map<Element, int>, c: Code, s: State) returns (t: State)
    requires c.MatchAny? && Sound(c, env.nrActions) && Placed(env.machine, c, entries, s.pc) && Willing(env)
    requires !(c.cond && s.matched) && ClosesIn(env, s, 0) && !InDefinite(s)
    ensures Step(env, s) == Run(t) && t.dp == s.dp + 2 && t.pc == s.pc + Size(c)
    ensures Seen(t.trace) == Seen(s.trace) + CallOf(c.act, 2, s.dp + 2, 0)
  {
    assert AtTlv(env, s, 0, 0);
    t := StepAny(env, entries, c, s, 0, 0);
    hide Seen, Step, Placed;
  }

  // ----- a CHOICE that forgets its match ------------------------------------------------

  /** CHOICE { s SEQUENCE { a INTEGER OPTIONAL } }. */
  function OptionalInChoice(): Grammar {
    Grammar([Element(0, 0, false, 0, false, false, None, Some(0), Choice([Alternative()]))], [0])
  }

  function Alternative(): Element {
    Element(1, 0, true, 16, true, false, None, None,
            Sequence([Element(2, 0, false, 2, true, false, None, None, NotCompound)]))
  }

  /** Its machine: the SEQUENCE is optional among alternatives and so goes out of line. */
  function ChoiceMachine(): Machine {
    var places := map[Alternative() := 5];
    Machine(OptionalInChoice(), 0, [Alternative()], places, 0,
            Emit(RenderMachine(OptionalInChoice(), [Alternative()], 0), places, 0))
  }

  lemma {:induction false} ChoiceCode()
    ensures var g, e := OptionalInChoice(), Alternative();
            && Render(g, g.types[0], None, 0) == Then(Then(Call(0x30, false, true, e), Nil), Then(CondFail, Nil))
            && RenderBody(g, e, 0) == Sub(SeqKind, Then(MatchPrim(2, false, true, None), Nil), None)
  {
    var g, e := OptionalInChoice(), Alternative();
    var es, fs := g.types[0].compound.alternatives, e.compound.fields;
    assert es[1..] == [] && fs[1..] == [];
    assert Render(g, e, None, 0) == Call(0x30, false, true, e);
    assert RenderAll(g, es, 0) == Then(Call(0x30, false, true, e), Nil);
    assert Render(g, fs[0], None, 0) == MatchPrim(2, false, true, None);
    assert RenderAll(g, fs, 0) == Then(MatchPrim(2, false, true, None), Nil);
  }

  lemma {:induction false} ChoiceImage() returns (main: Code, sub: Code)
    ensures main == Then(Then(Call(0x30, false, true, Alternative()), Nil), Then(CondFail, Nil))
    ensures sub == Sub(SeqKind, Then(MatchPrim(2, false, true, None), Nil), None)
    ensures var g := OptionalInChoice();
            && Render(g, g.types[0], None, 0) == main && RenderBody(g, Alternative(), 0) == sub
            && RenderMachine(g, [Alternative()], 0) == Then(main, Then(Complete, Then(sub, Nil)))
  {
    ChoiceCode();
    var g, e := OptionalInChoice(), Alternative();
    main, sub := Render(g, g.types[0], None, 0), RenderBody(g, e, 0);
    hide Render, RenderBody, Alternative;
    assert [e][1..] == [];
    assert RenderBodies(g, [e], 0) == Then(sub, Nil);
  }

  lemma {:induction false} ChoiceTable(places: map<Element, int>)
    requires Alternative() in places && places[Alternative()] == 5
    ensures Emit(RenderMachine(OptionalInChoice(), [Alternative()], 0), places, 0)
            == [MATCH_JUMP + 1, 0x30, 5, COND_FAIL, COMPLETE, MATCH + 1, 2, END_SEQ, RETURN]
  {
    var main, sub := ChoiceImage();
    hide Render, RenderMachine, Alternative, OptionalInChoice;
    var a, b := Then(main.first.first, Nil), Then(MatchPrim(2, false, true, None), Nil);
    assert Emit(main.first.first, places, 0) == [MATCH_JUMP + 1, 0x30, 5];
    assert Emit(a, places, 0) == [MATCH_JUMP + 1, 0x30, 5];
    assert Emit(Then(CondFail, Nil), places, 3) == [COND_FAIL];
    assert Emit(main, places, 0) == [MATCH_JUMP + 1, 0x30, 5, COND_FAIL];
    assert Emit(b, places, 5) == [MATCH + 1, 2];
    assert Emit(sub, places, 5) == [MATCH + 1, 2, END_SEQ, RETURN];
    assert Emit(Then(sub, Nil), places, 5) == [MATCH + 1, 2, END_SEQ, RETURN];
    assert Emit(Then(Complete, Then(sub, Nil)), places, 4) == [COMPLETE, MATCH + 1, 2, END_SEQ, RETURN];
  }

  lemma {:induction false} ChoiceParts()
    ensures var g, e := OptionalInChoice(), Alternative();
            var main := Render(g, g.types[0], None, 0);
            && Size(main) == 4 && Sound(main, 0) && SoundSub(RenderBody(g, e, 0), 0)
            && Targets(RenderMachine(g, [e], 0)) == [e]
  {
    var main, sub := ChoiceImage();
    hide Render, RenderBody, RenderMachine, Alternative;
    assert Targets(main.first) == [Alternative()] && Targets(main) == [Alternative()] && Targets(sub) == [];
    assert Targets(Then(sub, Nil)) == [] && Targets(Then(Complete, Then(sub, Nil))) == [];
    assert Size(main.first) == 3 && Sound(main.first, 0);
  }

  lemma {:induction false} ChoiceMachineIsValid()
    ensures ChoiceMachine().Valid()
    ensures ChoiceMachine().m == [MATCH_JUMP + 1, 0x30, 5, COND_FAIL, COMPLETE, MATCH + 1, 2, END_SEQ, RETURN]
  {
    var e := Alternative();
    ChoiceTable(map[e := 5]);
    ChoiceParts();
    hide Render, RenderBody, RenderMachine, Alternative, Emit, Sound, SoundSub, Targets, Size;
    assert [e][1..] == [];
  }

  // ----- the run ------------------------------------------------------------------------

  ghost predicate RunsChoice(env: Env) {
    && env.machine == [MATCH_JUMP + 1, 0x30, 5, COND_FAIL, COMPLETE, MATCH + 1, 2, END_SEQ, RETURN]
    && env.data == [0x30, 0x80, 0, 0]
  }

  lemma {:induction false} ChoiceOpens(env: Env)
    requires RunsChoice(env)
    ensures var c := Step(env, Init(env));
            && c.Run? && c.st.pc == 5 && c.st.dp == 2 && c.st.datalen == 4
            && c.st.cons == [Frame(2, 0, 2)] && c.st.jumps == [3]
  {
    assert env.machine[0] == MATCH_JUMP + 1 && env.machine[1] == 0x30 && env.machine[2] == 5;
    assert env.data[0] == 0x30 && env.data[1] == 0x80;
    hide Header, Matched, EndStep, Inside;
    var u := OpenHeader(env, Init(env), 0x30, Der.Indefinite, 0);
    hide AtHeader;
    MatchedCall(env, u, MATCH_JUMP + 1);
    ChoiceTagged(env);
    hide Step, Tagged;
    ChoiceInside(env, u);
  }

  lemma {:induction false} ChoiceTagged(env: Env)
    requires RunsChoice(env)
    ensures Step(env, Init(env)) == Header(env, Tagged(Init(env), 0x30, true), MATCH_JUMP + 1)
  {
    assert env.machine[0] == MATCH_JUMP + 1 && env.machine[1] == 0x30 && env.data[0] == 0x30;
    hide Header, EndStep;
  }

  lemma {:induction false} ChoiceInside(env: Env, u: State)
    requires RunsChoice(env) && Inside(Init(env), u, Der.Indefinite, 0)
    ensures u.dp == 2 && u.datalen == 4 && u.cons == [Frame(2, 0, 2)]
  {
  }

  /** In front of the end-of-contents octets the field is looked for, and found missing. */
  lemma {:induction false} ChoiceForgets(env: Env, s: State)
    requires RunsChoice(env) && s.pc == 5 && s.dp == 2 && s.datalen == 4
    ensures Step(env, s).Run? && !Step(env, s).st.matched
    ensures var t := Step(env, s).st; t.pc == 7 && t.dp == 2 && SamePlace(s, t)
  {
    assert env.machine[5] == MATCH + 1 && env.machine[6] == 2 && env.data[2] == 0;
    hide EndStep, Header;
  }

  lemma {:induction false} ChoiceCloses(env: Env, s: State)
    requires RunsChoice(env) && s.pc == 7 && s.dp == 2 && s.datalen == 4 && !s.matched
    requires s.cons == [Frame(2, 0, 2)] && s.jumps == [3]
    ensures Step(env, s).Run?
    ensures var t := Step(env, s).st; t.pc == 8 && t.jumps == [3] && !t.matched
  {
    assert env.machine[7] == END_SEQ && env.data[2] == 0 && env.data[3] == 0;
    hide MatchStep, CallAction;
  }

  lemma {:induction false} ChoiceFails(env: Env, s: State)
    requires RunsChoice(env) && s.pc == 8 && s.jumps == [3] && !s.matched
    ensures After(env, Run(s), 2).Halt? && After(env, Run(s), 2).out == TagMismatch
  {
    assert env.machine[8] == RETURN && env.machine[3] == COND_FAIL;
    hide MatchStep, EndStep;
    var t := s.(pc := 3, jumps := []);
    assert Step(env, s) == Run(t);
    assert Step(env, t) == Halt(TagMismatch, t);
    hide Step;
    assert After(env, Run(t), 1) == After(env, Step(env, t), 0);
    assert After(env, Run(s), 2) == After(env, Step(env, s), 1);
  }

  lemma {:induction false} ChoiceValue()
    ensures var g, v := OptionalInChoice(), Der.Chosen(0, Der.Fields([Der.Absent], Der.Indefinite));
            && Der.Conforms(g, g.types[0], v) && Der.Encode(g, g.types[0], None, v) == [0x30, 0x80, 0, 0]
            && !Settled(v)
  {
    var g := OptionalInChoice();
    var fs := Alternative().compound.fields;
    assert fs[1..] == [] && [Der.Absent][1..] == [];
    assert Der.FieldsConform(g, fs, [Der.Absent]);
    assert Der.Encode(g, fs[0], None, Der.Absent) == [];
    assert Der.EncodeFields(g, fs, [Der.Absent]) == [];
    assert Der.Wrap(0x30, Der.Indefinite, []) == [0x30, 0x80, 0, 0];
    assert Der.Encode(g, Alternative(), None, Der.Fields([Der.Absent], Der.Indefinite)) == [0x30, 0x80, 0, 0];
    assert !MatchedAfter([Der.Absent], true, Der.Indefinite);
  }

  /** So a value that conforms is refused in the indefinite form: behind the empty SEQUENCE the
      CHOICE no longer knows that it has matched. */
  lemma {:induction false} UnsettledChoiceIsRefused(env: Env)
    requires env.machine == ChoiceMachine().m && env.data == [0x30, 0x80, 0, 0]
    ensures ChoiceMachine().Valid()
    ensures var g, v := OptionalInChoice(), Der.Chosen(0, Der.Fields([Der.Absent], Der.Indefinite));
            && Der.Conforms(g, g.types[0], v) && env.data == Der.Encode(g, g.types[0], None, v) && !Settled(v)
            && After(env, BerMachine.Start(env), 5).Halt? && After(env, BerMachine.Start(env), 5).out == TagMismatch
  {
    ChoiceMachineIsValid();
    ChoiceValue();
    hide Machine.Valid, ChoiceMachine, OptionalInChoice, Step, After, Settled;
    ChoiceOpens(env);
    var s := Step(env, Init(env)).st;
    ChoiceForgets(env, s);
    var t := Step(env, s).st;
    ChoiceCloses(env, t);
    ChoiceFails(env, Step(env, t).st);
    OneMore(env, t, 2);
    OneMore(env, s, 3);
    OneMore(env, Init(env), 4);
  }

  lemma {:induction false} OneMore(env: Env, s: State, n: nat)
    ensures After(env, Run(s), n + 1) == After(env, Step(env, s), n)
  {
    hide Step;
  }
}
