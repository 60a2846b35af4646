/** The passes of the machine over well-formed data: one lemma for each kind of instruction and
    each way it goes. */
module Steps {
  import opened Octets
  import opened Slices
  import opened Bytecode
  import opened Grammar
  import opened Code
  import opened BerMachine
  import Layout
  import Der

  // ----- runs ---------------------------------------------------------------------------

  ghost predicate Reaches(env: Env, c: Config, d: Config) {
    exists n: nat :: After(env, c, n) == d
  }

  lemma {:induction false} AfterAdd(env: Env, c: Config, a: nat, b: nat)
    ensures After(env, After(env, c, a), b) == After(env, c, a + b)
    decreases a
  {
    hide Step;
    if a > 0 && c.Run? {
      AfterAdd(env, Step(env, c.st), a - 1, b);
    } else if c.Halt? {
      assert After(env, c, a) == c && After(env, c, a + b) == c;
    }
  }

  lemma {:induction false} ReachesTrans(env: Env, c: Config, d: Config, e: Config)
    requires Reaches(env, c, d) && Reaches(env, d, e)
    ensures Reaches(env, c, e)
  {
    hide After;
    var a: nat :| After(env, c, a) == d;
    var b: nat :| After(env, d, b) == e;
    AfterAdd(env, c, a, b);
  }

  lemma {:induction false} ReachesSelf(env: Env, c: Config)
    ensures Reaches(env, c, c)
  {
    assert After(env, c, 0) == c;
  }

  lemma {:induction false} ReachesStep(env: Env, s: State)
    ensures Reaches(env, Run(s), Step(env, s))
  {
    hide Step;
    assert After(env, Step(env, s), 0) == Step(env, s);
    assert After(env, Run(s), 1) == Step(env, s);
  }

  /** A run stops in one way only. */
  lemma {:induction false} OneEnd(env: Env, c: Config, m: nat, n: nat)
    requires After(env, c, m).Halt? && After(env, c, n).Halt?
    ensures After(env, c, m) == After(env, c, n)
  {
    hide Step;
    if m <= n {
      AfterAdd(env, c, m, n - m);
    } else {
      AfterAdd(env, c, n, m - n);
    }
  }

  // ----- what an observer sees of a trace -----------------------------------------------

  function Seen(trace: seq<Event>): seq<Der.Call> {
    seq(|trace|, i requires 0 <= i < |trace| =>
      Der.Call(trace[i].action, trace[i].hdrlen, trace[i].start, trace[i].len))
  }

  lemma {:induction false} SeenAppend(trace: seq<Event>, e: Event)
    ensures Seen(trace + [e]) == Seen(trace) + [Der.Call(e.action, e.hdrlen, e.start, e.len)]
  {
  }

  /** No action refuses. */
  ghost predicate Willing(env: Env) {
    forall tr: seq<Event> :: env.reply(tr) >= 0
  }

  /** The same surroundings: enclosing end and both stacks. */
  predicate SamePlace(s: State, t: State) {
    t.datalen == s.datalen && t.cons == s.cons && t.jumps == s.jumps
  }

  /** The input is no longer than the machine accepts, and the enclosing element ends inside
      it. */
  predicate Bounded(env: Env, s: State) {
    0 <= s.dp <= s.datalen <= |env.data| <= 65535
  }

  /** An element with identifier `id` and `n` contents octets lies at the cursor, wholly
      inside the enclosing element. */
  predicate AtTlv(env: Env, s: State, id: Octet, n: nat) {
    && Bounded(env, s)
    && s.dp + Der.HeaderSize(n) + n <= s.datalen
    && env.data[s.dp] == id && !IsLongTag(id)
    && env.data[s.dp + 1..s.dp + Der.HeaderSize(n)] == Der.LengthOctets(n)
  }

  /** The calls an action makes on an element. */
  function CallOf(act: Option<nat>, hdr: int, start: int, len: int): seq<Der.Call> {
    if act.Some? then [Der.Call(act.value, hdr, start, len)] else []
  }

  /** `t` is `s` after the leaf element at its cursor has been matched. */
  predicate PastLeaf(s: State, t: State, n: nat, act: Option<nat>) {
    && SamePlace(s, t) && t.matched
    && t.dp == s.dp + Der.HeaderSize(n) + n
    && t.tdp == s.dp + Der.HeaderSize(n) && t.len == n && t.hdr == Der.HeaderSize(n)
    && Seen(t.trace) == Seen(s.trace) + CallOf(act, t.hdr, t.tdp, n)
  }

  /** The header of a constructed element in either form, with `n` octets of contents: behind
      those of the indefinite form there is room for the end-of-contents octets. */
  predicate AtHeader(env: Env, s: State, id: Octet, form: Der.Form, n: nat) {
    match form
    case Definite => AtTlv(env, s, id, n)
    case Indefinite =>
      && Bounded(env, s) && s.dp + 2 + n + 2 <= s.datalen
      && env.data[s.dp] == id && !IsLongTag(id) && HasConsBit(id) && env.data[s.dp + 1] == 0x80
  }

  /** `t` is `s` after an instruction that found nothing to match. */
  predicate PassedOver(s: State, t: State) {
    SamePlace(s, t) && t.dp == s.dp && t.tdp == s.tdp && t.len == s.len && t.trace == s.trace
  }

  // ----- reading a header ---------------------------------------------------------------

  lemma {:induction false} DerLengthRead(env: Env, s: State, n: nat)
    requires 0 <= s.dp && s.dp + |Der.LengthOctets(n)| + n <= s.datalen <= |env.data| <= 65535
    requires env.data[s.dp..s.dp + |Der.LengthOctets(n)|] == Der.LengthOctets(n)
    ensures ReadLength(env, s) == Length(s.dp + |Der.LengthOctets(n)|, n, |Der.LengthOctets(n)| - 1, false)
  {
    At(env.data, s.dp, s.dp + |Der.LengthOctets(n)|, Der.LengthOctets(n));
    assert env.data[s.dp + 0] == Der.LengthOctets(n)[0];
    if n >= 0x80 {
      assert env.data[s.dp + 1] == Der.LengthOctets(n)[1];
      if n >= 0x100 {
        assert env.data[s.dp + 2] == Der.LengthOctets(n)[2];
      }
    }
  }

  /** The state with the header of the element at `s.dp` read. */
  predicate HeaderDone(s: State, t: State, n: nat, compound: bool) {
    && t.pc == s.pc && SamePlace(s, t) && t.trace == s.trace
    && t.matched && !t.indefinite && t.compound == compound
    && t.dp == s.dp + Der.HeaderSize(n) && t.len == n && t.hdr == Der.HeaderSize(n)
  }

  lemma {:induction false} HeaderRead(env: Env, s: State, id: Octet, n: nat, compound: bool) returns (t: State)
    requires AtTlv(env, s, id, n)
    ensures var s1 := Tagged(s, id, compound);
            ReadLength(env, s1).Length? && t == Sized(s1, ReadLength(env, s1)) && s1.compound == compound
    ensures HeaderDone(s, t, n, compound)
  {
    var s1 := Tagged(s, id, compound);
    DerLengthRead(env, s1, n);
    t := Sized(s1, ReadLength(env, s1));
  }

  // ----- leaves -------------------------------------------------------------------------

  lemma {:induction false} LeafMatched(env: Env, t: State, op: int, act: Option<nat>)
    requires IsAnyMatch(op) || IsPlainMatch(op)
    requires HasAct(op) <==> act.Some?
    requires act.Some? ==>
               var i := t.pc + (if IsAnyMatch(op) then 1 else 2);
               0 <= i < |env.machine| && env.machine[i] == act.value < env.nrActions
    requires !t.compound && !t.indefinite && t.tdp == t.dp && Willing(env)
    ensures var c := Matched(env, t, op);
            && c.Run? && c.st.pc == t.pc + OpLength(op) && SamePlace(t, c.st) && c.st.matched == t.matched
            && c.st.dp == t.dp + t.len && c.st.tdp == t.tdp && c.st.len == t.len && c.st.hdr == t.hdr
            && Seen(c.st.trace) == Seen(t.trace) + CallOf(act, t.hdr, t.dp, t.len)
  {
    if act.Some? {
      SeenAppend(t.trace, Event(act.value, t.hdr, t.tag, t.dp, t.len));
    }
    hide Seen;
  }

  lemma {:induction false} LeafHeader(env: Env, s: State, op: int, id: Octet, n: nat, act: Option<nat>) returns (t: State)
    requires AtTlv(env, s, id, n) && Willing(env)
    requires IsAnyMatch(op) || IsPlainMatch(op)
    requires HasAct(op) <==> act.Some?
    requires act.Some? ==>
               var i := s.pc + (if IsAnyMatch(op) then 1 else 2);
               0 <= i < |env.machine| && env.machine[i] == act.value < env.nrActions
    ensures Header(env, Tagged(s, id, false), op) == Run(t)
    ensures PastLeaf(s, t, n, act) && t.pc == s.pc + OpLength(op)
  {
    var u := HeaderRead(env, s, id, n, false);
    hide Matched, ReadLength, Sized, Tagged, Push, IsAnyMatch, IsPlainMatch, HasAct, OpLength, Seen;
    LeafMatched(env, u.(tdp := u.dp), op, act);
    t := Matched(env, u.(tdp := u.dp), op).st;
  }

  lemma {:induction false} MatchesAlone(optag: nat)
    requires !HasConsBit(optag)
    ensures TagMatches(optag, optag)
  {
  }

  lemma {:induction false} OpFacts(cond: bool, skip: bool, act: Option<nat>)
    requires cond ==> skip
    ensures var op := PrimOp(cond, skip, act);
            && IsPlainMatch(op) && !HasAny(op) && op <= OP_MATCHES_TAG && 0 <= op < OP_NR
            && (HasAct(op) <==> act.Some?) && (HasCond(op) <==> cond) && (HasSkip(op) <==> skip)
            && OpLength(op) == 2 + (if act.Some? then 1 else 0)
    ensures var op := CallOp(cond, skip);
            && IsJumpMatch(op) && !HasAny(op) && op <= OP_MATCHES_TAG && 0 <= op < OP_NR
            && (HasCond(op) <==> cond) && (HasSkip(op) <==> skip) && OpLength(op) == 3
    ensures var op := AnyOp(cond, act);
            && IsAnyMatch(op) && HasAny(op) && op <= OP_MATCHES_TAG && 0 <= op < OP_NR
            && (HasAct(op) <==> act.Some?) && (HasCond(op) <==> cond)
            && OpLength(op) == 1 + (if act.Some? then 1 else 0)
  {
  }

  /** A primitive match on its own tag. */
  lemma {:induction false} StepPrim(env: Env, entries: map<Element, int>, c: Code, s: State, n: nat) returns (t: State)
    requires c.MatchPrim? && Layout.Sound(c, env.nrActions) && Placed(env.machine, c, entries, s.pc)
    requires c.optag < 256 && AtTlv(env, s, c.optag, n) && Willing(env)
    requires !(c.cond && s.matched)
    ensures Step(env, s) == Run(t)
    ensures PastLeaf(s, t, n, c.act) && t.pc == s.pc + Size(c)
  {
    PlacedLeaf(env.machine, c, entries, s.pc);
    OpFacts(c.cond, c.skip, c.act);
    MatchesAlone(c.optag);
    t := LeafHeader(env, s, PrimOp(c.cond, c.skip, c.act), c.optag, n, c.act);
    hide Header, Tagged, PrimOp, IsPlainMatch, IsAnyMatch, HasAct, HasSkip, HasCond, HasAny, OpLength, TagMatches,
      HasConsBit, PastLeaf, EndStep, Emit;
  }

  /** ANY on whatever element there is. */
  lemma {:induction false} StepAny(env: Env, entries: map<Element, int>, c: Code, s: State, id: Octet, n: nat) returns (t: State)
    requires c.MatchAny? && Layout.Sound(c, env.nrActions) && Placed(env.machine, c, entries, s.pc)
    requires AtTlv(env, s, id, n) && Willing(env)
    requires !(c.cond && s.matched)
    ensures Step(env, s) == Run(t)
    ensures PastLeaf(s, t, n, c.act) && t.pc == s.pc + Size(c)
  {
    PlacedLeaf(env.machine, c, entries, s.pc);
    OpFacts(c.cond, true, c.act);
    t := LeafHeader(env, s, AnyOp(c.cond, c.act), id, n, c.act);
    hide Header, Tagged, AnyOp, IsPlainMatch, IsAnyMatch, HasAct, HasSkip, HasCond, HasAny, OpLength, TagMatches,
      HasConsBit, PastLeaf, EndStep, Emit;
  }

  // ----- nothing to match ---------------------------------------------------------------

  /** A tag-matching instruction, with the op and the length it has in the table. */
  function OpOf(c: Code): int
    requires c.MatchPrim? || c.MatchAny? || c.Call?
  {
    match c
    case MatchPrim(_, cond, skip, act) => PrimOp(cond, skip, act)
    case MatchAny(cond, act) => AnyOp(cond, act)
    case Call(_, cond, skip, _) => CallOp(cond, skip)
  }

  predicate IsCond(c: Code) {
    match c
    case MatchPrim(_, cond, _, _) => cond
    case MatchAny(cond, _) => cond
    case Call(_, cond, _, _) => cond
    case _ => false
  }

  lemma {:induction false} LeafOp(env: Env, entries: map<Element, int>, c: Code, pc: int)
    requires c.MatchPrim? || c.MatchAny? || c.Call?
    requires Layout.Sound(c, env.nrActions) && Placed(env.machine, c, entries, pc)
    ensures 0 <= pc < |env.machine| && pc + Size(c) <= |env.machine|
    ensures var op := env.machine[pc];
            && op == OpOf(c) && OpLength(op) == Size(c) && 0 <= op < OP_NR && op <= OP_MATCHES_TAG
            && (HasCond(op) <==> IsCond(c))
            && (!c.MatchAny? ==> !HasAny(op) && (HasSkip(op) <==> c.skip) && env.machine[pc + 1] == c.optag)
  {
    PlacedLeaf(env.machine, c, entries, pc);
    match c {
      case MatchPrim(_, cond, skip, act) => OpFacts(cond, skip, act);
      case MatchAny(cond, act) => OpFacts(cond, true, act);
      case Call(_, cond, skip, _) => OpFacts(cond, skip, None);
    }
    hide PrimOp, AnyOp, CallOp, HasSkip, HasCond, HasAny, OpLength, Emit;
  }

  /** At the end of the enclosing element, or behind a matched alternative. */
  lemma {:induction false} StepPast(env: Env, entries: map<Element, int>, c: Code, s: State) returns (t: State)
    requires c.MatchPrim? || c.MatchAny? || c.Call?
    requires Layout.Sound(c, env.nrActions) && Placed(env.machine, c, entries, s.pc)
    requires s.dp == s.datalen || (IsCond(c) && s.matched)
    ensures Step(env, s) == Run(t) && t == s.(pc := s.pc + Size(c))
  {
    hide OpOf, HasCond, IsCond, OpLength, TagStep, EndStep, Emit, Placed, HasAny, HasSkip, Size;
    LeafOp(env, entries, c, s.pc);
    t := s.(pc := s.pc + Size(c));
  }

  /** A skippable instruction on an element with another tag. */
  lemma {:induction false} StepMiss(env: Env, entries: map<Element, int>, c: Code, s: State) returns (t: State)
    requires (c.MatchPrim? || c.Call?) && c.skip
    requires Layout.Sound(c, env.nrActions) && Placed(env.machine, c, entries, s.pc)
    requires Bounded(env, s) && s.dp + 1 < s.datalen
    requires !IsLongTag(env.data[s.dp]) && !TagMatches(c.optag, env.data[s.dp])
    requires !(IsCond(c) && s.matched)
    ensures Step(env, s) == Run(t) && t.pc == s.pc + Size(c)
    ensures PassedOver(s, t) && !t.matched
  {
    hide OpOf, HasCond, IsCond, OpLength, EndStep, Emit, Placed, HasAny, HasSkip, TagMatches, IsLongTag, HasConsBit,
      Header, Size;
    LeafOp(env, entries, c, s.pc);
    SizeOfTagged(c);
    t := Tagged(s, env.data[s.dp], HasConsBit(c.optag)).(dp := s.dp, pc := s.pc + Size(c));
  }

  lemma {:induction false} SizeOfTagged(c: Code)
    ensures c.MatchPrim? || c.Call? ==> Size(c) >= 2
  {
  }

  // ----- constructed elements -----------------------------------------------------------

  /** `t` is `s` with the constructed element at its cursor opened; inside one of indefinite
      length the end of the element around it stays in force. */
  predicate Inside(s: State, t: State, form: Der.Form, n: nat) {
    && t.cons == s.cons + [Frame(t.dp, if form.Definite? then s.datalen else 0, Der.HeadSize(form, n))]
    && t.dp == s.dp + Der.HeadSize(form, n)
    && t.datalen == (if form.Definite? then t.dp + n else s.datalen)
    && t.trace == s.trace && t.matched
  }

  /** The state with the header of a constructed element read, before its frame is opened. */
  predicate Sizing(s: State, u: State, form: Der.Form, n: nat) {
    && u.pc == s.pc && SamePlace(s, u) && u.trace == s.trace
    && u.matched && u.compound && u.indefinite == form.Indefinite?
    && u.dp == s.dp + Der.HeadSize(form, n) && u.hdr == Der.HeadSize(form, n)
    && (form.Definite? ==> u.len == n)
  }

  /** The length octet 0x80 of a constructed element. */
  lemma {:induction false} IndefiniteRead(env: Env, s: State, id: Octet, n: nat) returns (u: State)
    requires AtHeader(env, s, id, Der.Indefinite, n)
    ensures var s1 := Tagged(s, id, true);
            ReadLength(env, s1).Length? && u == Sized(s1, ReadLength(env, s1)) && s1.compound
    ensures Sizing(s, u, Der.Indefinite, n)
  {
    u := Sized(Tagged(s, id, true), ReadLength(env, Tagged(s, id, true)));
  }

  lemma {:induction false} ConstructedRead(env: Env, s: State, id: Octet, form: Der.Form, n: nat) returns (u: State)
    requires AtHeader(env, s, id, form, n)
    ensures var s1 := Tagged(s, id, true);
            ReadLength(env, s1).Length? && u == Sized(s1, ReadLength(env, s1)) && s1.compound
    ensures Sizing(s, u, form, n)
    ensures 0 <= s.dp && s.dp + Der.HeadSize(form, n) + n <= s.datalen <= 65535 && s.datalen != 0
  {
    hide ReadLength, Sized, Tagged, Der.HeaderSize;
    if form.Definite? {
      u := HeaderRead(env, s, id, n, true);
      DefiniteRoom(env, s, id, n);
    } else {
      u := IndefiniteRead(env, s, id, n);
    }
  }

  lemma {:induction false} DefiniteRoom(env: Env, s: State, id: Octet, n: nat)
    requires AtTlv(env, s, id, n)
    ensures Bounded(env, s) && s.datalen != 0
  {
  }

  lemma {:induction false} OpenHeader(env: Env, s: State, id: Octet, form: Der.Form, n: nat) returns (t: State)
    requires AtHeader(env, s, id, form, n) && |s.cons| < NR_CONS_STACK
    ensures Inside(s, t, form, n) && t.compound && t.tdp == t.dp && t.pc == s.pc && t.jumps == s.jumps
    ensures forall op :: Header(env, Tagged(s, id, true), op) == Matched(env, t, op)
  {
    var u := ConstructedRead(env, s, id, form, n);
    t := Push(u).st.(tdp := u.dp);
    Pushed(s, u, form, n);
    hide Matched, ReadLength, Sized, Tagged, AtHeader, Sizing, Inside, Bounded, Der.HeadSize;
  }

  lemma {:induction false} Pushed(s: State, u: State, form: Der.Form, n: nat)
    requires Sizing(s, u, form, n) && |s.cons| < NR_CONS_STACK
    requires 0 <= s.dp && s.dp + Der.HeadSize(form, n) + n <= s.datalen <= 65535 && s.datalen != 0
    ensures Push(u).Run? && Push(u).st.pc == s.pc && Push(u).st.compound && Push(u).st.dp == u.dp
    ensures var t := Push(u).st.(tdp := u.dp); Inside(s, t, form, n) && t.jumps == s.jumps
  {
    hide Der.HeaderSize;
  }

  lemma {:induction false} HeaderFacts(env: Env, s: State, id: Octet, form: Der.Form, n: nat)
    requires AtHeader(env, s, id, form, n)
    ensures Bounded(env, s) && s.dp + 1 < s.datalen && env.data[s.dp] == id && !IsLongTag(id)
  {
  }

  lemma {:induction false} InsideAt(s: State, t: State, form: Der.Form, n: nat, pc: int)
    requires Inside(s, t, form, n)
    ensures Inside(s, t.(pc := pc), form, n)
  {
  }

  /** The opener of an inline constructed element. */
  lemma {:induction false} StepOpen(env: Env, entries: map<Element, int>, c: Code, s: State, id: Octet, form: Der.Form,
                                    n: nat) returns (t: State)
    requires c.Block? && Layout.Sound(c, env.nrActions) && Placed(env.machine, c, entries, s.pc)
    requires AtHeader(env, s, id, form, n) && TagMatches(c.optag, id) && |s.cons| < NR_CONS_STACK
    ensures Step(env, s) == Run(t)
    ensures Inside(s, t, form, n) && t.pc == s.pc + 2 && t.jumps == s.jumps
  {
    PlacedBlock(env.machine, c, entries, s.pc);
    HeaderFacts(env, s, id, form, n);
    var u := OpenHeader(env, s, id, form, n);
    t := u.(pc := s.pc + 2);
    hide Header, Tagged, TagMatches, IsLongTag, EndStep, Emit, Inside, Placed, PlacedEnd, CallAction, AtHeader;
    InsideAt(s, u, form, n, s.pc + 2);
    assert Matched(env, u, MATCH) == Run(t);
  }

  /** The jump to an out-of-line element. */
  lemma {:induction false} StepCall(env: Env, entries: map<Element, int>, c: Code, s: State, id: Octet, form: Der.Form,
                                    n: nat) returns (t: State)
    requires c.Call? && Layout.Sound(c, env.nrActions) && Placed(env.machine, c, entries, s.pc)
    requires AtHeader(env, s, id, form, n) && TagMatches(c.optag, id)
    requires |s.cons| < NR_CONS_STACK && |s.jumps| < NR_JUMP_STACK && s.pc + 3 < 0x100
    requires !(c.cond && s.matched)
    ensures Step(env, s) == Run(t)
    ensures Inside(s, t, form, n) && t.pc == Entry(entries, c.target) && t.jumps == s.jumps + [s.pc + 3]
  {
    hide Header, Tagged, TagMatches, IsLongTag, EndStep, Emit, Placed, CallAction, OpOf, IsCond,
      HasAct, HasSkip, HasCond, HasAny, OpLength, HasConsBit, Entry, AtHeader;
    CallOperands(env, entries, c, s.pc);
    LeafOp(env, entries, c, s.pc);
    HeaderFacts(env, s, id, form, n);
    var u := OpenHeader(env, s, id, form, n);
    t := u.(pc := Entry(entries, c.target), jumps := s.jumps + [s.pc + 3]);
    MatchedCall(env, u, env.machine[s.pc]);
  }

  lemma {:induction false} CallOperands(env: Env, entries: map<Element, int>, c: Code, pc: int)
    requires c.Call? && Layout.Sound(c, env.nrActions) && Placed(env.machine, c, entries, pc)
    ensures 0 <= pc && pc + 3 <= |env.machine| && Size(c) == 3
    ensures env.machine[pc + 2] == Entry(entries, c.target) && HasConsBit(c.optag)
    ensures IsJumpMatch(env.machine[pc]) && IsCond(c) == c.cond
  {
    PlacedLeaf(env.machine, c, entries, pc);
    OpFacts(c.cond, c.skip, None);
    hide CallOp, Entry;
  }

  lemma {:induction false} MatchedCall(env: Env, u: State, op: int)
    requires IsJumpMatch(op) && OpLength(op) == 3 && |u.jumps| < NR_JUMP_STACK && 0 <= u.pc && u.pc + 3 < 0x100
    requires u.pc + 2 < |env.machine|
    ensures Matched(env, u, op) == Run(u.(pc := env.machine[u.pc + 2], jumps := u.jumps + [u.pc + 3]))
  {
  }

  // ----- the other instructions ---------------------------------------------------------

  /** The innermost frame is of definite length. */
  predicate InDefinite(s: State) {
    s.cons != [] && s.cons[|s.cons| - 1].datalen != 0
  }

  /** The contents of the innermost frame end `n` octets behind the cursor: with the length it
      was given, or with the end-of-contents octets. */
  predicate ClosesIn(env: Env, s: State, n: nat) {
    && s.cons != [] && Bounded(env, s)
    && (if InDefinite(s) then s.dp + n == s.datalen
        else s.dp + n + 2 <= s.datalen && env.data[s.dp + n] == 0 == env.data[s.dp + n + 1])
  }

  lemma {:induction false} EndFacts(kind: Kind, act: Option<nat>)
    ensures var op := EndOp(kind, act);
            && IsEnd(op) && op !in {0x21, 0x25} && OpLength(op) == EndSize(kind, act)
            && (EndsOf(op) <==> kind != SeqKind) && (EndsWithAct(op) <==> act.Some?)
  {
  }

  /** `t` is `s` with its innermost frame closed at the end of the contents, and behind the
      end-of-contents octets if there are any. */
  predicate Ended(s: State, t: State, act: Option<nat>) {
    s.cons != [] &&
    var f := s.cons[|s.cons| - 1];
    && t.cons == s.cons[..|s.cons| - 1] && t.jumps == s.jumps && t.matched == s.matched
    && t.datalen == (if f.datalen == 0 then s.datalen else f.datalen)
    && t.dp == (if f.datalen == 0 then s.dp + 2 else s.dp)
    && t.tdp == f.dp && t.len == s.dp - f.dp && t.hdr == f.hdrlen
    && Seen(t.trace) == Seen(s.trace) + CallOf(act, t.hdr, t.tdp, t.len)
  }

  /** What END calls once the frame is popped. */
  lemma {:induction false} ClosedCalls(env: Env, u: State, op: int, act: Option<nat>) returns (t: State)
    requires 0 <= u.pc && (EndsWithAct(op) <==> act.Some?)
    requires act.Some? ==>
               var i := u.pc + (if EndsOf(op) then 2 else 1);
               i < |env.machine| && env.machine[i] == act.value < env.nrActions
    ensures BerMachine.Closed(env, u, op) == Run(t) && t == u.(pc := u.pc + OpLength(op), trace := t.trace)
    ensures Seen(t.trace) == Seen(u.trace) + CallOf(act, u.hdr, u.tdp, u.len)
  {
    if act.Some? {
      var e := Event(act.value, u.hdr, 0, u.tdp, u.len);
      SeenAppend(u.trace, e);
      t := u.(trace := u.trace + [e], pc := u.pc + OpLength(op));
    } else {
      t := u.(pc := u.pc + OpLength(op));
    }
    hide Seen, OpLength, EndsOf, EndsWithAct;
  }

  /** END at the end of the contents closes the innermost frame. */
  lemma {:induction false} StepEnd(env: Env, s: State, kind: Kind, head: int, act: Option<nat>) returns (t: State)
    requires PlacedEnd(env.machine, kind, head, act, s.pc) && Layout.ActionOk(act, env.nrActions)
    requires ClosesIn(env, s, 0)
    ensures Step(env, s) == Run(t) && t.pc == s.pc + EndSize(kind, act) && Ended(s, t, act)
  {
    EndFacts(kind, act);
    hide EndOp, IsEnd, EndsOf, EndsWithAct, OpLength, Seen, MatchStep, EndStep, ClosesIn;
    var u := EndCloses(env, s, env.machine[s.pc]);
    t := ClosedCalls(env, u, env.machine[s.pc], act);
  }

  lemma {:induction false} EndCloses(env: Env, s: State, op: int) returns (u: State)
    requires ClosesIn(env, s, 0) && op !in {0x21, 0x25}
    ensures s.cons != []
    ensures var f := s.cons[|s.cons| - 1];
            u == s.(tdp := f.dp, hdr := f.hdrlen, len := s.dp - f.dp, cons := s.cons[..|s.cons| - 1],
                    datalen := if f.datalen == 0 then s.datalen else f.datalen,
                    dp := if f.datalen == 0 then s.dp + 2 else s.dp)
    ensures EndStep(env, s, op) == BerMachine.Closed(env, u, op)
  {
    hide EndsOf, BerMachine.Closed;
    var f := s.cons[|s.cons| - 1];
    u := s.(tdp := f.dp, hdr := f.hdrlen, len := s.dp - f.dp, cons := s.cons[..|s.cons| - 1],
            datalen := if f.datalen == 0 then s.datalen else f.datalen,
            dp := if f.datalen == 0 then s.dp + 2 else s.dp);
  }

  /** END of a repetition in front of another item goes back to the head of the loop. */
  lemma {:induction false} StepAgain(env: Env, s: State, kind: Kind, head: int, act: Option<nat>) returns (t: State)
    requires PlacedEnd(env.machine, kind, head, act, s.pc) && kind != SeqKind
    requires s.cons != [] && 0 <= s.dp && (if InDefinite(s) then s.dp < s.datalen
                              else s.dp + 2 <= s.datalen <= |env.data| && env.data[s.dp] != 0)
    ensures Step(env, s) == Run(t) && t.pc == head
    ensures SamePlace(s, t) && t.dp == s.dp && t.trace == s.trace && t.matched == s.matched
  {
    EndFacts(kind, act);
    var f := s.cons[|s.cons| - 1];
    t := s.(tdp := f.dp, hdr := f.hdrlen, len := s.datalen, pc := head);
    hide EndOp, EndSize, IsEnd, EndsOf, EndsWithAct, OpLength, MatchStep, CallAction;
  }

  lemma {:induction false} StepAct(env: Env, entries: map<Element, int>, a: nat, s: State) returns (t: State)
    requires a < env.nrActions && Placed(env.machine, Act(a), entries, s.pc)
    ensures Step(env, s) == Run(t) && t.pc == s.pc + 2
    ensures t == s.(pc := t.pc, trace := t.trace) && Seen(t.trace) == Seen(s.trace) + [Der.Call(a, s.hdr, s.tdp, s.len)]
  {
    PlacedLeaf(env.machine, Act(a), entries, s.pc);
    var e := Event(a, s.hdr, s.tag, s.tdp, s.len);
    SeenAppend(s.trace, e);
    t := s.(trace := s.trace + [e], pc := s.pc + 2);
    hide Seen, MatchStep, EndStep, Emit;
  }

  lemma {:induction false} StepCondFail(env: Env, entries: map<Element, int>, s: State) returns (t: State)
    requires Placed(env.machine, CondFail, entries, s.pc) && s.matched
    ensures Step(env, s) == Run(t) && t == s.(pc := s.pc + 1)
  {
    PlacedLeaf(env.machine, CondFail, entries, s.pc);
    t := s.(pc := s.pc + 1);
    hide MatchStep, EndStep, Emit;
  }

  lemma {:induction false} StepReturn(env: Env, s: State) returns (t: State)
    requires 0 <= s.pc < |env.machine| && env.machine[s.pc] == RETURN && s.jumps != []
    ensures Step(env, s) == Run(t)
    ensures t == s.(pc := s.jumps[|s.jumps| - 1], jumps := s.jumps[..|s.jumps| - 1])
  {
    t := s.(pc := s.jumps[|s.jumps| - 1], jumps := s.jumps[..|s.jumps| - 1]);
    hide MatchStep, EndStep;
  }
}
