/** `parse_type`, `parse_compound` and `parse`: from tokens to element trees, with the action
    list and the reference counts they keep on the way. */
module Parser {
  import opened Grammar
  import opened Syntax

  // ----- element trees ------------------------------------------------------------------

  /** A `struct element` as parsing leaves it; actions are still known by name. */
  datatype Tree = Tree(
    cls: nat, cons: bool, tag: nat,
    implicit: bool, explicit: bool, skippable: bool, conditional: bool,
    action: Option<string>, name: Option<string>, body: Body)

  datatype Body =
    | Leaf
    | Whatever
    | RefTo(target: nat)
    | OneOf(children: seq<Tree>)
    | AllOf(children: seq<Tree>)
    | AnySome(children: seq<Tree>)
    | ManyOf(child: Tree)
    | SetFrom(child: Tree)
    | Override(child: Tree)

  /** `token_to_tag`, the names of the defined types in order, and what `bsearch` finds for a
      name in the index that `qsort` has made of them. */
  datatype Context = Context(tags: Token -> nat, types: seq<string>, find: string -> nat)

  /** The search finds a type of that name if there is one; which of several it finds is left to
      the library. The number of types stands for NULL. */
  ghost predicate Finds(types: seq<string>, find: string -> nat) {
    forall n :: find(n) <= |types| && (find(n) < |types| ==> types[find(n)] == n) && (find(n) == |types| <==> n !in types)
  }

  function ClassCode(c: Class): nat {
    match c case Universal => 0 case Application => 1 case ContextSpecific => 2 case Private => 3
  }

  function IndexOf(types: seq<string>, name: string): (i: nat)
    ensures i <= |types| && (i < |types| ==> types[i] == name) && (i == |types| <==> name !in types)
  {
    if types == [] || types[0] == name then 0 else 1 + IndexOf(types[1..], name)
  }

  /** The first token of a type proper. */
  function CoreToken(c: Core): Token {
    match c
    case Single(t) => t
    case Double(t) => t
    case Reference(name) => TypeName(name)
    case ChoiceOf(_) => ChoiceWord
    case SequenceWith(_) => SequenceWord
    case SetWith(_) => SetWord
    case SequenceOf(_) => SequenceWord
    case SetOf(_) => SetWord
  }

  function MarkerToken(m: Marker, c: Core): Token {
    match m case NoMarker => CoreToken(c) case Implicit => ImplicitWord case Explicit => ExplicitWord
  }

  predicate CoreIsConstructed(c: Core) {
    match c
    case Single(t) => t.ExternalWord?
    case Double(_) => false
    case Reference(_) => false
    case ChoiceOf(_) => false
    case _ => true
  }

  // ----- tags as they are written -------------------------------------------------------

  /** What a tag at `p` whose number fits the identifier octet stands for, by section 8.1.2.2 of
      X.690: the class and number bits of the octet, and whether IMPLICIT stands behind the tag. */
  function WrittenTag(ts: seq<Token>, p: nat): Option<(nat, bool)> {
    if p + 1 >= |ts| || ts[p] != OpenSquare then None
    else
      match ts[p + 1]
      case UniversalWord => WrittenNumber(ts, p + 2, 0x00)
      case ApplicationWord => WrittenNumber(ts, p + 2, 0x40)
      case Number(_) => WrittenNumber(ts, p + 1, 0x80)
      case PrivateWord => WrittenNumber(ts, p + 2, 0xc0)
      case _ => None
  }

  function WrittenNumber(ts: seq<Token>, p: nat, bits: nat): Option<(nat, bool)> {
    if p + 2 < |ts| && ts[p].Number? && ts[p].value < 31 && ts[p + 1] == CloseSquare then
      Some((bits + ts[p].value, ts[p + 2] == ImplicitWord))
    else None
  }

  /** The octet of the tree is that of the tag, constructed unless IMPLICIT leaves the method to
      the type behind it. */
  predicate Carries(t: Tree, tag: (nat, bool)) {
    && t.cls * 64 + t.tag == tag.0
    && (if tag.1 then !t.cons && t.body.Override? else t.cons && t.body.AllOf? && |t.body.children| == 1)
  }

  /** The tree of a type expression standing under `name`. Behind a tag a marker other than
      IMPLICIT makes a constructed element around the type, IMPLICIT an element that only
      overrides its tag; OPTIONAL belongs to the outer of the two, the action to the inner. */
  function Build(x: Context, t: Type, name: Option<string>): Tree
    decreases t, 1
  {
    var inner := BuildCore(x, t.core, name).(action := t.action);
    var implicit, explicit, skippable := t.marker == Implicit, t.marker == Explicit, t.presence != Required;
    if t.tagging.Some? then
      Tree(ClassCode(t.tagging.value.cls), !implicit, t.tagging.value.number % 256, implicit, explicit, skippable, false,
           None, name, if implicit then Override(inner) else AllOf([inner]))
    else
      inner.(tag := x.tags(MarkerToken(t.marker, t.core)), implicit := implicit, explicit := explicit,
             skippable := skippable)
  }

  function BuildCore(x: Context, c: Core, name: Option<string>): (t: Tree)
    ensures !t.skippable && !t.conditional
    decreases c, 0
  {
    Tree(0, CoreIsConstructed(c), x.tags(CoreToken(c)), false, false, false, false, None, name,
         match c
         case Single(t) => if t.AnyWord? then Whatever else Leaf
         case Double(_) => Leaf
         case Reference(n) => RefTo(x.find(n))
         case ChoiceOf(fields) => OneOf(BuildFields(x, fields, true))
         case SequenceWith(fields) => AllOf(BuildFields(x, fields, false))
         case SetWith(fields) => AnySome(BuildFields(x, fields, true))
         case SequenceOf(item) => ManyOf(Build(x, item, None))
         case SetOf(item) => SetFrom(Build(x, item, None)))
  }

  /** A child; an alternative is skippable and conditional. */
  function BuildField(x: Context, f: Field, alternative: bool): Tree
    decreases f, 0
  {
    var t := Build(x, f.content, f.name);
    if alternative then t.(skippable := true, conditional := true) else t
  }

  function BuildAll(x: Context, fields: seq<Field>, alternates: bool): (ts: seq<Tree>)
    ensures |ts| == |fields|
    decreases fields, 0
  {
    if fields == [] then [] else [BuildField(x, fields[0], alternates)] + BuildAll(x, fields[1..], alternates)
  }

  function Unconditional(ts: seq<Tree>): seq<Tree> {
    if ts == [] then [] else [ts[0].(conditional := false)] + ts[1..]
  }

  /** The children of a compound; the first one is never conditional. */
  function BuildFields(x: Context, fields: seq<Field>, alternates: bool): seq<Tree>
    decreases fields, 1
  {
    Unconditional(BuildAll(x, fields, alternates))
  }

  lemma {:induction false} BuildAllSnoc(x: Context, fields: seq<Field>, f: Field, alternates: bool)
    ensures BuildAll(x, fields + [f], alternates) == BuildAll(x, fields, alternates) + [BuildField(x, f, alternates)]
  {
    if fields == [] {
      assert [f][1..] == [];
    } else {
      assert (fields + [f])[1..] == fields[1..] + [f];
      BuildAllSnoc(x, fields[1..], f, alternates);
    }
  }

  // ----- actions and references met on the way ------------------------------------------

  function ActionsOf(t: Type): seq<string>
    decreases t, 1
  {
    ActionsIn(t.core) + (if t.action.Some? then [t.action.value] else [])
  }

  function ActionsIn(c: Core): seq<string>
    decreases c, 0
  {
    match c
    case ChoiceOf(fields) => ActionsInAll(fields)
    case SequenceWith(fields) => ActionsInAll(fields)
    case SetWith(fields) => ActionsInAll(fields)
    case SequenceOf(item) => ActionsOf(item)
    case SetOf(item) => ActionsOf(item)
    case _ => []
  }

  function ActionsOfField(f: Field): seq<string>
    decreases f, 0
  {
    ActionsOf(f.content)
  }

  function ActionsInAll(fields: seq<Field>): seq<string>
    decreases fields, 0
  {
    if fields == [] then [] else ActionsOfField(fields[0]) + ActionsInAll(fields[1..])
  }

  function RefsOf(t: Type): seq<string>
    decreases t, 1
  {
    RefsIn(t.core)
  }

  function RefsIn(c: Core): seq<string>
    decreases c, 0
  {
    match c
    case Reference(name) => [name]
    case ChoiceOf(fields) => RefsInAll(fields)
    case SequenceWith(fields) => RefsInAll(fields)
    case SetWith(fields) => RefsInAll(fields)
    case SequenceOf(item) => RefsOf(item)
    case SetOf(item) => RefsOf(item)
    case _ => []
  }

  function RefsOfField(f: Field): seq<string>
    decreases f, 0
  {
    RefsOf(f.content)
  }

  function RefsInAll(fields: seq<Field>): seq<string>
    decreases fields, 0
  {
    if fields == [] then [] else RefsOfField(fields[0]) + RefsInAll(fields[1..])
  }

  lemma {:induction false} InAllSnoc(fields: seq<Field>, f: Field)
    ensures ActionsInAll(fields + [f]) == ActionsInAll(fields) + ActionsOfField(f)
    ensures RefsInAll(fields + [f]) == RefsInAll(fields) + RefsOfField(f)
  {
    if fields == [] {
      assert [f][1..] == [] && fields + [f] == [f];
      assert ActionsInAll([]) == [] && RefsInAll([]) == [];
    } else {
      assert (fields + [f])[1..] == fields[1..] + [f];
      InAllSnoc(fields[1..], f);
    }
  }

  /** `strcmp`, as a sign. */
  function StrCmp(a: string, b: string): int {
    if a == [] then (if b == [] then 0 else -1)
    else if b == [] then 1
    else if a[0] < b[0] then -1
    else if a[0] > b[0] then 1
    else StrCmp(a[1..], b[1..])
  }

  /** A name goes into the list before the first greater one, unless it is there already. */
  function WithAction(actions: seq<string>, name: string): seq<string> {
    if actions == [] then [name]
    else
      var cmp := StrCmp(name, actions[0]);
      if cmp == 0 then actions
      else if cmp < 0 then [name] + actions
      else [actions[0]] + WithAction(actions[1..], name)
  }

  function WithActions(actions: seq<string>, names: seq<string>): seq<string> {
    if names == [] then actions else WithAction(WithActions(actions, names[..|names| - 1]), names[|names| - 1])
  }

  lemma {:induction false} WithActionsConcat(actions: seq<string>, a: seq<string>, b: seq<string>)
    ensures WithActions(actions, a + b) == WithActions(WithActions(actions, a), b)
  {
    if b == [] {
      assert a + b == a;
    } else {
      assert (a + b)[..|a + b| - 1] == a + b[..|b| - 1];
      WithActionsConcat(actions, a, b[..|b| - 1]);
    }
  }

  /** One more reference to each of the named types. */
  function Counted(find: string -> nat, counts: seq<nat>, names: seq<string>): (r: seq<nat>)
    ensures |r| == |counts|
  {
    if names == [] then counts
    else
      var before := Counted(find, counts, names[..|names| - 1]);
      var i := find(names[|names| - 1]);
      if i < |counts| then before[i := before[i] + 1] else before
  }

  lemma {:induction false} CountedConcat(find: string -> nat, counts: seq<nat>, a: seq<string>, b: seq<string>)
    ensures Counted(find, counts, a + b) == Counted(find, Counted(find, counts, a), b)
  {
    if b == [] {
      assert a + b == a;
    } else {
      assert (a + b)[..|a + b| - 1] == a + b[..|b| - 1];
      CountedConcat(find, counts, a, b[..|b| - 1]);
    }
  }

  function Defined(types: seq<string>): set<string> {
    set n | n in types
  }

  /** Fields read so far, in front of those still to come. */
  function Prepend(fields: seq<Field>, r: Read<seq<Field>>): Read<seq<Field>> {
    if r.None? then None else Some((fields + r.value.0, r.value.1))
  }

  // ----- the parser ---------------------------------------------------------------------

  class Parser {
    const x: Context
    const ts: seq<Token>
    var actions: seq<string>
    var nrActions: nat
    var refCounts: seq<nat>

    constructor (x: Context, ts: seq<Token>)
      requires Finds(x.types, x.find)
      ensures this.x == x && this.ts == ts && Valid() && actions == [] && refCounts == seq(|x.types|, i => 0)
    {
      this.x, this.ts := x, ts;
      actions, nrActions, refCounts := [], 0, seq(|x.types|, i => 0);
    }

    ghost predicate Valid()
      reads this
    {
      nrActions == |actions| && |refCounts| == |x.types| && Finds(x.types, x.find)
    }

    /** The lists are those of before with what the names add to them. */
    twostate predicate Recorded(names: seq<string>, refs: seq<string>)
      requires old(Valid())
      reads this
    {
      && Valid()
      && actions == WithActions(old(actions), names)
      && refCounts == Counted(x.find, old(refCounts), refs)
    }

    /** The loop over the linked action list. */
    method AddAction(name: string)
      requires Valid()
      modifies this`actions, this`nrActions
      ensures Valid() && actions == WithAction(old(actions), name)
    {
      var i := 0;
      while i < |actions|
        invariant 0 <= i <= |actions| && actions == old(actions) && nrActions == old(nrActions)
        invariant WithAction(actions, name) == actions[..i] + WithAction(actions[i..], name)
      {
        var cmp := StrCmp(name, actions[i]);
        if cmp == 0 {
          assert actions[..i] + actions[i..] == actions;
          return;
        }
        if cmp < 0 {
          assert actions[..i] + ([name] + actions[i..]) == actions[..i] + [name] + actions[i..];
          actions, nrActions := actions[..i] + [name] + actions[i..], nrActions + 1;
          return;
        }
        assert actions[i..][1..] == actions[i + 1..];
        assert actions[..i] + ([actions[i]] + WithAction(actions[i + 1..], name))
            == actions[..i + 1] + WithAction(actions[i + 1..], name);
        i := i + 1;
      }
      assert actions[..i] == actions && actions[i..] == [];
      actions, nrActions := actions + [name], nrActions + 1;
    }

    /** `parse_type`. */
    method ParseType(c: nat, end: nat, name: Option<string>) returns (r: Read<Tree>)
      requires Valid() && end <= |ts|
      modifies this
      ensures Valid()
      ensures r.Some? && WrittenTag(ts, c).Some? ==> Carries(r.value.0, WrittenTag(ts, c).value)
      ensures var t := ReadType(ts, Defined(x.types), c, end);
              && (t.None? ==> r.None?)
              && (t.Some? ==> r == Some((Build(x, t.value.0, name), t.value.1))
                              && Recorded(ActionsOf(t.value.0), RefsOf(t.value.0)))
      decreases |ts| - c, 2
    {
      hide ReadLabel, ReadMarker, ReadPresence, ReadAction, BuildCore, ActionsIn, RefsIn, WithActions, Counted, ReadCore,
        WithAction;
      if c >= |ts| { return None; }
      var l := ReadLabel(ts, c, end);
      if l.None? { return None; }
      var m := ReadMarker(ts, l.value.1, end);
      if m.None? { return None; }
      var k := ParseCore(m.value.1, end, name);
      if k.None? { return None; }
      var (presence, d) := ReadPresence(ts, k.value.1, end);
      var a := ReadAction(ts, d, end);
      if a.None? { return None; }
      ghost var before, core := actions, ReadCore(ts, Defined(x.types), m.value.1, end).value.0;
      if a.value.0.Some? {
        AddAction(a.value.0.value);
      }
      ActionLast(old(actions), ActionsIn(core), a.value.0);
      var inner := k.value.0.(action := a.value.0);
      var implicit, explicit := m.value.0 == Implicit, m.value.0 == Explicit;
      var top := inner;
      if l.value.0.Some? {
        var tagging := l.value.0.value;
        top := Tree(ClassCode(tagging.cls), !implicit, tagging.number % 256, implicit, explicit, false, false, None, name,
                    if implicit then Override(inner) else AllOf([inner]));
      } else {
        NoTagging(c, end);
        FirstToken(c, end);
        top := inner.(tag := x.tags(ts[c]), implicit := implicit, explicit := explicit);
      }
      if presence != Required {
        top := top.(skippable := true);
      }
      if WrittenTag(ts, c).Some? {
        TagRead(c, end);
      }
      return Some((top, a.value.1));
    }

    /** The tag is read as it is written. */
    lemma {:induction false} TagRead(c: nat, end: nat)
      requires c < |ts| && end <= |ts| && WrittenTag(ts, c).Some?
      ensures var l := ReadLabel(ts, c, end);
              l.Some? ==>
                && l.value.0.Some? && l.value.0.value.number < 31
                && ClassCode(l.value.0.value.cls) * 64 + l.value.0.value.number == WrittenTag(ts, c).value.0
                && var m := ReadMarker(ts, l.value.1, end);
                   m.Some? ==> (m.value.0 == Implicit <==> WrittenTag(ts, c).value.1)
    {
    }

    lemma {:induction false} ActionLast(was: seq<string>, names: seq<string>, a: Option<string>)
      ensures a.Some? ==> WithActions(was, names + [a.value]) == WithAction(WithActions(was, names), a.value)
      ensures names + [] == names
    {
      if a.Some? {
        assert (names + [a.value])[..|names|] == names;
      }
    }

    lemma {:induction false} NoTagging(c: nat, end: nat)
      requires c < |ts| && end <= |ts| && ReadLabel(ts, c, end).Some?
      ensures ReadLabel(ts, c, end).value.0.None? ==> ReadLabel(ts, c, end).value.1 == c
    {
    }

    /** Without a tag, the element's number is that of the very first token. */
    lemma {:induction false} FirstToken(c: nat, end: nat)
      requires c < |ts| && end <= |ts|
      requires ReadMarker(ts, c, end).Some? && ReadCore(ts, Defined(x.types), ReadMarker(ts, c, end).value.1, end).Some?
      ensures ts[c] == MarkerToken(ReadMarker(ts, c, end).value.0,
                                   ReadCore(ts, Defined(x.types), ReadMarker(ts, c, end).value.1, end).value.0)
    {
      hide ReadType, ReadCompound;
    }

    /** The type proper. */
    method ParseCore(c: nat, end: nat, name: Option<string>) returns (r: Read<Tree>)
      requires Valid() && c < |ts| && end <= |ts|
      modifies this
      ensures Valid()
      ensures var t := ReadCore(ts, Defined(x.types), c, end);
              && (t.None? ==> r.None?)
              && (t.Some? ==> r == Some((BuildCore(x, t.value.0, name), t.value.1))
                              && Recorded(ActionsIn(t.value.0), RefsIn(t.value.0)))
      decreases |ts| - c, 1
    {
      hide ReadCompound, ReadType, BuildFields, Build, ActionsInAll, RefsInAll, ActionsOf, RefsOf, Finds, WithActions,
        Counted, PrintCore;
      var e := Tree(0, false, x.tags(ts[c]), false, false, false, false, None, name, Leaf);
      NothingMet();
      match ts[c] {
        case Word(_) => return Some((e, c + 1));
        case AnyWord => return Some((e.(body := Whatever), c + 1));
        case ExternalWord => return Some((e.(cons := true), c + 1));
        case BitWord =>
          if c + 1 >= end || ts[c + 1] != StringWord { return None; }
          return Some((e, c + 2));
        case OctetWord =>
          if c + 1 >= end || ts[c + 1] != StringWord { return None; }
          return Some((e, c + 2));
        case ObjectWord =>
          if c + 1 >= end || ts[c + 1] != IdentifierWord { return None; }
          return Some((e, c + 2));
        case TypeName(n) =>
          r := ParseReference(c, n, e);
        case ChoiceWord =>
          var f := ParseCompound(c + 1, end, true);
          if f.None? { return None; }
          return Some((e.(body := OneOf(f.value.0)), f.value.1));
        case SequenceWord => r := ParseSequence(c, end, e.(cons := true));
        case SetWord => r := ParseSet(c, end, e.(cons := true));
        case _ => return None;
      }
    }

    /** SEQUENCE and SEQUENCE OF. */
    method ParseSequence(c: nat, end: nat, e: Tree) returns (r: Read<Tree>)
      requires Valid() && c < |ts| && end <= |ts| && ts[c] == SequenceWord
      modifies this
      ensures Valid()
      ensures var t := ReadCore(ts, Defined(x.types), c, end);
              && (t.None? ==> r.None?)
              && (t.Some? ==> r == Some((e.(body := BuildCore(x, t.value.0, None).body), t.value.1))
                              && Recorded(ActionsIn(t.value.0), RefsIn(t.value.0)))
      decreases |ts| - c, 0
    {
      hide ReadCompound, ReadType, BuildFields, Build, ActionsInAll, RefsInAll, ActionsOf, RefsOf;
      if c + 1 >= end { return None; }
      if ts[c + 1] == OfWord {
        if c + 2 >= end { return None; }
        var t := ParseType(c + 2, end, None);
        if t.None? { return None; }
        return Some((e.(body := ManyOf(t.value.0)), t.value.1));
      }
      var f := ParseCompound(c + 1, end, false);
      if f.None? { return None; }
      return Some((e.(body := AllOf(f.value.0)), f.value.1));
    }

    /** SET and SET OF. */
    method ParseSet(c: nat, end: nat, e: Tree) returns (r: Read<Tree>)
      requires Valid() && c < |ts| && end <= |ts| && ts[c] == SetWord
      modifies this
      ensures Valid()
      ensures var t := ReadCore(ts, Defined(x.types), c, end);
              && (t.None? ==> r.None?)
              && (t.Some? ==> r == Some((e.(body := BuildCore(x, t.value.0, None).body), t.value.1))
                              && Recorded(ActionsIn(t.value.0), RefsIn(t.value.0)))
      decreases |ts| - c, 0
    {
      hide ReadCompound, ReadType, BuildFields, Build, ActionsInAll, RefsInAll, ActionsOf, RefsOf;
      if c + 1 >= end { return None; }
      if ts[c + 1] == OfWord {
        if c + 2 >= end { return None; }
        var t := ParseType(c + 2, end, None);
        if t.None? { return None; }
        return Some((e.(body := SetFrom(t.value.0)), t.value.1));
      }
      var f := ParseCompound(c + 1, end, true);
      if f.None? { return None; }
      return Some((e.(body := AnySome(f.value.0)), f.value.1));
    }

    lemma {:induction false} NothingMet()
      requires |refCounts| == |x.types|
      ensures WithActions(actions, []) == actions && Counted(x.find, refCounts, []) == refCounts
    {
    }

    /** A reference to a type is counted where the type is defined. */
    method ParseReference(c: nat, name: string, e: Tree) returns (r: Read<Tree>)
      requires Valid() && c < |ts|
      modifies this`refCounts
      ensures Valid() && actions == old(actions)
      ensures name !in x.types ==> r.None?
      ensures name in x.types ==>
                && r == Some((e.(body := RefTo(x.find(name))), c + 1))
                && refCounts == Counted(x.find, old(refCounts), [name])
    {
      var ref := x.find(name);
      if ref == |x.types| { return None; }
      refCounts := refCounts[ref := refCounts[ref] + 1];
      assert [name][..0] == [];
      return Some((e.(body := RefTo(ref)), c + 1));
    }

    /** `parse_compound`. */
    method ParseCompound(c: nat, end: nat, alternates: bool) returns (r: Read<seq<Tree>>)
      requires Valid() && end <= |ts|
      modifies this
      ensures Valid()
      ensures var f := ReadCompound(ts, Defined(x.types), c, end);
              && (f.None? ==> r.None?)
              && (f.Some? ==> r == Some((BuildFields(x, f.value.0, alternates), f.value.1))
                              && Recorded(ActionsInAll(f.value.0), RefsInAll(f.value.0)))
      decreases |ts| - c, 3
    {
      hide ReadFields, ReadType, BuildAll, ActionsInAll, RefsInAll, WithActions, Counted, BuildField, ReadField,
        ActionsOfField, RefsOfField;
      if c >= |ts| || ts[c] != OpenCurly || c + 1 >= end { return None; }
      var cursor := c + 1;
      if ts[cursor] == OpenCurly {
        NoSecondBrace(cursor, end);
        return None;
      }
      var children: seq<Tree> := [];
      ghost var fields: seq<Field> := [];
      NothingMet();
      NoFieldsYet(alternates, cursor, end);
      while true
        invariant Valid() && c < cursor < |ts|
        invariant ReadFields(ts, Defined(x.types), c + 1, end) == Prepend(fields, ReadFields(ts, Defined(x.types), cursor, end))
        invariant children == BuildAll(x, fields, alternates)
        invariant actions == WithActions(old(actions), ActionsInAll(fields))
        invariant refCounts == Counted(x.find, old(refCounts), RefsInAll(fields))
        decreases |ts| - cursor
      {
        NextField(cursor, end);
        ghost var field := ReadField(cursor, end);
        var child := ParseField(cursor, end, alternates);
        if child.None? { return None; }
        cursor := child.value.1;
        OneMore(old(actions), old(refCounts), fields, field.value.0, alternates);
        children := children + [child.value.0];
        fields := fields + [field.value.0];
        if cursor >= end { return None; }
        if ts[cursor] != Comma {
          if ts[cursor] != CloseCurly { return None; }
          return Some((Unconditional(children), cursor + 1));
        }
        cursor := cursor + 1;
        if cursor >= end { return None; }
        PrependTwice(fields[..|fields| - 1], field.value.0, ReadFields(ts, Defined(x.types), cursor, end));
      }
    }

    lemma {:induction false} NoSecondBrace(c: nat, end: nat)
      requires c < end <= |ts| && ts[c] == OpenCurly
      ensures ReadFields(ts, Defined(x.types), c, end).None?
    {
      assert ReadCore(ts, Defined(x.types), c, end).None?;
      assert ReadType(ts, Defined(x.types), c, end).None?;
    }

    lemma {:induction false} NoFieldsYet(alternates: bool, c: nat, end: nat)
      requires c < |ts| && end <= |ts|
      ensures BuildAll(x, [], alternates) == [] && ActionsInAll([]) == [] && RefsInAll([]) == []
      ensures Prepend([], ReadFields(ts, Defined(x.types), c, end)) == ReadFields(ts, Defined(x.types), c, end)
    {
      hide ReadFields;
      var r := ReadFields(ts, Defined(x.types), c, end);
      if r.Some? {
        assert [] + r.value.0 == r.value.0;
      }
    }

    /** A field with its name, from `c` on. */
    ghost function ReadField(c: nat, end: nat): (r: Read<Field>)
      requires c < |ts| && end <= |ts|
      ensures r.Some? ==> c < r.value.1
    {
      var n := ReadName(ts, c, end);
      if n.None? then None else
      var t := ReadType(ts, Defined(x.types), n.value.1, end);
      if t.None? then None else Some((Field(n.value.0, t.value.0), t.value.1))
    }

    /** The body of the loop over the fields. */
    method ParseField(c: nat, end: nat, alternates: bool) returns (r: Read<Tree>)
      requires Valid() && c < |ts| && end <= |ts|
      modifies this
      ensures Valid()
      ensures var f := ReadField(c, end);
              && (f.None? ==> r.None?)
              && (f.Some? ==> r == Some((BuildField(x, f.value.0, alternates), f.value.1))
                              && Recorded(ActionsOfField(f.value.0), RefsOfField(f.value.0)))
      decreases |ts| - c, 3
    {
      hide ReadType, ReadName, Build, ActionsOf, RefsOf, WithActions, Counted;
      var name := ReadName(ts, c, end);
      if name.None? { return None; }
      var element := ParseType(name.value.1, end, name.value.0);
      if element.None? { return None; }
      var child := element.value.0;
      if alternates {
        child := child.(skippable := true, conditional := true);
      }
      return Some((child, element.value.1));
    }

    /** One round of the recursion of `ReadFields`. */
    lemma {:induction false} NextField(c: nat, end: nat)
      requires c < |ts| && end <= |ts|
      ensures var types := Defined(x.types);
              var r, f := ReadFields(ts, types, c, end), ReadField(c, end);
              && (f.None? || f.value.1 >= end ==> r.None?)
              && (f.Some? && f.value.1 < end ==>
                    var (field, d) := f.value;
                    && (ts[d] == Comma ==> r == if d + 1 >= end then None else Prepend([field], ReadFields(ts, types, d + 1, end)))
                    && (ts[d] == CloseCurly ==> r == Some(([field], d + 1)))
                    && (ts[d] != Comma && ts[d] != CloseCurly ==> r.None?))
    {
      hide ReadType, ReadName;
    }

    lemma {:induction false} OneMore(actions: seq<string>, counts: seq<nat>, fields: seq<Field>, f: Field, alternates: bool)
      requires |counts| == |x.types|
      ensures WithActions(WithActions(actions, ActionsInAll(fields)), ActionsOfField(f)) == WithActions(actions, ActionsInAll(fields + [f]))
      ensures Counted(x.find, Counted(x.find, counts, RefsInAll(fields)), RefsOfField(f)) == Counted(x.find, counts, RefsInAll(fields + [f]))
      ensures BuildAll(x, fields + [f], alternates) == BuildAll(x, fields, alternates) + [BuildField(x, f, alternates)]
    {
      hide WithActions, Counted, ActionsOfField, RefsOfField, BuildField;
      InAllSnoc(fields, f);
      BuildAllSnoc(x, fields, f, alternates);
      WithActionsConcat(actions, ActionsInAll(fields), ActionsOfField(f));
      CountedConcat(x.find, counts, RefsInAll(fields), RefsOfField(f));
    }

    lemma {:induction false} PrependTwice(fields: seq<Field>, f: Field, r: Read<seq<Field>>)
      ensures Prepend(fields, Prepend([f], r)) == Prepend(fields + [f], r)
      ensures (fields + [f])[..|fields|] == fields
    {
      if r.Some? {
        assert fields + ([f] + r.value.0) == (fields + [f]) + r.value.0;
      }
    }
  }
}
