/** What the front end hands on: the order of the action list, the reference counts, and the
    grammar that the parsed trees are for the renderer. */
module FrontEnd {
  import opened Grammar
  import opened Syntax
  import opened Parser
  import opened Definitions
  import opened SupportedGrammars
  import Layout
  import Code

  // ----- the action list ----------------------------------------------------------------

  ghost predicate Ascending(names: seq<string>) {
    forall i, j :: 0 <= i < j < |names| ==> StrCmp(names[i], names[j]) < 0
  }

  lemma {:induction false} StrCmpEqual(a: string, b: string)
    ensures StrCmp(a, b) == 0 <==> a == b
  {
    if a != [] && b != [] {
      StrCmpEqual(a[1..], b[1..]);
      assert a == [a[0]] + a[1..] && b == [b[0]] + b[1..];
    }
  }

  lemma {:induction false} StrCmpFlips(a: string, b: string)
    ensures StrCmp(b, a) == -StrCmp(a, b)
  {
    if a != [] && b != [] {
      StrCmpFlips(a[1..], b[1..]);
    }
  }

  lemma {:induction false} StrCmpTrans(a: string, b: string, c: string)
    requires StrCmp(a, b) < 0 && StrCmp(b, c) < 0
    ensures StrCmp(a, c) < 0
  {
    if a != [] && b != [] && c != [] && a[0] == b[0] == c[0] {
      StrCmpTrans(a[1..], b[1..], c[1..]);
    }
  }

  lemma {:induction false} WithActionKeeps(actions: seq<string>, name: string)
    requires Ascending(actions)
    ensures var r := WithAction(actions, name);
            && Ascending(r) && (forall a :: a in r <==> a in actions || a == name)
    decreases actions
  {
    if actions != [] {
      var rest := actions[1..];
      assert actions == [actions[0]] + rest;
      StrCmpEqual(name, actions[0]);
      StrCmpFlips(name, actions[0]);
      if StrCmp(name, actions[0]) < 0 {
        forall j | 0 < j < |actions|
          ensures StrCmp(name, actions[j]) < 0
        {
          StrCmpTrans(name, actions[0], actions[j]);
        }
      } else if StrCmp(name, actions[0]) > 0 {
        WithActionKeeps(rest, name);
        var r := WithAction(rest, name);
        forall j | 0 <= j < |r|
          ensures StrCmp(actions[0], r[j]) < 0
        {
          assert r[j] in r;
          if r[j] != name {
            var k :| 0 <= k < |rest| && rest[k] == r[j];
            assert actions[k + 1] == r[j];
          }
        }
      }
    }
  }

  /** The action list is strictly ascending, so no name is in it twice, and holds exactly
      the names met. */
  lemma {:induction false} ActionList(names: seq<string>)
    ensures Ascending(WithActions([], names))
    ensures forall a :: a in WithActions([], names) <==> a in names
  {
    if names != [] {
      var before, last := names[..|names| - 1], names[|names| - 1];
      assert names == before + [last];
      ActionList(before);
      WithActionKeeps(WithActions([], before), last);
      hide Ascending;
    }
  }

  /** There is only one such list. */
  lemma {:induction false} AscendingIsUnique(a: seq<string>, b: seq<string>)
    requires Ascending(a) && Ascending(b) && forall n :: n in a <==> n in b
    ensures a == b
    decreases |a|
  {
    FirstIsIn(a);
    FirstIsIn(b);
    if a != [] {
      LeastFirst(a, b);
      forall n
        ensures n in a[1..] <==> n in b[1..]
      {
        TailHolds(a, n);
        TailHolds(b, n);
      }
      AscendingIsUnique(a[1..], b[1..]);
      assert a == [a[0]] + a[1..] && b == [b[0]] + b[1..];
    }
  }

  lemma {:induction false} FirstIsIn(a: seq<string>)
    ensures a != [] ==> a[0] in a
    ensures a == [] ==> forall n :: n !in a
  {
  }

  lemma {:induction false} AscendsFrom(a: seq<string>, i: nat)
    requires Ascending(a) && i < |a|
    ensures i > 0 ==> StrCmp(a[0], a[i]) < 0
  {
  }

  lemma {:induction false} LeastFirst(a: seq<string>, b: seq<string>)
    requires Ascending(a) && Ascending(b) && a != [] && b != [] && a[0] in b && b[0] in a
    ensures a[0] == b[0]
  {
    StrCmpFlips(a[0], b[0]);
    hide StrCmp;
    var i :| 0 <= i < |a| && a[i] == b[0];
    var j :| 0 <= j < |b| && b[j] == a[0];
    AscendsFrom(a, i);
    AscendsFrom(b, j);
  }

  lemma {:induction false} TailHolds(a: seq<string>, n: string)
    requires Ascending(a) && a != []
    ensures n in a[1..] <==> n in a && n != a[0]
  {
    hide StrCmp;
    if n in a[1..] {
      var i :| 0 <= i < |a| - 1 && a[1..][i] == n;
      assert a[i + 1] == n && StrCmp(a[0], a[i + 1]) < 0;
      StrCmpEqual(a[0], n);
    }
    if n in a && n != a[0] {
      var i :| 0 <= i < |a| && a[i] == n;
      assert a[1..][i - 1] == n;
    }
  }

  /** The number an action is given when the table is rendered. */
  function ActionIndex(actions: seq<string>, name: string): nat {
    IndexOf(actions, name)
  }

  /** Equal names get equal numbers, distinct names distinct ones, all below the count. */
  lemma {:induction false} ActionNumbers(names: seq<string>, a: string, b: string)
    requires a in names && b in names
    ensures var actions := WithActions([], names);
            && ActionIndex(actions, a) < |actions| && actions[ActionIndex(actions, a)] == a
            && (ActionIndex(actions, a) == ActionIndex(actions, b) <==> a == b)
  {
    ActionList(names);
    hide Ascending, WithActions;
  }

  // ----- reference counts ---------------------------------------------------------------

  /** How many of the names are found at type `i`. */
  function Occurrences(find: string -> nat, names: seq<string>, i: nat): nat {
    if names == [] then 0
    else Occurrences(find, names[..|names| - 1], i) + (if find(names[|names| - 1]) == i then 1 else 0)
  }

  lemma {:induction false} OccurrencesConcat(find: string -> nat, a: seq<string>, b: seq<string>, i: nat)
    ensures Occurrences(find, a + b, i) == Occurrences(find, a, i) + Occurrences(find, b, i)
  {
    if b == [] {
      assert a + b == a;
    } else {
      assert (a + b)[..|a + b| - 1] == a + b[..|b| - 1];
      OccurrencesConcat(find, a, b[..|b| - 1], i);
    }
  }

  lemma {:induction false} CountedMeans(find: string -> nat, counts: seq<nat>, names: seq<string>, i: nat)
    requires i < |counts|
    ensures Counted(find, counts, names)[i] == counts[i] + Occurrences(find, names, i)
  {
    if names != [] {
      CountedMeans(find, counts, names[..|names| - 1], i);
    }
  }

  /** Number of reference elements of a tree that point to type `i`. */
  function RefNodes(t: Tree, i: nat): nat
    decreases t, 1
  {
    match t.body
    case RefTo(target) => if target == i then 1 else 0
    case OneOf(children) => RefNodesAll(children, i)
    case AllOf(children) => RefNodesAll(children, i)
    case AnySome(children) => RefNodesAll(children, i)
    case ManyOf(child) => RefNodes(child, i)
    case SetFrom(child) => RefNodes(child, i)
    case Override(child) => RefNodes(child, i)
    case _ => 0
  }

  function RefNodesAll(ts: seq<Tree>, i: nat): nat
    decreases ts, 0
  {
    if ts == [] then 0 else RefNodes(ts[0], i) + RefNodesAll(ts[1..], i)
  }

  lemma {:induction false} RefNodesOfFlags(ts: seq<Tree>, i: nat)
    ensures RefNodesAll(Unconditional(ts), i) == RefNodesAll(ts, i)
  {
    if ts != [] {
      assert Unconditional(ts)[1..] == ts[1..];
    }
  }

  /** The references of a type are the reference elements of its tree. */
  lemma {:induction false} RefsAreNodes(x: Context, t: Type, name: Option<string>, i: nat)
    requires WellFormed(t, Defined(x.types))
    ensures RefNodes(Build(x, t, name), i) == Occurrences(x.find, RefsOf(t), i)
    decreases t, 1
  {
    CoreRefs(x, t.core, name, i);
    var inner := BuildCore(x, t.core, name).(action := t.action);
    BuiltBody(x, t, name);
    hide BuildCore, RefsIn, CoreOk, Build, RefNodes, Occurrences;
    SameBody(inner, BuildCore(x, t.core, name), i);
    OneChild(inner, i);
    SameBody(Build(x, t, name), inner, i);
  }

  lemma {:induction false} BuiltBody(x: Context, t: Type, name: Option<string>)
    ensures var b, inner := Build(x, t, name).body, BuildCore(x, t.core, name).(action := t.action);
            b == inner.body || b == Override(inner) || b == AllOf([inner])
  {
    hide BuildCore;
  }

  lemma {:induction false} SameBody(a: Tree, b: Tree, i: nat)
    ensures a.body == b.body ==> RefNodes(a, i) == RefNodes(b, i)
    ensures a.body == Override(b) || a.body == AllOf([b]) ==> RefNodes(a, i) == RefNodes(b, i)
  {
    OneChild(b, i);
  }

  lemma {:induction false} OneChild(t: Tree, i: nat)
    ensures RefNodesAll([t], i) == RefNodes(t, i)
  {
    hide RefNodes;
    assert [t][1..] == [];
  }

  lemma {:induction false} CoreRefs(x: Context, c: Core, name: Option<string>, i: nat)
    requires CoreOk(c, Defined(x.types))
    ensures RefNodes(BuildCore(x, c, name), i) == Occurrences(x.find, RefsIn(c), i)
    decreases c, 0
  {
    hide Build, RefsOf, BuildAll, RefsInAll, WellFormed, FieldsOk, Unconditional;
    match c
    case Reference(n) => assert [n][..0] == [];
    case ChoiceOf(fields) => FieldRefs(x, fields, true, i); RefNodesOfFlags(BuildAll(x, fields, true), i);
    case SequenceWith(fields) => FieldRefs(x, fields, false, i); RefNodesOfFlags(BuildAll(x, fields, false), i);
    case SetWith(fields) => FieldRefs(x, fields, true, i); RefNodesOfFlags(BuildAll(x, fields, true), i);
    case SequenceOf(item) => RefsAreNodes(x, item, None, i);
    case SetOf(item) => RefsAreNodes(x, item, None, i);
    case _ =>
  }

  lemma {:induction false} FieldRefs(x: Context, fields: seq<Field>, alternates: bool, i: nat)
    requires FieldsOk(fields, Defined(x.types))
    ensures RefNodesAll(BuildAll(x, fields, alternates), i) == Occurrences(x.find, RefsInAll(fields), i)
    decreases fields, 0
  {
    var f, rest := fields[0], fields[1..];
    OneFieldRefs(x, f, alternates, i);
    hide RefsOfField, BuildField;
    OccurrencesConcat(x.find, RefsOfField(f), RefsInAll(rest), i);
    if |fields| > 1 {
      FieldRefs(x, rest, alternates, i);
    }
  }

  lemma {:induction false} OneFieldRefs(x: Context, f: Field, alternates: bool, i: nat)
    requires FieldOk(f, Defined(x.types))
    ensures RefNodes(BuildField(x, f, alternates), i) == Occurrences(x.find, RefsOfField(f), i)
    decreases f, 0
  {
    RefsAreNodes(x, f.content, f.name, i);
    hide Build, RefsOf;
  }

  lemma {:induction false} RefNodesSnoc(ts: seq<Tree>, t: Tree, i: nat)
    ensures RefNodesAll(ts + [t], i) == RefNodesAll(ts, i) + RefNodes(t, i)
  {
    if ts == [] {
      assert [t][1..] == [];
      assert ts + [t] == [t];
    } else {
      assert (ts + [t])[1..] == ts[1..] + [t];
      RefNodesSnoc(ts[1..], t, i);
    }
  }

  /** The reference count of a type is the number of reference elements that point to it,
      over all trees. */
  lemma {:induction false} RefCountsAreExact(x: Context, defs: seq<Type>, i: nat)
    requires forall k :: 0 <= k < |defs| ==> WellFormed(defs[k], Defined(x.types))
    requires i < |x.types|
    ensures Meaning(x, defs).refCounts[i] == RefNodesAll(Meaning(x, defs).trees, i)
  {
    CountedMeans(x.find, Zeros(|x.types|), AllRefs(defs), i);
    TreesRefs(x, defs, i);
  }

  lemma {:induction false} TreesRefs(x: Context, defs: seq<Type>, i: nat)
    requires forall k :: 0 <= k < |defs| ==> WellFormed(defs[k], Defined(x.types))
    requires i < |x.types|
    ensures RefNodesAll(BuildDefs(x, defs), i) == Occurrences(x.find, AllRefs(defs), i)
  {
    hide WellFormed, Build, RefsOf;
    if defs != [] {
      var before, last := defs[..|defs| - 1], defs[|defs| - 1];
      TreesRefs(x, before, i);
      RefsAreNodes(x, last, None, i);
      RefNodesSnoc(BuildDefs(x, before), Build(x, last, None), i);
      OccurrencesConcat(x.find, AllRefs(before), RefsOf(last), i);
    }
  }

  // ----- the grammar for the renderer ---------------------------------------------------

  /** The tree as an element of a grammar, with addresses from `id` on and actions by
      number, and the first address left. */
  function Lower(t: Tree, id: nat, def: Option<nat>, actions: seq<string>): (r: (Element, nat))
    ensures r.1 > id && r.0.id == id
    decreases t, 1
  {
    var (compound, next) := LowerBody(t.body, id + 1, actions);
    (Element(id, t.cls, t.cons, t.tag, t.skippable, t.conditional,
             if t.action.Some? then Some(ActionIndex(actions, t.action.value)) else None, def, compound), next)
  }

  function LowerBody(b: Body, id: nat, actions: seq<string>): (r: (Compound, nat))
    ensures r.1 >= id
    decreases b, 0
  {
    match b
    case Leaf => (NotCompound, id)
    case Whatever => (Any, id)
    case RefTo(target) => (TypeRef(target), id)
    case OneOf(children) => var (es, next) := LowerAll(children, id, actions); (Choice(es), next)
    case AllOf(children) => var (es, next) := LowerAll(children, id, actions); (Sequence(es), next)
    case AnySome(children) => var (es, next) := LowerAll(children, id, actions); (Compound.Set(es), next)
    case ManyOf(child) => var (e, next) := Lower(child, id, None, actions); (Compound.SequenceOf(e), next)
    case SetFrom(child) => var (e, next) := Lower(child, id, None, actions); (Compound.SetOf(e), next)
    case Override(child) => var (e, next) := Lower(child, id, None, actions); (TagOverride(e), next)
  }

  function LowerAll(ts: seq<Tree>, id: nat, actions: seq<string>): (r: (seq<Element>, nat))
    ensures r.1 >= id && |r.0| == |ts|
    decreases ts, 0
  {
    if ts == [] then ([], id)
    else
      var (e, mid) := Lower(ts[0], id, None, actions);
      var (es, next) := LowerAll(ts[1..], mid, actions);
      ([e] + es, next)
  }

  /** The definitions from number `i` on. */
  function LowerDefs(ts: seq<Tree>, i: nat, id: nat, actions: seq<string>): (r: seq<Element>)
    ensures |r| == |ts|
    decreases ts
  {
    if ts == [] then []
    else
      var (e, next) := Lower(ts[0], id, Some(i), actions);
      [e] + LowerDefs(ts[1..], i + 1, next, actions)
  }

  function ToGrammar(p: Parsed): Grammar {
    Grammar(LowerDefs(p.trees, 0, 0, p.actions), p.refCounts)
  }

  /** The element of a tagged tree in the machine: behind a tag that is not IMPLICIT the octet of the
      tag with the CONS bit opens a constructed element; an IMPLICIT one stands in for the octet
      of the type behind it, with the CONS bit only if that is constructed. */
  lemma {:induction false} TagsAreMatched(t: Tree, tag: (nat, bool), id: nat, def: Option<nat>, actions: seq<string>,
                                          g: Grammar, fuel: nat)
    requires Carries(t, tag)
    ensures var e := Lower(t, id, def, actions).0;
            var c := Code.Render(g, e, None, fuel);
            if !tag.1 then (c.Block? || c.Call?) && c.optag == tag.0 + 0x20
            else e.compound.TagOverride? &&
                 var inner := e.compound.inner;
                 match inner.compound
                 case NotCompound => c.MatchPrim? && c.optag == tag.0 + (if inner.cons then 0x20 else 0)
                 case Sequence(_) => (c.Block? || c.Call?) && (inner.cons ==> c.optag == tag.0 + 0x20)
                 case SequenceOf(_) => (c.Block? || c.Call?) && (inner.cons ==> c.optag == tag.0 + 0x20)
                 case SetOf(_) => (c.Block? || c.Call?) && (inner.cons ==> c.optag == tag.0 + 0x20)
                 case _ => true
  {
  }

  /** Number of reference elements of `e` that point to type `i`. */
  function RefElements(e: Element, i: nat): nat
    decreases e, 1
  {
    match e.compound
    case TypeRef(target) => if target == i then 1 else 0
    case Choice(es) => RefElementsAll(es, i)
    case Sequence(es) => RefElementsAll(es, i)
    case Set(es) => RefElementsAll(es, i)
    case SequenceOf(item) => RefElements(item, i)
    case SetOf(item) => RefElements(item, i)
    case TagOverride(inner) => RefElements(inner, i)
    case _ => 0
  }

  function RefElementsAll(es: seq<Element>, i: nat): nat
    decreases es, 0
  {
    if es == [] then 0 else RefElements(es[0], i) + RefElementsAll(es[1..], i)
  }

  lemma {:induction false} LowerKeepsRefs(t: Tree, id: nat, def: Option<nat>, actions: seq<string>, i: nat)
    ensures RefElements(Lower(t, id, def, actions).0, i) == RefNodes(t, i)
    decreases t, 1
  {
    BodyKeepsRefs(t.body, id + 1, actions, i);
    hide ActionIndex, LowerBody, RefElementsAll, RefNodesAll;
  }

  function RefsUnder(c: Compound, i: nat): nat {
    match c
    case TypeRef(target) => if target == i then 1 else 0
    case Choice(es) => RefElementsAll(es, i)
    case Sequence(es) => RefElementsAll(es, i)
    case Set(es) => RefElementsAll(es, i)
    case SequenceOf(item) => RefElements(item, i)
    case SetOf(item) => RefElements(item, i)
    case TagOverride(inner) => RefElements(inner, i)
    case _ => 0
  }

  function NodesUnder(b: Body, i: nat): nat {
    match b
    case RefTo(target) => if target == i then 1 else 0
    case OneOf(children) => RefNodesAll(children, i)
    case AllOf(children) => RefNodesAll(children, i)
    case AnySome(children) => RefNodesAll(children, i)
    case ManyOf(child) => RefNodes(child, i)
    case SetFrom(child) => RefNodes(child, i)
    case Override(child) => RefNodes(child, i)
    case _ => 0
  }

  lemma {:induction false} BodyKeepsRefs(b: Body, id: nat, actions: seq<string>, i: nat)
    ensures RefsUnder(LowerBody(b, id, actions).0, i) == NodesUnder(b, i)
    decreases b, 0
  {
    hide Lower, LowerAll, RefElements, RefElementsAll, RefNodes, RefNodesAll;
    match b
    case OneOf(children) => AllKeepRefs(children, id, actions, i);
    case AllOf(children) => AllKeepRefs(children, id, actions, i);
    case AnySome(children) => AllKeepRefs(children, id, actions, i);
    case ManyOf(child) => LowerKeepsRefs(child, id, None, actions, i);
    case SetFrom(child) => LowerKeepsRefs(child, id, None, actions, i);
    case Override(child) => LowerKeepsRefs(child, id, None, actions, i);
    case _ =>
  }

  lemma {:induction false} AllKeepRefs(ts: seq<Tree>, id: nat, actions: seq<string>, i: nat)
    ensures RefElementsAll(LowerAll(ts, id, actions).0, i) == RefNodesAll(ts, i)
    decreases ts, 0
  {
    hide Lower, RefElements, RefNodes;
    if ts != [] {
      var (e, mid) := Lower(ts[0], id, None, actions);
      LowerKeepsRefs(ts[0], id, None, actions, i);
      AllKeepRefs(ts[1..], mid, actions, i);
      var es := LowerAll(ts[1..], mid, actions).0;
      assert ([e] + es)[1..] == es;
    }
  }

  lemma {:induction false} DefsKeepRefs(ts: seq<Tree>, n: nat, id: nat, actions: seq<string>, i: nat)
    ensures RefElementsAll(LowerDefs(ts, n, id, actions), i) == RefNodesAll(ts, i)
    decreases ts
  {
    hide Lower, RefElements, RefNodes;
    if ts != [] {
      var (e, mid) := Lower(ts[0], id, Some(n), actions);
      LowerKeepsRefs(ts[0], id, Some(n), actions, i);
      DefsKeepRefs(ts[1..], n + 1, mid, actions, i);
      var es := LowerDefs(ts[1..], n + 1, mid, actions);
      assert ([e] + es)[1..] == es;
    }
  }

  /** The count the renderer finds for a type is the number of references to it in the
      grammar it is given. */
  lemma {:induction false} CountsAreReferences(x: Context, defs: seq<Type>, i: nat)
    requires forall k :: 0 <= k < |defs| ==> WellFormed(defs[k], Defined(x.types))
    requires i < |x.types|
    ensures var g := ToGrammar(Meaning(x, defs)); g.refCounts[i] == RefElementsAll(g.types, i)
  {
    hide WellFormed, RefNodesAll, RefElementsAll, LowerDefs, WithActions, BuildDefs;
    RefCountsAreExact(x, defs, i);
    DefsKeepRefs(Meaning(x, defs).trees, 0, 0, Meaning(x, defs).actions, i);
  }

  // ----- what the parser guarantees the renderer ----------------------------------------

  /** No EXTERNAL, no SET, tag numbers below 31. */
  predicate Plain(x: Context, t: Type)
    decreases t, 1
  {
    && (t.tagging.Some? ==> t.tagging.value.number % 256 < 31)
    && x.tags(MarkerToken(t.marker, t.core)) < 31 && x.tags(CoreToken(t.core)) < 31
    && PlainCore(x, t.core)
  }

  predicate PlainCore(x: Context, c: Core)
    decreases c, 0
  {
    match c
    case Single(t) => !t.ExternalWord?
    case Double(_) => true
    case Reference(_) => true
    case ChoiceOf(fields) => AllPlain(x, fields)
    case SequenceWith(fields) => AllPlain(x, fields)
    case SetWith(_) => false
    case SequenceOf(item) => Plain(x, item)
    case SetOf(item) => Plain(x, item)
  }

  predicate PlainField(x: Context, f: Field)
    decreases f, 0
  {
    Plain(x, f.content)
  }

  predicate AllPlain(x: Context, fields: seq<Field>)
    decreases fields, 0
  {
    fields == [] || (PlainField(x, fields[0]) && AllPlain(x, fields[1..]))
  }

  /** A tree with the flags and methods the renderer counts on. */
  predicate GoodTree(t: Tree, actions: seq<string>)
    decreases t, 1
  {
    && t.cls < 4 && t.tag < 31 && (t.conditional ==> t.skippable)
    && (t.action.Some? ==> t.action.value in actions)
    && match t.body
       case Leaf => !t.cons
       case Whatever => true
       case RefTo(_) => true
       case OneOf(children) => GoodTrees(children, actions)
       case AllOf(children) => t.cons && GoodTrees(children, actions)
       case AnySome(_) => false
       case ManyOf(child) => t.cons && GoodTree(child, actions)
       case SetFrom(child) => t.cons && GoodTree(child, actions)
       case Override(child) => !t.cons && GoodTree(child, actions)
  }

  predicate GoodTrees(ts: seq<Tree>, actions: seq<string>)
    decreases ts, 0
  {
    ts == [] || (GoodTree(ts[0], actions) && GoodTrees(ts[1..], actions))
  }

  lemma {:induction false} ActionIsNumbered(action: Option<string>, actions: seq<string>)
    requires action.Some? ==> action.value in actions
    ensures action.Some? ==> ActionIndex(actions, action.value) < |actions|
  {
  }

  lemma {:induction false} GoodIsOk(t: Tree, id: nat, def: Option<nat>, actions: seq<string>)
    requires GoodTree(t, actions)
    ensures ElementOk(Lower(t, id, def, actions).0, |actions|)
    decreases t, 2
  {
    ActionIsNumbered(t.action, actions);
    GoodBodyIsOk(t, id + 1, actions);
    OkByParts(Lower(t, id, def, actions).0, |actions|);
    hide ActionIndex, LowerBody, GoodTrees, ElementOk, CompoundOk;
  }

  /** The part of `ElementOk` that speaks of the children. */
  predicate CompoundOk(c: Compound, cons: bool, nrActions: nat) {
    match c
    case NotCompound => !cons
    case Choice(es) => AllOk(es, nrActions)
    case Sequence(es) => cons && AllOk(es, nrActions)
    case SequenceOf(item) => cons && ElementOk(item, nrActions)
    case SetOf(item) => cons && ElementOk(item, nrActions)
    case Set(_) => false
    case TagOverride(inner) => !cons && ElementOk(inner, nrActions)
    case _ => true
  }

  lemma {:induction false} OkByParts(e: Element, nrActions: nat)
    ensures TagOk(e) && Layout.ActionOk(e.action, nrActions) && CompoundOk(e.compound, e.cons, nrActions)
            ==> ElementOk(e, nrActions)
  {
  }

  lemma {:induction false} GoodBodyIsOk(t: Tree, id: nat, actions: seq<string>)
    requires GoodTree(t, actions)
    ensures CompoundOk(LowerBody(t.body, id, actions).0, t.cons, |actions|)
    decreases t, 1
  {
    hide ElementOk, AllOk, Lower, LowerAll;
    match t.body
    case OneOf(children) => AllGoodAreOk(children, id, actions);
    case AllOf(children) => AllGoodAreOk(children, id, actions);
    case ManyOf(child) => GoodIsOk(child, id, None, actions);
    case SetFrom(child) => GoodIsOk(child, id, None, actions);
    case Override(child) => GoodIsOk(child, id, None, actions);
    case _ =>
  }

  lemma {:induction false} AllGoodAreOk(ts: seq<Tree>, id: nat, actions: seq<string>)
    requires GoodTrees(ts, actions)
    ensures AllOk(LowerAll(ts, id, actions).0, |actions|)
    decreases ts, 0
  {
    if ts != [] {
      GoodIsOk(ts[0], id, None, actions);
      AllGoodAreOk(ts[1..], Lower(ts[0], id, None, actions).1, actions);
      hide Lower, ElementOk;
    }
  }

  lemma {:induction false} UnconditionalIsGood(ts: seq<Tree>, actions: seq<string>)
    requires GoodTrees(ts, actions)
    ensures GoodTrees(Unconditional(ts), actions)
  {
    if ts != [] {
      assert Unconditional(ts)[1..] == ts[1..];
    }
  }

  /** All the names are in the action list. */
  ghost predicate Listed(names: seq<string>, actions: seq<string>) {
    forall a :: a in names ==> a in actions
  }

  /** The parser builds good trees from plain types. */
  lemma {:induction false} BuiltIsGood(x: Context, t: Type, name: Option<string>, actions: seq<string>)
    requires Plain(x, t) && WellFormed(t, Defined(x.types)) && Listed(ActionsOf(t), actions)
    ensures GoodTree(Build(x, t, name), actions)
    decreases t, 1
  {
    CoreIsGood(x, t.core, name, actions);
    ActionIsListed(t, actions);
    hide BuildCore, Listed, PlainCore, CoreOk, CanFollowCore, PrintSuffix, GoodTrees;
    var inner := BuildCore(x, t.core, name).(action := t.action);
    SameGoodness(inner, BuildCore(x, t.core, name), actions);
    if t.tagging.Some? {
      OneGood(inner, actions);
    } else {
      SameGoodness(Build(x, t, name), inner, actions);
    }
  }

  lemma {:induction false} ActionIsListed(t: Type, actions: seq<string>)
    requires Listed(ActionsOf(t), actions)
    ensures t.action.Some? ==> t.action.value in actions
  {
    if t.action.Some? {
      assert ActionsOf(t)[|ActionsIn(t.core)|] == t.action.value;
    }
  }

  lemma {:induction false} OneGood(t: Tree, actions: seq<string>)
    requires GoodTree(t, actions)
    ensures GoodTrees([t], actions)
  {
    hide GoodTree;
    assert [t][1..] == [];
  }

  lemma {:induction false} SameGoodness(a: Tree, b: Tree, actions: seq<string>)
    requires GoodTree(b, actions) && a.body == b.body && a.cons == b.cons
    requires a.cls < 4 && a.tag < 31 && (a.conditional ==> a.skippable) && (a.action.Some? ==> a.action.value in actions)
    ensures GoodTree(a, actions)
  {
  }

  lemma {:induction false} CoreIsGood(x: Context, c: Core, name: Option<string>, actions: seq<string>)
    requires PlainCore(x, c) && CoreOk(c, Defined(x.types)) && Listed(ActionsIn(c), actions) && x.tags(CoreToken(c)) < 31
    ensures GoodTree(BuildCore(x, c, name), actions)
    decreases c, 0
  {
    hide Build, BuildAll, Unconditional, Listed, ActionsOf, ActionsInAll, Plain, AllPlain, WellFormed, FieldsOk;
    match c
    case ChoiceOf(fields) =>
      FieldsAreGood(x, fields, true, actions);
      UnconditionalIsGood(BuildAll(x, fields, true), actions);
    case SequenceWith(fields) =>
      FieldsAreGood(x, fields, false, actions);
      UnconditionalIsGood(BuildAll(x, fields, false), actions);
    case SequenceOf(item) => BuiltIsGood(x, item, None, actions);
    case SetOf(item) => BuiltIsGood(x, item, None, actions);
    case _ =>
  }

  lemma {:induction false} FieldsAreGood(x: Context, fields: seq<Field>, alternates: bool, actions: seq<string>)
    requires AllPlain(x, fields) && FieldsOk(fields, Defined(x.types)) && Listed(ActionsInAll(fields), actions)
    ensures GoodTrees(BuildAll(x, fields, alternates), actions)
    decreases fields, 0
  {
    ListedParts(ActionsOfField(fields[0]), ActionsInAll(fields[1..]), actions);
    hide Listed;
    FieldIsGood(x, fields[0], alternates, actions);
    if |fields| > 1 {
      FieldsAreGood(x, fields[1..], alternates, actions);
    }
    hide BuildField;
  }

  lemma {:induction false} ListedParts(a: seq<string>, b: seq<string>, actions: seq<string>)
    requires Listed(a + b, actions)
    ensures Listed(a, actions) && Listed(b, actions)
  {
  }

  lemma {:induction false} FieldIsGood(x: Context, f: Field, alternative: bool, actions: seq<string>)
    requires PlainField(x, f) && FieldOk(f, Defined(x.types)) && Listed(ActionsOfField(f), actions)
    ensures GoodTree(BuildField(x, f, alternative), actions)
    decreases f, 0
  {
    BuiltIsGood(x, f.content, f.name, actions);
    hide Build, Listed, ActionsOf;
    SameGoodness(BuildField(x, f, alternative), Build(x, f.content, f.name), actions);
  }

  /** A CHOICE is parsed into alternatives that are all skippable and, but for the first,
      conditional. */
  lemma {:induction false} ChoiceFlags(x: Context, fields: seq<Field>, k: nat)
    requires k < |fields|
    ensures var children := BuildFields(x, fields, true);
            |children| == |fields| && children[k].skippable && children[k].conditional == (k > 0)
  {
    FieldFlags(x, fields, k);
  }

  lemma {:induction false} FieldFlags(x: Context, fields: seq<Field>, k: nat)
    requires k < |fields|
    ensures var children := BuildAll(x, fields, true); children[k].skippable && children[k].conditional
  {
    hide Build;
    if k > 0 {
      FieldFlags(x, fields[1..], k - 1);
    }
  }

  lemma {:induction false} DefsAreOk(ts: seq<Tree>, i: nat, id: nat, actions: seq<string>)
    requires GoodTrees(ts, actions)
    ensures AllOk(LowerDefs(ts, i, id, actions), |actions|)
    decreases ts
  {
    if ts != [] {
      GoodIsOk(ts[0], id, Some(i), actions);
      DefsAreOk(ts[1..], i + 1, Lower(ts[0], id, Some(i), actions).1, actions);
      hide Lower, ElementOk;
    }
  }

  /** Token lists tiled by plain definitions parse to grammars the renderer supports. */
  lemma {:induction false} ParsedIsOk(x: Context, defs: seq<Type>)
    requires forall k :: 0 <= k < |defs| ==> Plain(x, defs[k]) && WellFormed(defs[k], Defined(x.types))
    ensures var p := Meaning(x, defs); AllOk(ToGrammar(p).types, |p.actions|)
  {
    ActionList(AllActions(defs));
    hide WithActions, Ascending, Plain, WellFormed, LowerDefs;
    var actions := Meaning(x, defs).actions;
    TreesAreGood(x, defs, actions);
    DefsAreOk(BuildDefs(x, defs), 0, 0, actions);
  }

  lemma {:induction false} TreesAreGood(x: Context, defs: seq<Type>, actions: seq<string>)
    requires forall k :: 0 <= k < |defs| ==> Plain(x, defs[k]) && WellFormed(defs[k], Defined(x.types))
    requires Listed(AllActions(defs), actions)
    ensures GoodTrees(BuildDefs(x, defs), actions)
  {
    hide Plain, WellFormed, Build, ActionsOf;
    if defs != [] {
      var before, last := defs[..|defs| - 1], defs[|defs| - 1];
      ListedParts(AllActions(before), ActionsOf(last), actions);
      hide Listed;
      TreesAreGood(x, before, actions);
      BuiltIsGood(x, last, None, actions);
      GoodSnoc(BuildDefs(x, before), Build(x, last, None), actions);
    }
  }

  lemma {:induction false} GoodSnoc(ts: seq<Tree>, t: Tree, actions: seq<string>)
    requires GoodTrees(ts, actions) && GoodTree(t, actions)
    ensures GoodTrees(ts + [t], actions)
  {
    hide GoodTree;
    if ts == [] {
      assert ts + [t] == [t] && [t][1..] == [];
    } else {
      assert (ts + [t])[1..] == ts[1..] + [t];
      GoodSnoc(ts[1..], t, actions);
    }
  }
}
