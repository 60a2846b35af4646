/** From the notation to termination: when no definition and nothing that is repeated is marked
    OPTIONAL or DEFAULT, the compiled machine stops on every input. */
module Firm {
  import opened Grammar
  import opened Syntax
  import opened Parser
  import opened Definitions
  import opened FrontEnd
  import opened TerminatingGrammars

  // ----- the condition on the notation --------------------------------------------------

  /** Whatever SEQUENCE OF or SET OF repeats in `t` has to be there. */
  predicate ItemsRequired(t: Type)
    decreases t, 1
  {
    ItemsRequiredIn(t.core)
  }

  predicate ItemsRequiredIn(c: Core)
    decreases c, 0
  {
    match c
    case ChoiceOf(fields) => ItemsRequiredInAll(fields)
    case SequenceWith(fields) => ItemsRequiredInAll(fields)
    case SetWith(fields) => ItemsRequiredInAll(fields)
    case SequenceOf(item) => item.presence == Required && ItemsRequired(item)
    case SetOf(item) => item.presence == Required && ItemsRequired(item)
    case _ => true
  }

  predicate ItemsRequiredInField(f: Field)
    decreases f, 0
  {
    ItemsRequired(f.content)
  }

  predicate ItemsRequiredInAll(fields: seq<Field>)
    decreases fields, 0
  {
    fields == [] || (ItemsRequiredInField(fields[0]) && ItemsRequiredInAll(fields[1..]))
  }

  // ----- trees --------------------------------------------------------------------------

  /** What is tried first in `t` is tried whatever has matched. */
  predicate LeadingTree(t: Tree) {
    !t.conditional &&
    match t.body
    case OneOf(children) => children != [] && LeadingTree(children[0])
    case Override(child) => LeadingTree(child)
    case _ => true
  }

  predicate FirmTree(t: Tree) {
    !t.skippable && !t.conditional &&
    match t.body
    case OneOf(children) => children != [] && LeadingTree(children[0])
    case Override(child) => FirmTree(child)
    case _ => true
  }

  /** Everything repeated in `t` is firm. */
  predicate SteadyTree(t: Tree)
    decreases t, 1
  {
    match t.body
    case OneOf(children) => SteadyTrees(children)
    case AllOf(children) => SteadyTrees(children)
    case AnySome(children) => SteadyTrees(children)
    case ManyOf(child) => FirmTree(child) && SteadyTree(child)
    case SetFrom(child) => FirmTree(child) && SteadyTree(child)
    case Override(child) => SteadyTree(child)
    case _ => true
  }

  predicate SteadyTrees(ts: seq<Tree>)
    decreases ts, 0
  {
    ts == [] || (SteadyTree(ts[0]) && SteadyTrees(ts[1..]))
  }

  lemma {:induction false} FirmLeads(t: Tree)
    requires FirmTree(t)
    ensures LeadingTree(t)
  {
    match t.body
    case Override(child) => FirmLeads(child);
    case _ =>
  }

  /** The tree of a type is leading, and firm unless it is marked. */
  lemma {:induction false} BuiltLeads(x: Context, t: Type, name: Option<string>, types: set<string>)
    requires WellFormed(t, types)
    ensures LeadingTree(Build(x, t, name)) && (t.presence == Required ==> FirmTree(Build(x, t, name)))
    decreases t, 1
  {
    CoreLeads(x, t.core, name, types);
    hide BuildCore;
    var inner := BuildCore(x, t.core, name).(action := t.action);
    SameFirm(BuildCore(x, t.core, name), inner);
    FirmLeads(inner);
    SameFirm(inner, Build(x, t, name));
  }

  /** Actions and the tag do not matter, and an optional tree still leads. */
  lemma {:induction false} SameFirm(a: Tree, b: Tree)
    requires FirmTree(a) && !b.conditional
    ensures a.body == b.body ==> LeadingTree(b) && (!b.skippable ==> FirmTree(b))
  {
    FirmLeads(a);
  }

  lemma {:induction false} CoreLeads(x: Context, c: Core, name: Option<string>, types: set<string>)
    requires CoreOk(c, types)
    ensures FirmTree(BuildCore(x, c, name))
    decreases c, 0
  {
    match c
    case ChoiceOf(fields) =>
      FirstLeads(x, fields[0], types);
      hide Build;
      assert BuildAll(x, fields, true)[0] == BuildField(x, fields[0], true);
    case _ =>
  }

  lemma {:induction false} FirstLeads(x: Context, f: Field, types: set<string>)
    requires FieldOk(f, types)
    ensures LeadingTree(BuildField(x, f, true).(conditional := false))
    decreases f, 0
  {
    BuiltLeads(x, f.content, f.name, types);
    hide Build;
    var t := Build(x, f.content, f.name);
    AlternativeLeads(t);
  }

  lemma {:induction false} AlternativeLeads(t: Tree)
    requires LeadingTree(t)
    ensures LeadingTree(t.(skippable := true, conditional := false))
  {
  }

  /** Where only mandatory items are repeated, the tree is steady. */
  lemma {:induction false} BuiltSteady(x: Context, t: Type, name: Option<string>, types: set<string>)
    requires WellFormed(t, types) && ItemsRequired(t)
    ensures SteadyTree(Build(x, t, name))
    decreases t, 1
  {
    CoreSteady(x, t.core, name, types);
    var inner := BuildCore(x, t.core, name).(action := t.action);
    hide BuildCore;
    SameSteady(BuildCore(x, t.core, name), inner);
    if t.tagging.Some? {
      OneSteady(inner);
    } else {
      SameSteady(inner, Build(x, t, name));
    }
  }

  lemma {:induction false} SameSteady(a: Tree, b: Tree)
    requires SteadyTree(a) && a.body == b.body
    ensures SteadyTree(b)
  {
  }

  lemma {:induction false} OneSteady(t: Tree)
    requires SteadyTree(t)
    ensures SteadyTrees([t])
  {
    hide SteadyTree;
    assert [t][1..] == [];
  }

  lemma {:induction false} CoreSteady(x: Context, c: Core, name: Option<string>, types: set<string>)
    requires CoreOk(c, types) && ItemsRequiredIn(c)
    ensures SteadyTree(BuildCore(x, c, name))
    decreases c, 0
  {
    hide Build, BuildAll, Unconditional, WellFormed, FieldsOk, ItemsRequired, ItemsRequiredInAll, FirmTree;
    match c
    case ChoiceOf(fields) => AllSteady(x, fields, true, types); UnconditionalSteady(BuildAll(x, fields, true));
    case SequenceWith(fields) => AllSteady(x, fields, false, types); UnconditionalSteady(BuildAll(x, fields, false));
    case SetWith(fields) => AllSteady(x, fields, true, types); UnconditionalSteady(BuildAll(x, fields, true));
    case SequenceOf(item) => BuiltSteady(x, item, None, types); BuiltLeads(x, item, None, types);
    case SetOf(item) => BuiltSteady(x, item, None, types); BuiltLeads(x, item, None, types);
    case _ =>
  }

  lemma {:induction false} UnconditionalSteady(ts: seq<Tree>)
    requires SteadyTrees(ts)
    ensures SteadyTrees(Unconditional(ts))
  {
    if ts != [] {
      SameSteady(ts[0], ts[0].(conditional := false));
      assert Unconditional(ts)[1..] == ts[1..];
      hide SteadyTree;
    }
  }

  lemma {:induction false} AllSteady(x: Context, fields: seq<Field>, alternates: bool, types: set<string>)
    requires FieldsOk(fields, types) && ItemsRequiredInAll(fields)
    ensures SteadyTrees(BuildAll(x, fields, alternates))
    decreases fields, 0
  {
    hide SteadyTree;
    FieldSteady(x, fields[0], alternates, types);
    if |fields| > 1 {
      AllSteady(x, fields[1..], alternates, types);
    }
    hide BuildField;
  }

  lemma {:induction false} FieldSteady(x: Context, f: Field, alternative: bool, types: set<string>)
    requires FieldOk(f, types) && ItemsRequiredInField(f)
    ensures SteadyTree(BuildField(x, f, alternative))
    decreases f, 0
  {
    BuiltSteady(x, f.content, f.name, types);
    hide Build;
    SameSteady(Build(x, f.content, f.name), BuildField(x, f, alternative));
  }

  // ----- elements -----------------------------------------------------------------------

  predicate LeadsOn(e: Element) {
    !e.conditional &&
    match e.compound
    case Choice(es) => es != [] && LeadsOn(es[0])
    case TagOverride(inner) => LeadsOn(inner)
    case _ => true
  }

  predicate FirmElement(e: Element) {
    !e.skippable && !e.conditional &&
    match e.compound
    case Choice(es) => es != [] && LeadsOn(es[0])
    case TagOverride(inner) => FirmElement(inner)
    case _ => true
  }

  lemma {:induction false} LoweredLeads(t: Tree, id: nat, def: Option<nat>, actions: seq<string>)
    requires LeadingTree(t)
    ensures LeadsOn(Lower(t, id, def, actions).0)
    decreases t
  {
    hide ActionIndex;
    match t.body
    case OneOf(children) =>
      LoweredLeads(children[0], id + 1, None, actions);
      FirstLowered(children, id + 1, actions);
      hide LowerAll;
    case Override(child) => LoweredLeads(child, id + 1, None, actions);
    case _ =>
  }

  lemma {:induction false} FirstLowered(ts: seq<Tree>, id: nat, actions: seq<string>)
    requires ts != []
    ensures LowerAll(ts, id, actions).0 != [] && LowerAll(ts, id, actions).0[0] == Lower(ts[0], id, None, actions).0
  {
    hide Lower;
  }

  lemma {:induction false} LoweredFirm(t: Tree, id: nat, def: Option<nat>, actions: seq<string>)
    requires FirmTree(t)
    ensures FirmElement(Lower(t, id, def, actions).0)
    decreases t
  {
    hide ActionIndex;
    match t.body
    case OneOf(children) =>
      LoweredLeads(children[0], id + 1, None, actions);
      FirstLowered(children, id + 1, actions);
      hide LowerAll;
    case Override(child) => LoweredFirm(child, id + 1, None, actions);
    case _ =>
  }

  predicate TypesFirm(types: seq<Element>) {
    forall t :: 0 <= t < |types| ==> FirmElement(types[t])
  }

  lemma {:induction false} FirmElementLeads(e: Element)
    requires FirmElement(e)
    ensures LeadsOn(e)
  {
    match e.compound
    case TagOverride(inner) => FirmElementLeads(inner);
    case _ =>
  }

  lemma {:induction false} LeadsThrough(g: Grammar, e: Element, fuel: nat)
    requires TypesFirm(g.types) && LeadsOn(e)
    ensures Leads(g, e, fuel)
    decreases fuel, e
  {
    match e.compound
    case TagOverride(inner) => LeadsThrough(g, inner, fuel);
    case TypeRef(t) =>
      if fuel > 0 && t < |g.types| {
        FirmElementLeads(g.types[t]);
        LeadsThrough(g, g.types[t], fuel - 1);
      }
    case Choice(es) => LeadsThrough(g, es[0], fuel);
    case _ =>
  }

  lemma {:induction false} FirmIsMandatory(g: Grammar, e: Element, fuel: nat)
    requires TypesFirm(g.types) && FirmElement(e)
    ensures Mandatory(g, e, fuel)
    decreases fuel, e
  {
    match e.compound
    case TagOverride(inner) => FirmIsMandatory(g, inner, fuel);
    case TypeRef(t) =>
      if fuel > 0 && t < |g.types| {
        FirmIsMandatory(g, g.types[t], fuel - 1);
      }
    case Choice(es) => LeadsThrough(g, es[0], fuel);
    case _ =>
  }

  /** `RepeatsOk` of what lies under an element. */
  predicate UnderOk(g: Grammar, c: Compound, fuel: nat) {
    match c
    case Choice(es) => AllRepeatsOk(g, es, fuel)
    case Sequence(es) => AllRepeatsOk(g, es, fuel)
    case SequenceOf(item) => Mandatory(g, item, fuel) && RepeatsOk(g, item, fuel)
    case SetOf(item) => Mandatory(g, item, fuel) && RepeatsOk(g, item, fuel)
    case Set(es) => AllRepeatsOk(g, es, fuel)
    case TagOverride(inner) => RepeatsOk(g, inner, fuel)
    case _ => true
  }

  lemma {:induction false} RepeatsByParts(g: Grammar, e: Element, fuel: nat)
    requires UnderOk(g, e.compound, fuel)
    ensures RepeatsOk(g, e, fuel)
  {
    hide Mandatory, AllRepeatsOk;
  }

  lemma {:induction false} LoweredSteady(g: Grammar, t: Tree, id: nat, def: Option<nat>, actions: seq<string>, fuel: nat)
    requires TypesFirm(g.types) && SteadyTree(t)
    ensures RepeatsOk(g, Lower(t, id, def, actions).0, fuel)
    decreases t, 1
  {
    BodySteady(g, t, id + 1, actions, fuel);
    RepeatsByParts(g, Lower(t, id, def, actions).0, fuel);
    hide UnderOk, RepeatsOk, ActionIndex, LowerBody;
  }

  lemma {:induction false} BodySteady(g: Grammar, t: Tree, id: nat, actions: seq<string>, fuel: nat)
    requires TypesFirm(g.types) && SteadyTree(t)
    ensures UnderOk(g, LowerBody(t.body, id, actions).0, fuel)
    decreases t, 0
  {
    hide TypesFirm, Lower, LowerAll, RepeatsOk, AllRepeatsOk, Mandatory, FirmTree, FirmElement;
    match t.body
    case OneOf(children) => AllLoweredSteady(g, children, id, actions, fuel);
    case AllOf(children) => AllLoweredSteady(g, children, id, actions, fuel);
    case AnySome(children) => AllLoweredSteady(g, children, id, actions, fuel);
    case ManyOf(child) => ItemSteady(g, child, id, actions, fuel);
    case SetFrom(child) => ItemSteady(g, child, id, actions, fuel);
    case Override(child) => LoweredSteady(g, child, id, None, actions, fuel);
    case _ =>
  }

  lemma {:induction false} ItemSteady(g: Grammar, child: Tree, id: nat, actions: seq<string>, fuel: nat)
    requires TypesFirm(g.types) && SteadyTree(child) && FirmTree(child)
    ensures var e := Lower(child, id, None, actions).0; Mandatory(g, e, fuel) && RepeatsOk(g, e, fuel)
    decreases child, 2
  {
    hide Lower, RepeatsOk, Mandatory, TypesFirm;
    LoweredSteady(g, child, id, None, actions, fuel);
    LoweredFirm(child, id, None, actions);
    FirmIsMandatory(g, Lower(child, id, None, actions).0, fuel);
  }

  lemma {:induction false} AllLoweredSteady(g: Grammar, ts: seq<Tree>, id: nat, actions: seq<string>, fuel: nat)
    requires TypesFirm(g.types) && SteadyTrees(ts)
    ensures AllRepeatsOk(g, LowerAll(ts, id, actions).0, fuel)
    decreases ts, 0
  {
    hide TypesFirm, RepeatsOk, SteadyTree, Lower;
    if ts != [] {
      var (e, mid) := Lower(ts[0], id, None, actions);
      LoweredSteady(g, ts[0], id, None, actions, fuel);
      AllLoweredSteady(g, ts[1..], mid, actions, fuel);
      var es := LowerAll(ts[1..], mid, actions).0;
      assert ([e] + es)[1..] == es;
    }
  }

  // ----- definitions --------------------------------------------------------------------

  /** No definition is marked, and no definition repeats anything marked. */
  predicate AllRequired(defs: seq<Type>) {
    forall k :: 0 <= k < |defs| ==> defs[k].presence == Required && ItemsRequired(defs[k])
  }

  lemma {:induction false} DefsFirm(ts: seq<Tree>, i: nat, id: nat, actions: seq<string>)
    requires forall k :: 0 <= k < |ts| ==> FirmTree(ts[k])
    ensures TypesFirm(LowerDefs(ts, i, id, actions))
    decreases ts
  {
    hide Lower, FirmTree, FirmElement;
    if ts != [] {
      var (e, mid) := Lower(ts[0], id, Some(i), actions);
      LoweredFirm(ts[0], id, Some(i), actions);
      DefsFirm(ts[1..], i + 1, mid, actions);
    }
  }

  lemma {:induction false} DefsSteady(g: Grammar, ts: seq<Tree>, i: nat, id: nat, actions: seq<string>, fuel: nat)
    requires TypesFirm(g.types) && forall k :: 0 <= k < |ts| ==> SteadyTree(ts[k])
    ensures AllRepeatsOk(g, LowerDefs(ts, i, id, actions), fuel)
    decreases ts
  {
    hide Lower, SteadyTree, TypesFirm, RepeatsOk;
    if ts != [] {
      var (e, mid) := Lower(ts[0], id, Some(i), actions);
      LoweredSteady(g, ts[0], id, Some(i), actions, fuel);
      DefsSteady(g, ts[1..], i + 1, mid, actions, fuel);
      var es := LowerDefs(ts[1..], i + 1, mid, actions);
      assert ([e] + es)[1..] == es;
    }
  }

  lemma {:induction false} TreesOf(x: Context, defs: seq<Type>, types: set<string>, k: nat)
    requires AllRequired(defs) && k < |defs| && WellFormed(defs[k], types)
    ensures FirmTree(BuildDefs(x, defs)[k]) && SteadyTree(BuildDefs(x, defs)[k])
  {
    BuildDefsAt(x, defs, k);
    hide Build, WellFormed, ItemsRequired, BuildDefs;
    BuiltLeads(x, defs[k], None, types);
    BuiltSteady(x, defs[k], None, types);
  }

  /** From the notation alone: where nothing repeated and no definition is OPTIONAL or DEFAULT,
      every loop of the machine reads something in each round. */
  lemma {:induction false} RequiredRepeats(x: Context, defs: seq<Type>, types: set<string>, fuel: nat)
    requires AllRequired(defs) && forall k :: 0 <= k < |defs| ==> WellFormed(defs[k], types)
    ensures AllRepeatsMandatory(ToGrammar(Meaning(x, defs)), fuel)
  {
    var p := Meaning(x, defs);
    var g := ToGrammar(p);
    hide WellFormed, AllRequired, FirmTree, SteadyTree, TypesFirm, LowerDefs, BuildDefs, AllRepeatsMandatory, AllRepeatsOk,
      WithActions, Counted, AllActions, AllRefs, Zeros;
    forall k | 0 <= k < |p.trees|
      ensures FirmTree(p.trees[k]) && SteadyTree(p.trees[k])
    {
      TreesOf(x, defs, types, k);
    }
    DefsFirm(p.trees, 0, 0, p.actions);
    DefsSteady(g, p.trees, 0, 0, p.actions, fuel);
    RepeatsOkDecides(g, fuel);
  }
}
