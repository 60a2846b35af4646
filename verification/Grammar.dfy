/** Parsed grammars, as `parse` in listcerts/asn1_compiler.c leaves them: one element tree
    per type definition. */
module Grammar {
  datatype Option<+T> = None | Some(value: T)

  /** The kinds of `enum compound`, with their children. `TypeRef` holds the index of the
      referenced type. */
  datatype Compound =
    | NotCompound
    | Any
    | TypeRef(target: nat)
    | Choice(alternatives: seq<Element>)
    | Sequence(fields: seq<Element>)
    | SequenceOf(item: Element)
    | SetOf(item: Element)
    | Set(members: seq<Element>)
    | TagOverride(inner: Element)

  /** A `struct element`. `id` stands for its address. `cls` is 0 to 3, `cons` the
      constructed method, `number` the tag number; `typeDef` is the type definition it is
      the top of; actions are known by their index. */
  datatype Element = Element(
    id: nat,
    cls: nat, cons: bool, number: nat,
    skippable: bool, conditional: bool,
    action: Option<nat>,
    typeDef: Option<nat>,
    compound: Compound)

  /** The type definitions in order, the first one being the root, with their `ref_count`. */
  datatype Grammar = Grammar(types: seq<Element>, refCounts: seq<nat>)

  function RefCount(g: Grammar, e: Element): nat {
    if e.typeDef.Some? && e.typeDef.value < |g.refCounts| then g.refCounts[e.typeDef.value] else 0
  }

  /** The optional `tag` argument of `render_element`: the enclosing IMPLICIT tag. */
  type Override = Option<Element>

  predicate Skippable(e: Element, tag: Override) {
    e.skippable || (tag.Some? && tag.value.skippable)
  }

  predicate Conditional(e: Element, tag: Override) {
    e.conditional || (tag.Some? && tag.value.conditional)
  }

  predicate OutOfLine(g: Grammar, e: Element, tag: Override) {
    RefCount(g, e) > 1 || Skippable(e, tag)
  }

  /** The operand `_tag(class, method, number)`. */
  function OpTag(e: Element, tag: Override): nat {
    var t := if tag.Some? then tag.value else e;
    t.cls * 64 + (if t.cons || e.cons then 32 else 0) + t.number
  }
}
