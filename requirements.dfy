/**
 * Requirement trees: the named configuration slots a configurable declares,
 * and the configuration queries (satisfaction, path joining) that live
 * outside the automagic interface.
 */
module Requirements {

  /**
   * The class of a requirement object. `SimpleType` stands for
   * SimpleTypeRequirement and every subclass of it (integer, boolean,
   * string, bytes, URI, ...), told apart by `typeName`; `Choice` and `List`
   * stand for ChoiceRequirement and ListRequirement and every subclass of
   * each; `Other` is any other
   * requirement class (translation layers, symbol tables and other
   * composite requirements), told apart by `className`.
   */
  datatype Kind =
    | SimpleType(typeName: string)
    | Choice
    | List
    | Other(className: string)

  /**
   * One requirement with its sub-requirements, in the order they were
   * declared (the insertion order of the `requirements` dictionary).
   */
  datatype Req = Req(name: string, kind: Kind, children: seq<Req>)

  /** Number of requirement nodes in the tree rooted at `r`. */
  function Size(r: Req): nat
    decreases r, |r.children| + 1
  {
    1 + SizeFrom(r, 0)
  }

  /** Number of requirement nodes in the subtrees of `parent.children[i..]`. */
  function SizeFrom(parent: Req, i: nat): nat
    requires i <= |parent.children|
    decreases parent, |parent.children| - i
  {
    if i == |parent.children| then 0
    else Size(parent.children[i]) + SizeFrom(parent, i + 1)
  }

  /**
   * The configuration the scan reads but does not own: the context,
   * `RequirementInterface.unsatisfied(context, config_path)` asked of a given
   * requirement, and `path_join`. Their definitions are not part of this
   * model, so they are carried as uninterpreted functions.
   */
  datatype Env<!C> = Env(
    context: C,
    unsatisfied: (C, Req, string) -> bool,
    pathJoin: (string, string) -> string)
}
