/**
 * The automagic interface: components that fill in configuration values a
 * user has not supplied, and stackers that build one more layer on top of
 * a named layer.
 */
module Automagic {
  import opened Wrappers
  import opened Requirements
  import opened Scanner

  /** How soon an automagic runs, unless its class says otherwise. */
  const DefaultPriority: int := 10

  /** The order in which stackers are attempted, unless the stacker's class says otherwise. */
  const DefaultStackOrder: int := 0

  /** The message of the ValueError raised for an automagic that declares an unsupported requirement. */
  const RequirementKindError: string :=
    "Automagic requirements must be an SimpleTypeRequirement, ChoiceRequirement or ListRequirement"

  /** A requirement class an automagic may declare for itself: a simple type (or a subclass of it), a choice or a list. */
  predicate IsAutomagicKind(k: Kind)
  {
    k.SimpleType? || k.Choice? || k.List?
  }

  /** Every requirement an automagic declares for itself is of a kind it may declare. */
  predicate AllAutomagicKinds(requirements: seq<Req>)
  {
    forall r :: r in requirements ==> IsAutomagicKind(r.kind)
  }

  /** A diagnostic record that an automagic call reports without raising. */
  datatype Diagnostic = Diagnostic(message: string)

  /**
   * A constructed automagic: the context and configuration path it was
   * configured with, the requirements its class declares for itself, and
   * its class's priority.
   */
  datatype AutomagicInterface<C> = AutomagicInterface(
    context: C,
    configPath: string,
    requirements: seq<Req>,
    priority: int)
  {
    /**
     * The base call: nothing to contribute, so it reports no diagnostics
     * and returns the context it was given unchanged.
     */
    function Call(context: C, configPath: string, requirement: Req): (r: (Option<seq<Diagnostic>>, C))
      ensures r.0 == Some([])
      ensures r.1 == context
    {
      (Some([]), context)
    }

    /**
     * Finds the requirements of `requirementType` below `requirementRoot`
     * (the root included). `env` supplies the context, the satisfaction
     * query and the path joining; the result is the scan's.
     */
    method FindRequirements(env: Env<C>, configPath: string, requirementRoot: Req,
                            requirementType: set<Kind>, shortcut: bool := true)
      returns (results: seq<Found>)
      ensures results == Scan(env, configPath, requirementRoot, requirementType, shortcut)
      decreases requirementRoot
    {
      var subConfigPath := env.pathJoin(configPath, requirementRoot.name);
      results := [];
      var recurse := !shortcut;
      if requirementRoot.kind in requirementType {
        if recurse || env.unsatisfied(env.context, requirementRoot, configPath) {
          results := results + [Found(configPath, subConfigPath, requirementRoot)];
        }
      } else {
        recurse := true;
      }
      if recurse {
        for i := 0 to |requirementRoot.children|
          invariant results + ScanFrom(env, subConfigPath, requirementRoot, i, requirementType, shortcut)
                 == Scan(env, configPath, requirementRoot, requirementType, shortcut)
        {
          var found := FindRequirements(env, subConfigPath, requirementRoot.children[i], requirementType, shortcut);
          results := results + found;
        }
      }
    }
  }

  /**
   * Constructs an automagic whose class declares `requirements` and has
   * priority `priority`. Fails with the ValueError message exactly when one
   * of the requirements is not a simple type, choice or list requirement.
   */
  method Construct<C>(context: C, configPath: string, requirements: seq<Req>, priority: int := DefaultPriority)
    returns (r: Result<AutomagicInterface<C>, string>)
    ensures r.Success? <==> AllAutomagicKinds(requirements)
    ensures r.Success? ==> r.value == AutomagicInterface(context, configPath, requirements, priority)
    ensures r.Failure? ==> r.error == RequirementKindError
  {
    for i := 0 to |requirements|
      invariant forall j :: 0 <= j < i ==> IsAutomagicKind(requirements[j].kind)
    {
      if !IsAutomagicKind(requirements[i].kind) {
        return Failure(RequirementKindError);
      }
    }
    return Success(AutomagicInterface(context, configPath, requirements, priority));
  }

  /** A layer stacker class, attempted in ascending `stackOrder`. */
  datatype StackerLayerInterface = StackerLayerInterface(stackOrder: int)
  {
    /**
     * The base stacker: it cannot build on any layer, so it names no new
     * layer and leaves the context unchanged.
     */
    function Stack<C>(context: C, layerName: string): (r: (Option<string>, C))
      ensures r.0 == None
      ensures r.1 == context
    {
      (None, context)
    }
  }

  /** The stacker base class, with its default stack order. */
  const BaseStacker: StackerLayerInterface := StackerLayerInterface(DefaultStackOrder)
}
