# Automagic interface of the Volatility 3 framework, modelled in Dafny

Volatility 3 runs *automagic* components before a plugin: each one tries to
fill in configuration values the user has not supplied, walking the plugin's
tree of declared requirements. *Stackers* are the related components that try
to build one more data layer on top of a named layer. This project models the
interface module that defines both: the requirement scanner
`AutomagicInterface.find_requirements`, the construction-time check on the
requirements an automagic declares for itself, the base automagic call, the
base stacker, and the default `priority` and `stack_order`.

Files:

- `wrappers.dfy`: `Option` and `Result`, for `None` returns and raised errors.
- `requirements.dfy`: requirement kinds, the requirement tree `Req` (children in
  declaration order), its node count, and `Env`, which carries the context, the
  `unsatisfied` query and `path_join`. Their definitions are not part of this
  model, so they are uninterpreted functions.
- `scanner.dfy`: the scan as a function (`Scan`), reference definitions
  (`Nodes`: every node in pre-order with its paths; `Frontier`: the first
  target-kind node on each path down), and the lemmas that relate them.
- `automagic.dfy`: the `AutomagicInterface` and `StackerLayerInterface`
  datatypes. It also holds the recursive `FindRequirements` method, which has
  the source's loop over children and is proved equal to `Scan`. Last come the
  construction check and the default behaviours.

An `isinstance(requirement, requirement_type)` test is modelled as
`requirement.kind in requirementType`, where `requirementType` is a set of
kinds (one kind for a single class, several for a tuple). The construction
check also accepts every subclass of SimpleTypeRequirement, ChoiceRequirement
and ListRequirement. They are modelled as the `SimpleType` kind, whatever its
`typeName`, and as the `Choice` and `List` kinds.

With `shortcut=False`, `recurse` is true from line 82 of
`volatility/framework/interfaces/automagic.py` and is never reset. So the
children of every node are searched, including the children of a node of a
target kind (`ScanAllIsPreOrder`). With `shortcut=True`, a node of a target
kind hides its whole subtree. The shortcut result is a subsequence of the
full result and may equal it (`ShortcutIsSubseq`).

## Model

| member | source | states |
|---|---|---|
| `Scanner.Scan` | volatility/framework/interfaces/automagic.py:80-91 | every reported triple `(p, sp, r)` has `r` of a target kind and `sp == path_join(p, r.name)`; with the shortcut, `r` is unsatisfied at `p`, its parent's path |
| `Scanner.ScanFrom` | volatility/framework/interfaces/automagic.py:88-90 | the same for the results gathered from the children, joined under the parent's sub-path |
| `Automagic.AutomagicInterface.FindRequirements` | volatility/framework/interfaces/automagic.py:59-91 | the loop over the children in declaration order, with `shortcut` defaulting to true, returns exactly the scan's result |
| `Scanner.ScanAllIsPreOrder` | volatility/framework/interfaces/automagic.py:82-91 | without the shortcut, the result is exactly the pre-order node list filtered to the target kinds. Each node of a target kind appears once, in its position, with its parent's path (the caller's for the root) and its own joined path |
| `Scanner.ScanAllMembership` | volatility/framework/interfaces/automagic.py:82-90 | without the shortcut, a triple is reported iff it is a node of the tree whose kind is a target kind (both directions) |
| `Scanner.ScanAllIgnoresSatisfaction` | volatility/framework/interfaces/automagic.py:82-84 | without the shortcut, the result does not depend on the context or on `unsatisfied` |
| `Scanner.ShortcutIsUnsatisfiedFrontier` | volatility/framework/interfaces/automagic.py:82-88 | with the shortcut, the result is exactly the frontier nodes that are unsatisfied at their parent's path. The frontier is the first target-kind node on each path down, so nothing below a target-kind node is reported, whether or not that node was |
| `Scanner.FrontierIsSubseq` | volatility/framework/interfaces/automagic.py:82-90 | the nodes the shortcut may report form a subsequence of those the full scan reports |
| `Scanner.ShortcutIsSubseq` | volatility/framework/interfaces/automagic.py:82-91 | for the same tree, targets, context and `unsatisfied`, the shortcut result is a subsequence of the full result |
| `Scanner.ScanBounded` | volatility/framework/interfaces/automagic.py:80-91 | the shortcut result is no longer than the full result, which is no longer than the tree's node count |
| `Scanner.ScanReportsTreeNodes` | volatility/framework/interfaces/automagic.py:83-90 | in either mode, every reported triple is a node of the tree at its pre-order paths and of a target kind, so a node not of a target kind is never reported, wherever it lies |
| `Automagic.Construct` | volatility/framework/interfaces/automagic.py:34-46 | construction fails with the ValueError message iff some declared requirement is not a simple-type, choice or list requirement. Otherwise it yields an automagic holding the context, path, requirements and priority (10 unless the class sets another) |
| `Automagic.AutomagicInterface.Call` | volatility/framework/interfaces/automagic.py:48-54 | the base call returns the empty list and leaves the context unchanged |
| `Automagic.StackerLayerInterface.Stack` | volatility/framework/interfaces/automagic.py:101-122 | the base stacker names no new layer and leaves the context unchanged; the base class's stack order is 0 (`BaseStacker`) |

## Left out

- Running the automagics in priority order and stacking layers by stack order: these drivers live outside this module, so `priority` and `stackOrder` are carried but nothing here orders by them.
- The configurable base class, the context and its configuration store, `RequirementInterface.unsatisfied` and `path_join` are not part of this model. They appear only as the uninterpreted `Env` functions and the type parameter `C`.
- Progress callbacks are left out: they only report progress and never change a result.
- Matching against a base class that has subclasses: the scan tests membership of the node's own kind in a set, so a caller wanting all subclasses of a class must list their kinds. Only the construction check treats every `SimpleType` kind as a SimpleTypeRequirement.
- Unique child names and the dictionary holding the children are not modelled. Children are an ordered sequence, which keeps the dictionary's insertion order.
- `Automagic.StackerLayerInterface.Stack` returns an optional layer name, as the docstring says, not the layer object of the return annotation. How concrete stackers change the context is not modelled.
- Concrete automagic and stacker classes and the memory layers they build are not part of this model.
