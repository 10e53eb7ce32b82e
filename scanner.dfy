/**
 * The requirement scanner of `AutomagicInterface.find_requirements`: a
 * depth-first, pre-order walk over a requirement tree that reports the
 * requirements of the target kinds, optionally pruned to the unsatisfied
 * ones.
 */
module Scanner {
  import opened Requirements

  /** One reported triple `(config_path, sub_config_path, requirement)`. */
  datatype Found = Found(configPath: string, subConfigPath: string, req: Req)

  /**
   * What every reported triple satisfies: its requirement is of a target
   * kind, its sub-path joins its path with the requirement's name, and with
   * the shortcut the requirement is unsatisfied at the triple's own path
   * (the path of the parent, not the requirement's sub-path).
   */
  predicate Reported<C>(env: Env<C>, targets: set<Kind>, shortcut: bool, f: Found)
  {
    && f.req.kind in targets
    && f.subConfigPath == env.pathJoin(f.configPath, f.req.name)
    && (shortcut ==> env.unsatisfied(env.context, f.req, f.configPath))
  }

  /**
   * The result of `find_requirements(context, configPath, root, targets,
   * shortcut)`. A node of a target kind is reported (without the shortcut
   * always, with it only when unsatisfied at `configPath`) and, with the
   * shortcut, its children are not searched; the children of every other
   * node are searched in declaration order.
   */
  function Scan<C>(env: Env<C>, configPath: string, root: Req, targets: set<Kind>, shortcut: bool): (r: seq<Found>)
    ensures forall f :: f in r ==> Reported(env, targets, shortcut, f)
    decreases root, |root.children| + 1
  {
    var sub := env.pathJoin(configPath, root.name);
    if root.kind in targets then
      (if !shortcut || env.unsatisfied(env.context, root, configPath) then [Found(configPath, sub, root)] else [])
      + (if shortcut then [] else ScanFrom(env, sub, root, 0, targets, shortcut))
    else
      ScanFrom(env, sub, root, 0, targets, shortcut)
  }

  /** The results of scanning `parent.children[i..]` in turn under `subPath`, concatenated. */
  function ScanFrom<C>(env: Env<C>, subPath: string, parent: Req, i: nat, targets: set<Kind>, shortcut: bool): (r: seq<Found>)
    requires i <= |parent.children|
    ensures forall f :: f in r ==> Reported(env, targets, shortcut, f)
    decreases parent, |parent.children| - i
  {
    if i == |parent.children| then []
    else Scan(env, subPath, parent.children[i], targets, shortcut) + ScanFrom(env, subPath, parent, i + 1, targets, shortcut)
  }

  // ---------------------------------------------------------------------
  // Reference definitions
  // ---------------------------------------------------------------------

  /**
   * Every node of the tree, in depth-first pre-order with children in
   * declaration order, each with the path of its parent (`configPath` for
   * the root) and its own joined path.
   */
  function Nodes(join: (string, string) -> string, configPath: string, root: Req): (r: seq<Found>)
    ensures |r| == Size(root)
    decreases root, |root.children| + 1
  {
    var sub := join(configPath, root.name);
    [Found(configPath, sub, root)] + NodesFrom(join, sub, root, 0)
  }

  /** The pre-order node lists of the subtrees `parent.children[i..]`, concatenated. */
  function NodesFrom(join: (string, string) -> string, subPath: string, parent: Req, i: nat): (r: seq<Found>)
    requires i <= |parent.children|
    ensures |r| == SizeFrom(parent, i)
    decreases parent, |parent.children| - i
  {
    if i == |parent.children| then []
    else Nodes(join, subPath, parent.children[i]) + NodesFrom(join, subPath, parent, i + 1)
  }

  /**
   * The first nodes of a target kind on every path down from the root: a
   * node of a target kind hides its whole subtree.
   */
  function Frontier(join: (string, string) -> string, configPath: string, root: Req, targets: set<Kind>): (r: seq<Found>)
    decreases root, |root.children| + 1
  {
    var sub := join(configPath, root.name);
    if root.kind in targets then [Found(configPath, sub, root)]
    else FrontierFrom(join, sub, root, 0, targets)
  }

  /** The frontiers of the subtrees `parent.children[i..]`, concatenated. */
  function FrontierFrom(join: (string, string) -> string, subPath: string, parent: Req, i: nat, targets: set<Kind>): (r: seq<Found>)
    requires i <= |parent.children|
    decreases parent, |parent.children| - i
  {
    if i == |parent.children| then []
    else Frontier(join, subPath, parent.children[i], targets) + FrontierFrom(join, subPath, parent, i + 1, targets)
  }

  /** The triples of `fs` whose requirement is of a target kind, in order. */
  function OfKind(fs: seq<Found>, targets: set<Kind>): (r: seq<Found>)
    ensures |r| <= |fs|
    ensures forall f :: f in r <==> f in fs && f.req.kind in targets
  {
    if fs == [] then []
    else (if fs[0].req.kind in targets then [fs[0]] else []) + OfKind(fs[1..], targets)
  }

  /** The triples of `fs` whose requirement is unsatisfied at the triple's path, in order. */
  function OnlyUnsatisfied<C>(env: Env<C>, fs: seq<Found>): (r: seq<Found>)
    ensures |r| <= |fs|
    ensures forall f :: f in r <==> f in fs && env.unsatisfied(env.context, f.req, f.configPath)
  {
    if fs == [] then []
    else (if env.unsatisfied(env.context, fs[0].req, fs[0].configPath) then [fs[0]] else []) + OnlyUnsatisfied(env, fs[1..])
  }

  /** The elements of `s` at the positions where `keep` holds, in order. */
  function Select<T>(s: seq<T>, keep: seq<bool>): (r: seq<T>)
    requires |keep| == |s|
    ensures |r| <= |s|
  {
    if s == [] then []
    else (if keep[0] then [s[0]] else []) + Select(s[1..], keep[1..])
  }

  /** `a` is a subsequence of `b`: `a` is `b` with some elements left out, the rest in order. */
  ghost predicate IsSubseq<T>(a: seq<T>, b: seq<T>)
  {
    exists keep: seq<bool> {:trigger Select(b, keep)} :: |keep| == |b| && Select(b, keep) == a
  }

  // ---------------------------------------------------------------------
  // Lemmas about sequences
  // ---------------------------------------------------------------------

  lemma {:induction false} OfKindConcat(a: seq<Found>, b: seq<Found>, targets: set<Kind>)
    ensures OfKind(a + b, targets) == OfKind(a, targets) + OfKind(b, targets)
  {
    if a != [] {
      var head := if a[0].req.kind in targets then [a[0]] else [];
      assert (a + b)[0] == a[0] && (a + b)[1..] == a[1..] + b;
      assert OfKind(a + b, targets) == head + OfKind(a[1..] + b, targets);
      OfKindConcat(a[1..], b, targets);
      assert OfKind(a + b, targets) == head + (OfKind(a[1..], targets) + OfKind(b, targets));
    } else {
      assert a + b == b;
    }
  }

  lemma {:induction false} OnlyUnsatisfiedConcat<C>(env: Env<C>, a: seq<Found>, b: seq<Found>)
    ensures OnlyUnsatisfied(env, a + b) == OnlyUnsatisfied(env, a) + OnlyUnsatisfied(env, b)
  {
    if a != [] {
      var head := if env.unsatisfied(env.context, a[0].req, a[0].configPath) then [a[0]] else [];
      assert (a + b)[0] == a[0] && (a + b)[1..] == a[1..] + b;
      assert OnlyUnsatisfied(env, a + b) == head + OnlyUnsatisfied(env, a[1..] + b);
      OnlyUnsatisfiedConcat(env, a[1..], b);
      assert OnlyUnsatisfied(env, a + b) == head + (OnlyUnsatisfied(env, a[1..]) + OnlyUnsatisfied(env, b));
    } else {
      assert a + b == b;
    }
  }

  lemma {:induction false} SelectConcat<T>(a: seq<T>, ka: seq<bool>, b: seq<T>, kb: seq<bool>)
    requires |ka| == |a| && |kb| == |b|
    ensures Select(a + b, ka + kb) == Select(a, ka) + Select(b, kb)
  {
    if a != [] {
      var head := if ka[0] then [a[0]] else [];
      assert (a + b)[0] == a[0] && (a + b)[1..] == a[1..] + b;
      assert (ka + kb)[0] == ka[0] && (ka + kb)[1..] == ka[1..] + kb;
      assert Select(a + b, ka + kb) == head + Select(a[1..] + b, ka[1..] + kb);
      SelectConcat(a[1..], ka[1..], b, kb);
      assert Select(a + b, ka + kb) == head + (Select(a[1..], ka[1..]) + Select(b, kb));
    } else {
      assert a + b == b && ka + kb == kb;
    }
  }

  /** `n` times `false`. */
  function NoneKept(n: nat): (r: seq<bool>)
    ensures |r| == n
  {
    if n == 0 then [] else [false] + NoneKept(n - 1)
  }

  lemma {:induction false} SelectNone<T>(s: seq<T>)
    ensures Select(s, NoneKept(|s|)) == []
    decreases |s|
  {
    if s != [] {
      assert NoneKept(|s|)[0] == false && NoneKept(|s|)[1..] == NoneKept(|s| - 1);
      SelectNone(s[1..]);
    }
  }

  lemma SingletonSubseq<T>(x: T)
    ensures IsSubseq([x], [x])
  {
    assert Select([x], [true]) == [x] + Select([], []);
  }

  lemma EmptySubseq<T>(s: seq<T>)
    ensures IsSubseq([], s)
  {
    SelectNone(s);
  }

  lemma SubseqConcat<T>(a: seq<T>, b: seq<T>, c: seq<T>, d: seq<T>)
    requires IsSubseq(a, b) && IsSubseq(c, d)
    ensures IsSubseq(a + c, b + d)
  {
    var ka: seq<bool> :| |ka| == |b| && Select(b, ka) == a;
    var kc: seq<bool> :| |kc| == |d| && Select(d, kc) == c;
    SelectConcat(b, ka, d, kc);
  }

  lemma {:induction false} SelectMembership<T>(s: seq<T>, keep: seq<bool>, x: T)
    requires |keep| == |s| && x in Select(s, keep)
    ensures x in s
    decreases |s|
  {
    if x != s[0] {
      SelectMembership(s[1..], keep[1..], x);
    }
  }

  lemma SubseqMembership<T>(a: seq<T>, b: seq<T>, x: T)
    requires IsSubseq(a, b) && x in a
    ensures x in b
  {
    var k: seq<bool> :| |k| == |b| && Select(b, k) == a;
    SelectMembership(b, k, x);
  }

  lemma SubseqLength<T>(a: seq<T>, b: seq<T>)
    requires IsSubseq(a, b)
    ensures |a| <= |b|
  {
    var k: seq<bool> :| |k| == |b| && Select(b, k) == a;
  }

  // ---------------------------------------------------------------------
  // Properties of the scan
  // ---------------------------------------------------------------------

  /**
   * Without the shortcut the scan reports exactly the nodes of a target
   * kind, each in its pre-order position, with its parent's path and its
   * own joined path.
   */
  lemma {:induction false} ScanAllIsPreOrder<C>(env: Env<C>, configPath: string, root: Req, targets: set<Kind>)
    ensures Scan(env, configPath, root, targets, false) == OfKind(Nodes(env.pathJoin, configPath, root), targets)
    decreases root, |root.children| + 1
  {
    var sub := env.pathJoin(configPath, root.name);
    var own := Found(configPath, sub, root);
    ScanAllFromIsPreOrder(env, sub, root, 0, targets);
    OfKindConcat([own], NodesFrom(env.pathJoin, sub, root, 0), targets);
  }

  lemma {:induction false} ScanAllFromIsPreOrder<C>(env: Env<C>, subPath: string, parent: Req, i: nat, targets: set<Kind>)
    requires i <= |parent.children|
    ensures ScanFrom(env, subPath, parent, i, targets, false) == OfKind(NodesFrom(env.pathJoin, subPath, parent, i), targets)
    decreases parent, |parent.children| - i
  {
    if i < |parent.children| {
      ScanAllIsPreOrder(env, subPath, parent.children[i], targets);
      ScanAllFromIsPreOrder(env, subPath, parent, i + 1, targets);
      OfKindConcat(Nodes(env.pathJoin, subPath, parent.children[i]), NodesFrom(env.pathJoin, subPath, parent, i + 1), targets);
    }
  }

  /** Without the shortcut a triple is reported iff it is a node of the tree of a target kind. */
  lemma ScanAllMembership<C>(env: Env<C>, configPath: string, root: Req, targets: set<Kind>, f: Found)
    ensures f in Scan(env, configPath, root, targets, false)
        <==> f in Nodes(env.pathJoin, configPath, root) && f.req.kind in targets
  {
    ScanAllIsPreOrder(env, configPath, root, targets);
  }

  /** Without the shortcut the scan never consults `unsatisfied` (nor the context). */
  lemma ScanAllIgnoresSatisfaction<C>(c1: C, u1: (C, Req, string) -> bool, c2: C, u2: (C, Req, string) -> bool,
                                      join: (string, string) -> string, configPath: string, root: Req, targets: set<Kind>)
    ensures Scan(Env(c1, u1, join), configPath, root, targets, false) == Scan(Env(c2, u2, join), configPath, root, targets, false)
  {
    ScanAllIsPreOrder(Env(c1, u1, join), configPath, root, targets);
    ScanAllIsPreOrder(Env(c2, u2, join), configPath, root, targets);
  }

  /**
   * With the shortcut the scan reports exactly the frontier nodes (the
   * first nodes of a target kind on each path) that are unsatisfied at
   * their parent's path; nothing below a node of a target kind is reported.
   */
  lemma {:induction false} ShortcutIsUnsatisfiedFrontier<C>(env: Env<C>, configPath: string, root: Req, targets: set<Kind>)
    ensures Scan(env, configPath, root, targets, true) == OnlyUnsatisfied(env, Frontier(env.pathJoin, configPath, root, targets))
    decreases root, |root.children| + 1
  {
    var sub := env.pathJoin(configPath, root.name);
    if root.kind !in targets {
      ShortcutFromIsUnsatisfiedFrontier(env, sub, root, 0, targets);
    }
  }

  lemma {:induction false} ShortcutFromIsUnsatisfiedFrontier<C>(env: Env<C>, subPath: string, parent: Req, i: nat, targets: set<Kind>)
    requires i <= |parent.children|
    ensures ScanFrom(env, subPath, parent, i, targets, true)
         == OnlyUnsatisfied(env, FrontierFrom(env.pathJoin, subPath, parent, i, targets))
    decreases parent, |parent.children| - i
  {
    if i < |parent.children| {
      ShortcutIsUnsatisfiedFrontier(env, subPath, parent.children[i], targets);
      ShortcutFromIsUnsatisfiedFrontier(env, subPath, parent, i + 1, targets);
      OnlyUnsatisfiedConcat(env, Frontier(env.pathJoin, subPath, parent.children[i], targets),
                            FrontierFrom(env.pathJoin, subPath, parent, i + 1, targets));
    }
  }

  /** The frontier is a subsequence of the pre-order list of nodes of a target kind. */
  lemma {:induction false} FrontierIsSubseq(join: (string, string) -> string, configPath: string, root: Req, targets: set<Kind>)
    ensures IsSubseq(Frontier(join, configPath, root, targets), OfKind(Nodes(join, configPath, root), targets))
    decreases root, |root.children| + 1
  {
    var sub := join(configPath, root.name);
    var own := Found(configPath, sub, root);
    var rest := NodesFrom(join, sub, root, 0);
    OfKindConcat([own], rest, targets);
    if root.kind in targets {
      SingletonSubseq(own);
      EmptySubseq(OfKind(rest, targets));
      SubseqConcat([own], [own], [], OfKind(rest, targets));
    } else {
      assert OfKind([own], targets) == [] + OfKind([], targets);
      assert OfKind(Nodes(join, configPath, root), targets) == OfKind(rest, targets);
      FrontierFromIsSubseq(join, sub, root, 0, targets);
    }
  }

  lemma {:induction false} FrontierFromIsSubseq(join: (string, string) -> string, subPath: string, parent: Req, i: nat, targets: set<Kind>)
    requires i <= |parent.children|
    ensures IsSubseq(FrontierFrom(join, subPath, parent, i, targets), OfKind(NodesFrom(join, subPath, parent, i), targets))
    decreases parent, |parent.children| - i
  {
    if i == |parent.children| {
      EmptySubseq<Found>([]);
    } else {
      var child := parent.children[i];
      FrontierIsSubseq(join, subPath, child, targets);
      FrontierFromIsSubseq(join, subPath, parent, i + 1, targets);
      OfKindConcat(Nodes(join, subPath, child), NodesFrom(join, subPath, parent, i + 1), targets);
      SubseqConcat(Frontier(join, subPath, child, targets), OfKind(Nodes(join, subPath, child), targets),
                   FrontierFrom(join, subPath, parent, i + 1, targets), OfKind(NodesFrom(join, subPath, parent, i + 1), targets));
    }
  }

  /** The shortcut result is a subsequence of the full result for the same tree, targets and environment. */
  lemma {:induction false} ShortcutIsSubseq<C>(env: Env<C>, configPath: string, root: Req, targets: set<Kind>)
    ensures IsSubseq(Scan(env, configPath, root, targets, true), Scan(env, configPath, root, targets, false))
    decreases root, |root.children| + 1
  {
    var sub := env.pathJoin(configPath, root.name);
    var own := Found(configPath, sub, root);
    var rest := ScanFrom(env, sub, root, 0, targets, false);
    if root.kind in targets {
      EmptySubseq(rest);
      if env.unsatisfied(env.context, root, configPath) {
        SingletonSubseq(own);
        SubseqConcat([own], [own], [], rest);
      } else {
        EmptySubseq([own]);
        SubseqConcat([], [own], [], rest);
      }
    } else {
      ShortcutFromIsSubseq(env, sub, root, 0, targets);
    }
  }

  lemma {:induction false} ShortcutFromIsSubseq<C>(env: Env<C>, subPath: string, parent: Req, i: nat, targets: set<Kind>)
    requires i <= |parent.children|
    ensures IsSubseq(ScanFrom(env, subPath, parent, i, targets, true), ScanFrom(env, subPath, parent, i, targets, false))
    decreases parent, |parent.children| - i
  {
    if i == |parent.children| {
      EmptySubseq<Found>([]);
    } else {
      var child := parent.children[i];
      ShortcutIsSubseq(env, subPath, child, targets);
      ShortcutFromIsSubseq(env, subPath, parent, i + 1, targets);
      SubseqConcat(Scan(env, subPath, child, targets, true), Scan(env, subPath, child, targets, false),
                   ScanFrom(env, subPath, parent, i + 1, targets, true), ScanFrom(env, subPath, parent, i + 1, targets, false));
    }
  }

  /** Either scan reports at most as many triples as the tree has nodes, the shortcut one no more than the full one. */
  lemma ScanBounded<C>(env: Env<C>, configPath: string, root: Req, targets: set<Kind>)
    ensures |Scan(env, configPath, root, targets, true)| <= |Scan(env, configPath, root, targets, false)| <= Size(root)
  {
    ShortcutIsSubseq(env, configPath, root, targets);
    SubseqLength(Scan(env, configPath, root, targets, true), Scan(env, configPath, root, targets, false));
    ScanAllIsPreOrder(env, configPath, root, targets);
  }

  /**
   * In either mode every reported triple is a node of the tree, with its
   * parent's path and its own joined path, and of a target kind: a node not
   * of a target kind is never reported, wherever it lies in the tree.
   */
  lemma ScanReportsTreeNodes<C>(env: Env<C>, configPath: string, root: Req, targets: set<Kind>, shortcut: bool, f: Found)
    requires f in Scan(env, configPath, root, targets, shortcut)
    ensures f in Nodes(env.pathJoin, configPath, root) && f.req.kind in targets
  {
    if shortcut {
      ShortcutIsSubseq(env, configPath, root, targets);
      SubseqMembership(Scan(env, configPath, root, targets, true), Scan(env, configPath, root, targets, false), f);
    }
    ScanAllMembership(env, configPath, root, targets, f);
  }
}
