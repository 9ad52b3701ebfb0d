/**
 Outbounds as a graph: groups refer to their children, dialers may go through a detour. What an
 outbound does is the tree it unfolds to, and it has one exactly when nothing reachable from it
 is missing or refers back to itself.
 */
module OutboundGraph {
  import opened Wrappers

  type Tag = string
  type Mark = nat

  datatype Kind = Group | Sink | Dialer

  /** `body` is every field the renderer copies without looking at it. */
  datatype Outbound = Outbound(kind: Kind, body: nat, children: seq<Tag>, preferred: Tag, detour: Tag, mark: Option<Mark>)

  type Graph = map<Tag, Outbound>

  function Refs(o: Outbound): seq<Tag> {
    match o.kind
    case Group => o.children
    case Sink => []
    case Dialer => if o.detour == "" then [] else [o.detour]
  }

  predicate Edge(g: Graph, a: Tag, b: Tag) {
    a in g && b in Refs(g[a])
  }

  ghost predicate Walk(g: Graph, w: seq<Tag>) {
    |w| > 0 && forall i :: 0 <= i < |w| - 1 ==> Edge(g, w[i], w[i + 1])
  }

  ghost predicate CycleWalk(g: Graph, t: Tag, w: seq<Tag>) {
    Walk(g, w) && w[0] == t && w[|w| - 1] in w[..|w| - 1]
  }

  ghost predicate DanglingWalk(g: Graph, t: Tag, w: seq<Tag>) {
    Walk(g, w) && w[0] == t && w[|w| - 1] !in g
  }

  /** Everything reachable from `t` exists and nothing reachable refers back to itself. */
  ghost predicate Resolvable(g: Graph, t: Tag) {
    (forall w :: !CycleWalk(g, t, w)) && (forall w :: !DanglingWalk(g, t, w))
  }

  // ------------------------------------------------------------------------------------------
  // The meaning of an outbound
  // ------------------------------------------------------------------------------------------

  /** A group's default: one of its own children, something else, or nothing. */
  datatype Choice = NoChoice | ChildNo(k: nat) | Elsewhere(tag: Tag)

  datatype Tree =
    | GroupT(body: nat, mark: Option<Mark>, children: seq<Tree>, choice: Choice)
    | SinkT(body: nat, mark: Option<Mark>)
    | ThroughT(body: nat, mark: Option<Mark>, via: Tree)
    | DialT(body: nat, mark: Option<Mark>)

  function FirstIndex(t: Tag, s: seq<Tag>): (k: nat)
    requires t in s
    ensures k < |s| && s[k] == t && t !in s[..k]
  {
    if s[0] == t then 0 else 1 + FirstIndex(t, s[1..])
  }

  function ChoiceOf(preferred: Tag, children: seq<Tag>): Choice {
    if preferred in children then ChildNo(FirstIndex(preferred, children))
    else if preferred == "" then NoChoice
    else Elsewhere(preferred)
  }

  /** What a group prefers can be read off its choice. */
  lemma ChoiceTells(preferred: Tag, children: seq<Tag>)
    ensures match ChoiceOf(preferred, children)
            case NoChoice => preferred == "" && "" !in children
            case ChildNo(k) => k < |children| && children[k] == preferred && preferred !in children[..k]
            case Elsewhere(tag) => tag == preferred && preferred != "" && preferred !in children
  {
  }

  /** `tree` is what `t` unfolds to in `g`. */
  ghost predicate Unfolds(g: Graph, t: Tag, tree: Tree)
    decreases tree
  {
    && t in g
    && var o := g[t];
       tree.body == o.body && tree.mark == o.mark &&
       match o.kind
       case Group =>
         && tree.GroupT? && |tree.children| == |o.children|
         && tree.choice == ChoiceOf(o.preferred, o.children)
         && forall i :: 0 <= i < |o.children| ==> Unfolds(g, o.children[i], tree.children[i])
       case Sink => tree.SinkT?
       case Dialer =>
         if o.detour == "" then tree.DialT? else tree.ThroughT? && Unfolds(g, o.detour, tree.via)
  }

  ghost predicate HasTree(g: Graph, t: Tag) {
    exists tree :: Unfolds(g, t, tree)
  }

  ghost function TreeOf(g: Graph, t: Tag): (tree: Tree)
    requires HasTree(g, t)
    ensures Unfolds(g, t, tree)
  {
    var tree :| Unfolds(g, t, tree);
    tree
  }

  /** The same tree for one rate mark: on every dialing leaf and nowhere else. */
  function Marked(tree: Tree, mark: Mark): Tree {
    match tree
    case GroupT(body, _, children, choice) =>
      GroupT(body, None, seq(|children|, i requires 0 <= i < |children| => Marked(children[i], mark)), choice)
    case SinkT(body, _) => SinkT(body, None)
    case ThroughT(body, _, via) => ThroughT(body, None, Marked(via, mark))
    case DialT(body, _) => DialT(body, Some(mark))
  }

  /** Two trees are alike but for their marks. */
  predicate SameButMarks(a: Tree, b: Tree)
    decreases a
  {
    match (a, b)
    case (GroupT(body, _, children, choice), GroupT(body', _, children', choice')) =>
      && body == body' && choice == choice' && |children| == |children'|
      && forall i :: 0 <= i < |children| ==> SameButMarks(children[i], children'[i])
    case (SinkT(body, _), SinkT(body', _)) => body == body'
    case (ThroughT(body, _, via), ThroughT(body', _, via')) => body == body' && SameButMarks(via, via')
    case (DialT(body, _), DialT(body', _)) => body == body'
    case _ => false
  }

  /** The tree itself and all trees within it. */
  predicate Within(part: Tree, tree: Tree)
    decreases tree
  {
    || part == tree
    || match tree
       case GroupT(_, _, children, _) => exists i :: 0 <= i < |children| && Within(part, children[i])
       case ThroughT(_, _, via) => Within(part, via)
       case _ => false
  }

  /** Marking changes nothing but marks: then the dialing leaves have this one, and nothing else has any. */
  lemma {:induction false} MarkedIsMarked(tree: Tree, mark: Mark, part: Tree)
    ensures SameButMarks(tree, Marked(tree, mark))
    ensures Within(part, Marked(tree, mark)) ==> part.mark == if part.DialT? then Some(mark) else None
    decreases tree
  {
    match tree
    case GroupT(_, _, children, _) =>
      var marked := Marked(tree, mark).children;
      forall i | 0 <= i < |children|
        ensures SameButMarks(children[i], marked[i])
        ensures Within(part, marked[i]) ==> part.mark == if part.DialT? then Some(mark) else None
      {
        MarkedIsMarked(children[i], mark, part);
      }
    case ThroughT(_, _, via) => MarkedIsMarked(via, mark, part);
    case _ =>
  }

  lemma {:induction false} UnfoldingIsUnique(g: Graph, t: Tag, a: Tree, b: Tree)
    requires Unfolds(g, t, a) && Unfolds(g, t, b)
    ensures a == b
    decreases a
  {
    if a.GroupT? {
      forall i | 0 <= i < |a.children| ensures a.children[i] == b.children[i] {
        UnfoldingIsUnique(g, g[t].children[i], a.children[i], b.children[i]);
      }
    } else if a.ThroughT? {
      UnfoldingIsUnique(g, g[t].detour, a.via, b.via);
    }
  }

  function Height(tree: Tree): nat {
    match tree
    case GroupT(_, _, children, _) => 1 + MaxHeight(children)
    case SinkT(_, _) => 0
    case ThroughT(_, _, via) => 1 + Height(via)
    case DialT(_, _) => 0
  }

  function MaxHeight(trees: seq<Tree>): (h: nat)
    ensures forall i :: 0 <= i < |trees| ==> Height(trees[i]) <= h
  {
    if trees == [] then 0
    else
      var first, rest := Height(trees[0]), MaxHeight(trees[1..]);
      assert forall i :: 1 <= i < |trees| ==> trees[i] == trees[1..][i - 1];
      if first > rest then first else rest
  }

  /** Along a walk the trees get strictly lower. */
  lemma {:induction false} WalkDescends(g: Graph, w: seq<Tag>, k: nat)
    requires Walk(g, w) && HasTree(g, w[0]) && k < |w|
    ensures HasTree(g, w[k])
    ensures k > 0 ==> Height(TreeOf(g, w[k])) < Height(TreeOf(g, w[0]))
  {
    if k > 0 {
      WalkDescends(g, w, k - 1);
      var tree := TreeOf(g, w[k - 1]);
      assert Edge(g, w[k - 1], w[k]);
      var below: Tree;
      if g[w[k - 1]].kind == Group {
        var i :| 0 <= i < |g[w[k - 1]].children| && g[w[k - 1]].children[i] == w[k];
        below := tree.children[i];
      } else {
        below := tree.via;
      }
      assert Unfolds(g, w[k], below);
      UnfoldingIsUnique(g, w[k], below, TreeOf(g, w[k]));
    }
  }

  lemma {:induction false} SubwalkDescends(g: Graph, w: seq<Tag>, i: nat, k: nat)
    requires Walk(g, w) && HasTree(g, w[0]) && i < k < |w|
    ensures w[i] != w[k]
  {
    WalkDescends(g, w, i);
    assert Walk(g, w[i..]);
    WalkDescends(g, w[i..], k - i);
  }

  /** Only resolvable outbounds have a meaning. */
  lemma TreeImpliesResolvable(g: Graph, t: Tag)
    requires HasTree(g, t)
    ensures Resolvable(g, t)
  {
    forall w | Walk(g, w) && w[0] == t ensures !CycleWalk(g, t, w) && !DanglingWalk(g, t, w) {
      WalkDescends(g, w, |w| - 1);
      forall i | 0 <= i < |w| - 1 ensures w[i] != w[|w| - 1] {
        SubwalkDescends(g, w, i, |w| - 1);
      }
    }
  }

  /** What an outbound refers to resolves, so it has a tree too. */
  lemma TreeFromRefs(g: Graph, t: Tag)
    requires t in g && forall r :: r in Refs(g[t]) ==> HasTree(g, r)
    ensures HasTree(g, t)
  {
    var o := g[t];
    match o.kind
    case Group =>
      var below := seq(|o.children|, i requires 0 <= i < |o.children| => TreeOf(g, o.children[i]));
      assert Unfolds(g, t, GroupT(o.body, o.mark, below, ChoiceOf(o.preferred, o.children)));
    case Sink =>
      assert Unfolds(g, t, SinkT(o.body, o.mark));
    case Dialer =>
      if o.detour == "" {
        assert Unfolds(g, t, DialT(o.body, o.mark));
      } else {
        assert o.detour in Refs(o);
        assert Unfolds(g, t, ThroughT(o.body, o.mark, TreeOf(g, o.detour)));
      }
  }

  lemma {:induction false} DistinctFits(path: seq<Tag>, tags: set<Tag>)
    requires forall i :: 0 <= i < |path| ==> path[i] in tags
    requires forall i, k :: 0 <= i < k < |path| ==> path[i] != path[k]
    ensures |path| <= |tags|
  {
    if path != [] {
      var last := path[|path| - 1];
      DistinctFits(path[..|path| - 1], tags - {last});
    }
  }

  /** A way that reaches itself or leaves the graph shows that its start does not resolve. */
  lemma WalkEnds(g: Graph, path: seq<Tag>, t: Tag)
    requires Walk(g, path + [t])
    ensures Resolvable(g, (path + [t])[0]) ==> t !in path && t in g
  {
    var w := path + [t];
    assert w[..|path|] == path && w[|w| - 1] == t;
    assert t in path ==> CycleWalk(g, w[0], w);
    assert t !in g ==> DanglingWalk(g, w[0], w);
  }

  /** The other direction, along the way `path` from a resolvable start. */
  lemma {:induction false} ResolvableBelow(g: Graph, path: seq<Tag>, t: Tag)
    requires Walk(g, path + [t]) && Resolvable(g, (path + [t])[0])
    requires forall i :: 0 <= i < |path| ==> path[i] in g
    requires forall i, k :: 0 <= i < k < |path| ==> path[i] != path[k]
    ensures HasTree(g, t)
    decreases |g| - |path|
  {
    var w := path + [t];
    WalkEnds(g, path, t);
    DistinctFits(w, g.Keys);
    forall r | r in Refs(g[t]) ensures HasTree(g, r) {
      var w' := w + [r];
      forall i | 0 <= i < |w'| - 1 ensures Edge(g, w'[i], w'[i + 1]) {
        if i < |path| {
          assert Edge(g, w[i], w[i + 1]);
        }
      }
      ResolvableBelow(g, w, r);
    }
    TreeFromRefs(g, t);
  }

  /** An outbound has a meaning exactly when everything reachable from it exists and nothing loops. */
  lemma TreeIffResolvable(g: Graph, t: Tag)
    ensures HasTree(g, t) <==> Resolvable(g, t)
  {
    if HasTree(g, t) {
      TreeImpliesResolvable(g, t);
    }
    if Resolvable(g, t) {
      assert [] + [t] == [t];
      ResolvableBelow(g, [], t);
    }
  }
}
