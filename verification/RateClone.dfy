/**
 Every managed node dials through its own copy of its outbound chain, so that no two nodes share a
 connection and every dialed packet carries the node's rate mark. The copies are made by a depth
 first search that rewrites references, with a cache per (mark, outbound) and cycle detection.
 */
module RateClone {
  import opened Wrappers
  import opened Names
  import opened OutboundGraph

  // ------------------------------------------------------------------------------------------
  // Names of copies
  // ------------------------------------------------------------------------------------------

  const RATE_PREFIX := "sbmgr-rate-"

  /** Four hexadecimal digits of the low half of a mark. */
  function Hex4(n: nat): string {
    [Digit(n / 4096 % 16), Digit(n / 256 % 16), Digit(n / 16 % 16), Digit(n % 16)]
  }

  function HexValue(c: char): nat {
    if '0' <= c <= '9' then c as nat - '0' as nat else if 'a' <= c <= 'f' then c as nat - 'a' as nat + 10 else 0
  }

  /** The digits tell the low half of the mark. */
  lemma Hex4Tells(n: nat)
    ensures |Hex4(n)| == 4 && forall c :: c in Hex4(n) ==> c in "0123456789abcdef"
    ensures var s := Hex4(n); 4096 * HexValue(s[0]) + 256 * HexValue(s[1]) + 16 * HexValue(s[2]) + HexValue(s[3]) == n % 65536
  {
    DigitTells(n / 4096 % 16);
    DigitTells(n / 256 % 16);
    DigitTells(n / 16 % 16);
    DigitTells(n % 16);
    Nibbles(n);
    hide Digit;
    hide HexValue;
  }

  lemma Nibbles(n: nat)
    ensures 4096 * (n / 4096 % 16) + 256 * (n / 256 % 16) + 16 * (n / 16 % 16) + n % 16 == n % 65536
  {
    var a, b, c, d := n / 16, n / 256, n / 4096, n / 65536;
    assert n == 16 * a + n % 16;
    assert a == 16 * b + a % 16;
    assert b == 16 * c + b % 16;
    assert c == 16 * d + c % 16;
  }

  lemma DigitTells(d: nat)
    requires d < 16
    ensures HexValue(Digit(d)) == d && Digit(d) in "0123456789abcdef"
  {
  }

  function BaseTag(mark: Mark, original: Tag): Tag {
    RATE_PREFIX + Hex4(mark) + "-" + Slug(original)
  }

  function Candidate(base: Tag, suffix: nat): Tag {
    Numbered(base, "-", suffix, "")
  }

  predicate Reserved(t: Tag) {
    RATE_PREFIX <= t
  }

  /** The first unused name: the search ends because only finitely many names are used. */
  method FreshTag(mark: Mark, original: Tag, used: set<Tag>) returns (t: Tag)
    ensures t !in used && "sbmgr-rate-" <= t
    ensures exists k :: k >= 1 && t == Candidate(BaseTag(mark, original), k)
                        && forall i :: 1 <= i < k ==> Candidate(BaseTag(mark, original), i) in used
  {
    var base := BaseTag(mark, original);
    var k: nat;
    t, k := FirstUnused(base, "-", "", used);
    assert t == Candidate(base, k);
    assert t[..|RATE_PREFIX|] == base[..|RATE_PREFIX|] == RATE_PREFIX;
  }

  // ------------------------------------------------------------------------------------------
  // What a finished set of copies is
  // ------------------------------------------------------------------------------------------

  type Key = (Mark, Tag)

  /** An outbound with its references replaced by their copies for one mark. */
  function Rewrite(o: Outbound, mark: Mark, cache: map<Key, Tag>): Outbound
    requires forall r :: r in Refs(o) ==> (mark, r) in cache
  {
    match o.kind
    case Group =>
      o.(children := Renamed(o.children, mark, cache),
      preferred := if o.preferred in o.children then cache[(mark, o.preferred)] else o.preferred,
      mark := None)
    case Sink => o.(mark := None)
    case Dialer =>
      if o.detour == "" then o.(mark := Some(mark))
      else
        assert o.detour in Refs(o);
        o.(detour := cache[(mark, o.detour)], mark := None)
  }

  function Renamed(tags: seq<Tag>, mark: Mark, cache: map<Key, Tag>): (r: seq<Tag>)
    requires forall t :: t in tags ==> (mark, t) in cache
    ensures |r| == |tags| && forall i :: 0 <= i < |tags| ==> r[i] == cache[(mark, tags[i])]
  {
    seq(|tags|, i requires 0 <= i < |tags| => cache[(mark, tags[i])])
  }

  predicate Injective(cache: map<Key, Tag>) {
    forall a, b :: a in cache && b in cache && cache[a] == cache[b] ==> a == b
  }

  /** What `Copies` asks of one key. */
  ghost predicate CopyOf(base: Graph, taken: set<Tag>, index: Graph, cache: map<Key, Tag>, k: Key)
    requires k in cache
  {
    && k.1 in base && cache[k] !in taken && Reserved(cache[k])
    && (forall r :: r in Refs(base[k.1]) ==> (k.0, r) in cache)
    && cache[k] in index && index[cache[k]] == Rewrite(base[k.1], k.0, cache)
  }

  /** `index` holds the untouched originals and, for every cached key, a rewritten copy. */
  ghost predicate Copies(base: Graph, taken: set<Tag>, index: Graph, cache: map<Key, Tag>) {
    && base.Keys <= taken
    && (forall t :: t in base ==> t in index && index[t] == base[t])
    && (forall t :: t in index && t !in base ==> exists k :: k in cache && cache[k] == t)
    && Injective(cache)
    && (forall k :: k in cache ==> CopyOf(base, taken, index, cache, k))
  }

  /** Names that look like copies are not used for something that does not exist. */
  ghost predicate NoDanglingReserved(base: Graph) {
    forall t :: t in base ==>
      && (forall r :: r in Refs(base[t]) && Reserved(r) ==> r in base)
      && (Reserved(base[t].preferred) ==> base[t].preferred in base)
  }

  /** A copy does what its original does, with the mark on every dialing leaf and nowhere else. */
  lemma {:induction false} CopyUnfolds(base: Graph, taken: set<Tag>, index: Graph, cache: map<Key, Tag>, k: Key, tree: Tree)
    requires Copies(base, taken, index, cache) && NoDanglingReserved(base)
    requires k in cache && Unfolds(base, k.1, tree)
    ensures Unfolds(index, cache[k], Marked(tree, k.0))
    decreases tree
  {
    var o := base[k.1];
    if o.kind == Group {
      forall i | 0 <= i < |o.children|
        ensures Unfolds(index, index[cache[k]].children[i], Marked(tree, k.0).children[i])
      {
        CopyUnfolds(base, taken, index, cache, (k.0, o.children[i]), tree.children[i]);
      }
      CopyKeepsChoice(base, taken, index, cache, k);
    } else if o.kind == Dialer && o.detour != "" {
      assert o.detour in Refs(o);
      CopyUnfolds(base, taken, index, cache, (k.0, o.detour), tree.via);
    }
  }

  lemma CopyKeepsChoice(base: Graph, taken: set<Tag>, index: Graph, cache: map<Key, Tag>, k: Key)
    requires Copies(base, taken, index, cache) && NoDanglingReserved(base)
    requires k in cache && base[k.1].kind == Group
    ensures ChoiceOf(index[cache[k]].preferred, index[cache[k]].children) == ChoiceOf(base[k.1].preferred, base[k.1].children)
  {
    var o, o' := base[k.1], index[cache[k]];
    if o.preferred in o.children {
      var i := FirstIndex(o.preferred, o.children);
      assert o'.children[i] == cache[(k.0, o.preferred)] == o'.preferred;
      var i' := FirstIndex(o'.preferred, o'.children);
      assert o'.children[i'] == cache[(k.0, o.children[i'])];
      assert o.children[i'] == o.preferred;
    }
  }

  /** What a copy refers to is a copy for the same mark. */
  lemma CopyEdge(base: Graph, taken: set<Tag>, index: Graph, cache: map<Key, Tag>, k: Key, to: Tag)
    requires Copies(base, taken, index, cache)
    requires k in cache && Edge(index, cache[k], to)
    ensures exists r :: (k.0, r) in cache && to == cache[(k.0, r)]
  {
    assert CopyOf(base, taken, index, cache, k);
    var o := base[k.1];
    if o.kind == Group {
      var i :| 0 <= i < |o.children| && index[cache[k]].children[i] == to;
      assert o.children[i] in Refs(o);
      assert (k.0, o.children[i]) in cache;
    } else {
      assert o.detour in Refs(o);
      assert (k.0, o.detour) in cache;
    }
  }

  /** From a copy only copies for the same mark can be reached. */
  lemma {:induction false} CopiesReachCopies(base: Graph, taken: set<Tag>, index: Graph, cache: map<Key, Tag>, k: Key, w: seq<Tag>)
    requires Copies(base, taken, index, cache)
    requires k in cache && Walk(index, w) && w[0] == cache[k]
    ensures exists t :: (k.0, t) in cache && w[|w| - 1] == cache[(k.0, t)]
    decreases |w|
  {
    hide Copies;
    if |w| == 1 {
      assert (k.0, k.1) in cache;
    } else {
      var front := w[..|w| - 1];
      CopiesReachCopies(base, taken, index, cache, k, front);
      var t :| (k.0, t) in cache && front[|front| - 1] == cache[(k.0, t)];
      assert Edge(index, w[|w| - 2], w[|w| - 1]);
      CopyEdge(base, taken, index, cache, (k.0, t), w[|w| - 1]);
    }
  }

  /** Copies for different marks share nothing, and no copy leads back to an original. */
  lemma CopiesShareNothing(base: Graph, taken: set<Tag>, index: Graph, cache: map<Key, Tag>,
                           a: Key, b: Key, v: seq<Tag>, w: seq<Tag>)
    requires Copies(base, taken, index, cache)
    requires a in cache && b in cache && a.0 != b.0
    requires Walk(index, v) && v[0] == cache[a] && Walk(index, w) && w[0] == cache[b]
    ensures v[|v| - 1] != w[|w| - 1] && v[|v| - 1] !in base
  {
    CopiesReachCopies(base, taken, index, cache, a, v);
    CopiesReachCopies(base, taken, index, cache, b, w);
  }

  lemma RewriteStable(o: Outbound, mark: Mark, cache: map<Key, Tag>, larger: map<Key, Tag>)
    requires forall r :: r in Refs(o) ==> (mark, r) in cache
    requires forall k :: k in cache ==> k in larger && larger[k] == cache[k]
    ensures Rewrite(o, mark, larger) == Rewrite(o, mark, cache)
  {
    if o.kind == Group {
      assert Renamed(o.children, mark, larger) == Renamed(o.children, mark, cache);
    }
  }

  lemma AddCopy(base: Graph, taken: set<Tag>, index: Graph, cache: map<Key, Tag>, k: Key, t: Tag)
    requires Copies(base, taken, index, cache)
    requires k !in cache && k.1 in base && forall r :: r in Refs(base[k.1]) ==> (k.0, r) in cache
    requires t !in index && t !in taken && Reserved(t)
    ensures Copies(base, taken, index[t := Rewrite(base[k.1], k.0, cache)], cache[k := t])
  {
    var cache' := cache[k := t];
    var index' := index[t := Rewrite(base[k.1], k.0, cache)];
    forall x | x in cache' ensures CopyOf(base, taken, index', cache', x) {
      if x == k {
        RewriteStable(base[k.1], k.0, cache, cache');
      } else {
        assert CopyOf(base, taken, index, cache, x);
        RewriteStable(base[x.1], x.0, cache, cache');
      }
    }
    assert Injective(cache') by {
      assert forall x :: x in cache ==> cache[x] in index;
    }
    forall x | x in index' && x !in base ensures exists y :: y in cache' && cache'[y] == x {
      if x == t {
        assert cache'[k] == t;
      } else {
        var y :| y in cache && cache[y] == x;
        assert cache'[y] == x;
      }
    }
  }

  // ------------------------------------------------------------------------------------------
  // The search
  // ------------------------------------------------------------------------------------------

  type Item = (Tag, Outbound)

  /** Items by tag; the last one with a tag wins and unnamed items cannot be found. */
  function IndexItems(items: seq<Item>): Graph {
    if items == [] then map[]
    else
      var front, last := IndexItems(items[..|items| - 1]), items[|items| - 1];
      if last.0 == "" then front else front[last.0 := last.1]
  }

  datatype CloneError = Cycle(tag: Tag) | Missing(tag: Tag) | NoTarget

  ghost predicate NotReservedUnlessKnown(base: Graph, t: Tag) {
    Reserved(t) ==> t in base
  }

  /** What holds of the search state between steps; `items0` is the list it started from. */
  ghost predicate Sound(base: Graph, taken: set<Tag>, items0: seq<Item>,
                        items: seq<Item>, index: Graph, used: set<Tag>, cache: map<Key, Tag>)
  {
    && NoDanglingReserved(base) && "" !in base
    && Copies(base, taken, index, cache)
    && taken <= used && index.Keys <= used
    && (forall k :: k in cache ==> HasTree(base, k.1))
    && items0 <= items && index == IndexItems(items)
  }

  /** Nothing finished changes, nothing being visited gets finished, and new names come from outside. */
  ghost predicate Grown(visiting: set<Key>, cache0: map<Key, Tag>, used0: set<Tag>, index0: Graph,
                        cache: map<Key, Tag>, used: set<Tag>, index: Graph)
  {
    && (forall k :: k in cache0 ==> k in cache && cache[k] == cache0[k])
    && (forall k :: k in cache && k in visiting ==> k in cache0)
    && used0 <= used
    && (forall t :: t in index && t in used0 ==> t in index0)
  }

  /** The way from the first outbound of a search down to the one being copied. */
  ghost predicate Trail(base: Graph, visiting: set<Key>, path: seq<Tag>, tag: Tag, mark: Mark) {
    && Walk(base, path + [tag])
    && (forall i :: 0 <= i < |path| ==> path[i] in base)
    && (forall i, k :: 0 <= i < k < |path| ==> path[i] != path[k])
    && (forall k :: k in visiting <==> k.0 == mark && k.1 in path)
    && NotReservedUnlessKnown(base, tag)
  }

  /** `to` are the copies of `tags`, in order. */
  ghost predicate Translates(tags: seq<Tag>, mark: Mark, to: seq<Tag>, cache: map<Key, Tag>) {
    |to| == |tags| && forall i :: 0 <= i < |tags| ==> (mark, tags[i]) in cache && to[i] == cache[(mark, tags[i])]
  }

  lemma TranslatesOneMore(tags: seq<Tag>, mark: Mark, to: seq<Tag>, cache: map<Key, Tag>, next: Tag, cache': map<Key, Tag>)
    requires Translates(tags, mark, to, cache) && (mark, next) in cache'
    requires forall k :: k in cache ==> k in cache' && cache'[k] == cache[k]
    ensures Translates(tags + [next], mark, to + [cache'[(mark, next)]], cache')
  {
  }

  lemma GrownAgain(visiting: set<Key>, cache0: map<Key, Tag>, used0: set<Tag>, index0: Graph,
                   cache1: map<Key, Tag>, used1: set<Tag>, index1: Graph,
                   cache2: map<Key, Tag>, used2: set<Tag>, index2: Graph)
    requires Grown(visiting, cache0, used0, index0, cache1, used1, index1)
    requires Grown(visiting, cache1, used1, index1, cache2, used2, index2)
    ensures Grown(visiting, cache0, used0, index0, cache2, used2, index2)
    ensures forall k :: k in cache1 ==> k in cache2 && cache2[k] == cache1[k]
  {
  }

  lemma TrailDeepens(base: Graph, visiting: set<Key>, path: seq<Tag>, tag: Tag, mark: Mark, next: Tag)
    requires Trail(base, visiting, path, tag, mark) && (mark, tag) !in visiting
    requires tag in base && next in Refs(base[tag]) && NoDanglingReserved(base)
    ensures Trail(base, visiting + {(mark, tag)}, path + [tag], next, mark)
    ensures (path + [tag] + [next])[0] == (path + [tag])[0]
    ensures |path + [tag]| <= |base|
  {
    var w, w' := path + [tag], path + [tag] + [next];
    forall i | 0 <= i < |w'| - 1 ensures Edge(base, w'[i], w'[i + 1]) {
      if i < |path| {
        assert Edge(base, w[i], w[i + 1]);
      }
    }
    DistinctFits(w, base.Keys);
  }

  lemma TrailEndsInCycle(base: Graph, visiting: set<Key>, path: seq<Tag>, tag: Tag, mark: Mark)
    requires Trail(base, visiting, path, tag, mark) && (mark, tag) in visiting
    ensures !Resolvable(base, (path + [tag])[0])
  {
    var w := path + [tag];
    var i :| 0 <= i < |path| && path[i] == tag;
    assert w[..|path|][i] == tag;
    assert CycleWalk(base, w[0], w);
  }

  lemma TrailEndsNowhere(base: Graph, visiting: set<Key>, path: seq<Tag>, tag: Tag, mark: Mark)
    requires Trail(base, visiting, path, tag, mark) && tag !in base
    ensures !Resolvable(base, (path + [tag])[0])
  {
    assert DanglingWalk(base, (path + [tag])[0], path + [tag]);
  }

  lemma SoundFacts(base: Graph, taken: set<Tag>, items0: seq<Item>, items: seq<Item>, index: Graph, used: set<Tag>,
                   cache: map<Key, Tag>, t: Tag)
    requires Sound(base, taken, items0, items, index, used, cache) && NotReservedUnlessKnown(base, t)
    ensures NoDanglingReserved(base) && taken <= used && index.Keys <= used
    ensures t in index <==> t in base
    ensures t in base ==> index[t] == base[t]
  {
    if t in index && t !in base {
      assert false;
    }
  }

  lemma SoundReserves(base: Graph, taken: set<Tag>, items0: seq<Item>, items: seq<Item>, index: Graph, used: set<Tag>,
                      cache: map<Key, Tag>, t: Tag)
    requires Sound(base, taken, items0, items, index, used, cache)
    ensures Sound(base, taken, items0, items, index, used + {t}, cache)
  {
  }

  lemma GrownStart(visiting: set<Key>, cache: map<Key, Tag>, used: set<Tag>, index: Graph)
    ensures Grown(visiting, cache, used, index, cache, used, index)
  {
  }

  /** While `k` is visited and `t` is reserved for it, neither is touched; leaving early forgets both. */
  lemma GrownInside(outer: set<Key>, k: Key, t: Tag, cache0: map<Key, Tag>, used0: set<Tag>, index0: Graph,
                    cache: map<Key, Tag>, used: set<Tag>, index: Graph)
    requires Grown(outer + {k}, cache0, used0 + {t}, index0, cache, used, index)
    requires k !in cache0 && t !in index0
    ensures k !in cache && t !in index && t in used
    ensures Grown(outer, cache0, used0, index0, cache, used, index)
  {
    assert k in outer + {k};
    assert t in used0 + {t};
  }

  lemma RewrittenSingle(o: Outbound, mark: Mark, cache: map<Key, Tag>)
    requires o.kind != Group && forall r :: r in Refs(o) ==> (mark, r) in cache
    ensures o.kind == Dialer && o.detour != "" ==> (mark, o.detour) in cache
    ensures Rewrite(o, mark, cache)
         == if o.kind == Sink then o.(mark := None)
            else if o.detour == "" then o.(mark := Some(mark))
            else o.(detour := cache[(mark, o.detour)], mark := None)
  {
    if o.kind == Dialer && o.detour != "" {
      assert o.detour in Refs(o);
    }
  }

  lemma RewrittenGroup(o: Outbound, mark: Mark, cache: map<Key, Tag>, children: seq<Tag>)
    requires o.kind == Group && Translates(o.children, mark, children, cache)
    ensures forall r :: r in Refs(o) ==> (mark, r) in cache
    ensures Rewrite(o, mark, cache)
         == o.(children := children,
         preferred := if o.preferred in o.children then cache[(mark, o.preferred)] else o.preferred, mark := None)
  {
    assert Renamed(o.children, mark, cache) == children;
  }

  /** A finished copy joins the search state. */
  lemma Finished(base: Graph, taken: set<Tag>, items0: seq<Item>, items: seq<Item>, index: Graph, used: set<Tag>,
                 cache: map<Key, Tag>, k: Key, t: Tag, copied: Outbound)
    requires Sound(base, taken, items0, items, index, used, cache)
    requires k !in cache && k.1 in base && (forall r :: r in Refs(base[k.1]) ==> (k.0, r) in cache)
    requires t !in index && t in used && t !in taken && Reserved(t)
    requires copied == Rewrite(base[k.1], k.0, cache)
    ensures Sound(base, taken, items0, items + [(t, copied)], index[t := copied], used, cache[k := t])
  {
    AddCopy(base, taken, index, cache, k, t);
    forall r | r in Refs(base[k.1]) ensures HasTree(base, r) {
      assert (k.0, r) in cache;
    }
    TreeFromRefs(base, k.1);
    assert (items + [(t, copied)])[..|items|] == items;
  }

  /** The end of a search from `k`: the copy joins the state and the reservation is used up. */
  lemma Concluded(base: Graph, taken: set<Tag>, items0: seq<Item>, items: seq<Item>, index: Graph, used: set<Tag>,
                  cache: map<Key, Tag>, outer: set<Key>, k: Key, t: Tag, copied: Outbound,
                  cache0: map<Key, Tag>, used0: set<Tag>, index0: Graph)
    requires Sound(base, taken, items0, items, index, used, cache)
    requires Grown(outer + {k}, cache0, used0 + {t}, index0, cache, used, index)
    requires k !in cache0 && k !in outer && t !in used0 && t !in index0 && t !in taken && Reserved(t)
    requires k.1 in base && (forall r :: r in Refs(base[k.1]) ==> (k.0, r) in cache)
    requires copied == Rewrite(base[k.1], k.0, cache)
    ensures Sound(base, taken, items0, items + [(t, copied)], index[t := copied], used, cache[k := t])
    ensures Grown(outer, cache0, used0, index0, cache[k := t], used, index[t := copied])
  {
    GrownInside(outer, k, t, cache0, used0, index0, cache, used, index);
    Finished(base, taken, items0, items, index, used, cache, k, t, copied);
  }

  class Cloner {
    ghost const base: Graph
    ghost const taken: set<Tag>
    ghost const originals: seq<Item>

    var items: seq<Item>
    var index: Graph
    var usedTags: set<Tag>
    var cache: map<Key, Tag>
    var visiting: set<Key>

    ghost predicate Valid()
      reads this
    {
      Sound(base, taken, originals, items, index, usedTags, cache)
    }

    constructor (outbounds: seq<Item>, otherTags: set<Tag>)
      requires NoDanglingReserved(IndexItems(outbounds))
      ensures Valid() && fresh(this)
      ensures base == IndexItems(outbounds) && originals == outbounds && items == outbounds
      ensures taken == otherTags + base.Keys && cache == map[] && visiting == {}
    {
      var tags := otherTags;
      var byTag: Graph := map[];
      for i := 0 to |outbounds|
        invariant byTag == IndexItems(outbounds[..i])
        invariant tags == otherTags + byTag.Keys && "" !in byTag
      {
        assert outbounds[..i + 1][..i] == outbounds[..i];
        if outbounds[i].0 != "" {
          byTag := byTag[outbounds[i].0 := outbounds[i].1];
          tags := tags + {outbounds[i].0};
        }
      }
      assert outbounds[..|outbounds|] == outbounds;
      base, originals := byTag, outbounds;
      taken := tags;
      items, index, usedTags, cache, visiting := outbounds, byTag, tags, map[], {};
    }

    /** Copies of the children of a group, in order; `outer` is what was being visited before the group. */
    method CloneChildren(tag: Tag, mark: Mark, ghost path: seq<Tag>, ghost outer: set<Key>)
      returns (r: Result<seq<Tag>, CloneError>)
      requires Valid() && tag in base && base[tag].kind == Group
      requires Trail(base, outer, path, tag, mark) && (mark, tag) !in outer && visiting == outer + {(mark, tag)}
      modifies this
      ensures Valid() && visiting == old(visiting)
      ensures Grown(visiting, old(cache), old(usedTags), old(index), cache, usedTags, index)
      ensures r.Ok? ==> Translates(base[tag].children, mark, r.value, cache)
      ensures r.Err? ==> !Resolvable(base, (path + [tag])[0])
      decreases |base| - |path|, 0
    {
      hide Sound;
      hide Grown;
      hide Trail;
      hide Resolvable;
      hide NoDanglingReserved;
      assert NotReservedUnlessKnown(base, tag);
      SoundFacts(base, taken, originals, items, index, usedTags, cache, tag);
      GrownStart(visiting, cache, usedTags, index);
      var children := index[tag].children;
      var cloned: seq<Tag> := [];
      for i := 0 to |children|
        invariant Valid() && visiting == old(visiting)
        invariant Grown(visiting, old(cache), old(usedTags), old(index), cache, usedTags, index)
        invariant Translates(children[..i], mark, cloned, cache)
      {
        TrailDeepens(base, outer, path, tag, mark, children[i]);
        label before:
        var c := Clone(children[i], mark, path + [tag]);
        GrownAgain(visiting, old(cache), old(usedTags), old(index), old@before(cache), old@before(usedTags), old@before(index),
                   cache, usedTags, index);
        if c.Err? {
          return Err(c.error);
        }
        TranslatesOneMore(children[..i], mark, cloned, old@before(cache), children[i], cache);
        assert children[..i + 1] == children[..i] + [children[i]];
        cloned := cloned + [c.value];
      }
      assert children[..|children|] == children;
      return Ok(cloned);
    }

    /** The original with its references replaced by their copies, made on the way. */
    method CloneReferences(tag: Tag, mark: Mark, ghost path: seq<Tag>, ghost outer: set<Key>)
      returns (r: Result<Outbound, CloneError>)
      requires Valid() && tag in base
      requires Trail(base, outer, path, tag, mark) && (mark, tag) !in outer && visiting == outer + {(mark, tag)}
      modifies this
      ensures Valid() && visiting == old(visiting)
      ensures Grown(visiting, old(cache), old(usedTags), old(index), cache, usedTags, index)
      ensures r.Ok? ==> (forall x :: x in Refs(base[tag]) ==> (mark, x) in cache) && r.value == Rewrite(base[tag], mark, cache)
      ensures r.Err? ==> !Resolvable(base, (path + [tag])[0])
      decreases |base| - |path|, 1
    {
      assert NotReservedUnlessKnown(base, tag);
      hide Sound;
      hide Grown;
      hide Trail;
      hide Resolvable;
      hide NoDanglingReserved;
      hide Rewrite;
      SoundFacts(base, taken, originals, items, index, usedTags, cache, tag);
      GrownStart(visiting, cache, usedTags, index);
      var original := index[tag];
      var copied := original;
      match original.kind {
        case Group =>
          var children := CloneChildren(tag, mark, path, outer);
          if children.Err? {
            return Err(children.error);
          }
          copied := copied.(children := children.value);
          RewrittenGroup(original, mark, cache, children.value);
          if original.preferred in original.children {
            copied := copied.(preferred := cache[(mark, original.preferred)]);
          }
          copied := copied.(mark := None);
        case Sink =>
          RewrittenSingle(original, mark, cache);
          copied := copied.(mark := None);
        case Dialer =>
          if copied.detour != "" {
            TrailDeepens(base, outer, path, tag, mark, original.detour);
            var c := Clone(original.detour, mark, path + [tag]);
            if c.Err? {
              return Err(c.error);
            }
            copied := copied.(detour := c.value, mark := None);
          } else {
            copied := copied.(mark := Some(mark));
          }
          RewrittenSingle(original, mark, cache);
      }
      return Ok(copied);
    }

    /** Copies an original that is neither cached nor being visited: reserve a name, descend, record. */
    method CloneUnseen(tag: Tag, mark: Mark, ghost path: seq<Tag>) returns (r: Result<Tag, CloneError>)
      requires Valid() && tag in base && tag in index && (mark, tag) !in cache && (mark, tag) !in visiting
      requires Trail(base, visiting, path, tag, mark)
      requires taken <= usedTags && index.Keys <= usedTags
      modifies this
      ensures Valid() && visiting == old(visiting)
      ensures Grown(visiting, old(cache), old(usedTags), old(index), cache, usedTags, index)
      ensures r.Ok? ==> (mark, tag) in cache && r.value == cache[(mark, tag)]
      ensures r.Err? ==> !Resolvable(base, (path + [tag])[0])
      decreases |base| - |path|, 2
    {
      hide Sound;
      hide Grown;
      hide Trail;
      hide Resolvable;
      hide Rewrite;
      hide Reserved;
      hide Refs;
      var key := (mark, tag);
      var newTag := FreshTag(mark, tag, usedTags);
      ghost var outer := visiting;
      SoundReserves(base, taken, originals, items, index, usedTags, cache, newTag);
      usedTags := usedTags + {newTag};
      visiting := visiting + {key};
      var copied := CloneReferences(tag, mark, path, outer);
      visiting := visiting - {key};
      assert visiting == outer;
      if copied.Err? {
        GrownInside(outer, key, newTag, old(cache), old(usedTags), old(index), cache, usedTags, index);
        return Err(copied.error);
      }
      Concluded(base, taken, originals, items, index, usedTags, cache, outer, key, newTag, copied.value,
                old(cache), old(usedTags), old(index));
      items := items + [(newTag, copied.value)];
      index := index[newTag := copied.value];
      cache := cache[key := newTag];
      return Ok(newTag);
    }

    /**
     A copy of `tag` for `mark`, with everything it refers to. A failure means that something
     reachable from the start of the search is missing or refers back to itself.
     */
    method Clone(tag: Tag, mark: Mark, ghost path: seq<Tag>) returns (r: Result<Tag, CloneError>)
      requires Valid() && Trail(base, visiting, path, tag, mark)
      modifies this
      ensures Valid() && visiting == old(visiting)
      ensures Grown(visiting, old(cache), old(usedTags), old(index), cache, usedTags, index)
      ensures r.Ok? ==> (mark, tag) in cache && r.value == cache[(mark, tag)]
      ensures r.Err? ==> !Resolvable(base, (path + [tag])[0])
      decreases |base| - |path|, 3
    {
      assert NotReservedUnlessKnown(base, tag);
      hide Sound;
      hide Grown;
      hide Trail;
      hide Resolvable;
      hide NoDanglingReserved;
      SoundFacts(base, taken, originals, items, index, usedTags, cache, tag);
      GrownStart(visiting, cache, usedTags, index);
      var key := (mark, tag);
      if key in cache {
        return Ok(cache[key]);
      }
      if key in visiting {
        TrailEndsInCycle(base, visiting, path, tag, mark);
        return Err(Cycle(tag));
      }
      if tag !in index {
        TrailEndsNowhere(base, visiting, path, tag, mark);
        return Err(Missing(tag));
      }
      r := CloneUnseen(tag, mark, path);
    }
  }

  // ------------------------------------------------------------------------------------------
  // All nodes
  // ------------------------------------------------------------------------------------------

  /** A managed node: its login, its outbound ("" for the default) and its rate mark. */
  datatype NodeRef = NodeRef(auth: string, outbound: Tag, mark: Mark)

  /** The configured final outbound, or else the first one. */
  function DefaultTag(items: seq<Item>, final: Tag): Tag {
    if final != "" then final else if items != [] then items[0].0 else ""
  }

  function Target(n: NodeRef, defaultTag: Tag): Tag {
    if n.outbound == "" then defaultTag else n.outbound
  }

  /** The logins of the first `j` nodes lead to the copies of their targets; a later node with the same login wins. */
  ghost predicate Routed(nodes: seq<NodeRef>, j: nat, defaultTag: Tag, cache: map<Key, Tag>, result: map<string, Tag>)
    requires j <= |nodes|
  {
    forall i :: 0 <= i < j ==>
      && Target(nodes[i], defaultTag) != ""
      && (nodes[i].mark, Target(nodes[i], defaultTag)) in cache
      && ((forall k :: i < k < j ==> nodes[k].auth != nodes[i].auth) ==>
            nodes[i].auth in result && result[nodes[i].auth] == cache[(nodes[i].mark, Target(nodes[i], defaultTag))])
  }

  /** Every node has somewhere to go, and everything reachable from there resolves. */
  ghost predicate AllResolve(base: Graph, nodes: seq<NodeRef>, defaultTag: Tag) {
    forall i :: 0 <= i < |nodes| ==>
      Target(nodes[i], defaultTag) != "" && Resolvable(base, Target(nodes[i], defaultTag))
  }

  lemma RoutedOneMore(nodes: seq<NodeRef>, j: nat, defaultTag: Tag, cache: map<Key, Tag>, result: map<string, Tag>, cache': map<Key, Tag>)
    requires j < |nodes| && Routed(nodes, j, defaultTag, cache, result)
    requires forall k :: k in cache ==> k in cache' && cache'[k] == cache[k]
    requires Target(nodes[j], defaultTag) != "" && (nodes[j].mark, Target(nodes[j], defaultTag)) in cache'
    ensures Routed(nodes, j + 1, defaultTag, cache', result[nodes[j].auth := cache'[(nodes[j].mark, Target(nodes[j], defaultTag))]])
  {
  }

  lemma RoutedResolves(base: Graph, nodes: seq<NodeRef>, defaultTag: Tag, cache: map<Key, Tag>, result: map<string, Tag>)
    requires Routed(nodes, |nodes|, defaultTag, cache, result)
    requires forall k :: k in cache ==> HasTree(base, k.1)
    ensures AllResolve(base, nodes, defaultTag)
  {
    forall i | 0 <= i < |nodes| ensures Resolvable(base, Target(nodes[i], defaultTag)) {
      assert (nodes[i].mark, Target(nodes[i], defaultTag)) in cache;
      TreeImpliesResolvable(base, Target(nodes[i], defaultTag));
    }
  }

  /**
   The whole pass. It succeeds exactly when every target resolves, and then every login leads to
   the copy of its target for its mark. The originals are a prefix of the new list, and a failure
   changes nothing.
   */
  method AddRateOutbounds(items: seq<Item>, otherTags: set<Tag>, final: Tag, nodes: seq<NodeRef>)
    returns (r: Result<map<string, Tag>, CloneError>, out: seq<Item>, ghost copies: map<Key, Tag>)
    requires NoDanglingReserved(IndexItems(items))
    requires forall n :: n in nodes ==> NotReservedUnlessKnown(IndexItems(items), Target(n, DefaultTag(items, final)))
    ensures r.Ok? <==> AllResolve(IndexItems(items), nodes, DefaultTag(items, final))
    ensures items <= out && (r.Err? ==> out == items)
    ensures r.Ok? ==> Copies(IndexItems(items), otherTags + IndexItems(items).Keys, IndexItems(out), copies)
    ensures r.Ok? ==> Routed(nodes, |nodes|, DefaultTag(items, final), copies, r.value)
  {
    hide NoDanglingReserved;
    hide Copies;
    hide NotReservedUnlessKnown;
    hide Resolvable;
    hide HasTree;
    hide IndexItems;
    var c := new Cloner(items, otherTags);
    var defaultTag := DefaultTag(items, final);
    var result: map<string, Tag> := map[];
    for j := 0 to |nodes|
      invariant c.Valid() && c.visiting == {} && fresh(c)
      invariant c.base == IndexItems(items) && c.originals == items && c.taken == otherTags + c.base.Keys
      invariant Routed(nodes, j, defaultTag, c.cache, result)
    {
      var target := Target(nodes[j], defaultTag);
      if target == "" {
        return Err(NoTarget), items, map[];
      }
      assert nodes[j] in nodes;
      assert Trail(c.base, c.visiting, [], target, nodes[j].mark);
      label before:
      var tag := c.Clone(target, nodes[j].mark, []);
      assert ([] + [target])[0] == target;
      if tag.Err? {
        return Err(tag.error), items, map[];
      }
      RoutedOneMore(nodes, j, defaultTag, old@before(c.cache), result, c.cache);
      result := result[nodes[j].auth := tag.value];
    }
    out, copies := c.items, c.cache;
    RoutedResolves(c.base, nodes, defaultTag, c.cache, result);
    r := Ok(result);
  }

  /**
   Cloning preserves meaning: after a successful pass every login leads to an outbound that does
   what its own outbound does, or the configured final one, or the first, with the node's mark on
   every dialing leaf and nowhere else, and nothing reachable from it is an original or shared with a
   node of another mark.
   */
  lemma RoutesPreserveMeaning(items: seq<Item>, otherTags: set<Tag>, out: seq<Item>, copies: map<Key, Tag>,
                              nodes: seq<NodeRef>, final: Tag, result: map<string, Tag>, i: nat, w: seq<Tag>)
    requires NoDanglingReserved(IndexItems(items))
    requires Copies(IndexItems(items), otherTags + IndexItems(items).Keys, IndexItems(out), copies)
    requires AllResolve(IndexItems(items), nodes, DefaultTag(items, final)) && Routed(nodes, |nodes|, DefaultTag(items, final), copies, result)
    requires i < |nodes| && forall k :: i < k < |nodes| ==> nodes[k].auth != nodes[i].auth
    requires Walk(IndexItems(out), w) && w[0] == result[nodes[i].auth]
    ensures nodes[i].outbound == "" && final == "" ==> items != []
    ensures var target := if nodes[i].outbound != "" then nodes[i].outbound else if final != "" then final else items[0].0;
            && HasTree(IndexItems(items), target)
            && Unfolds(IndexItems(out), result[nodes[i].auth], Marked(TreeOf(IndexItems(items), target), nodes[i].mark))
    ensures w[|w| - 1] !in IndexItems(items)
    ensures forall b, v :: b in copies && b.0 != nodes[i].mark && Walk(IndexItems(out), v) && v[0] == copies[b] ==>
                             v[|v| - 1] != w[|w| - 1]
  {
    var base := IndexItems(items);
    var taken := otherTags + base.Keys;
    var key := (nodes[i].mark, Target(nodes[i], DefaultTag(items, final)));
    TreeIffResolvable(base, key.1);
    CopyUnfolds(base, taken, IndexItems(out), copies, key, TreeOf(base, key.1));
    CopiesReachCopies(base, taken, IndexItems(out), copies, key, w);
    forall b, v | b in copies && b.0 != nodes[i].mark && Walk(IndexItems(out), v) && v[0] == copies[b]
      ensures v[|v| - 1] != w[|w| - 1]
    {
      CopiesShareNothing(base, taken, IndexItems(out), copies, key, b, w, v);
    }
  }
}
