/** fixDeepMerge over a whole document. */
module YamlFix {
  import opened YamlNodes
  import opened DeepMerge
  import opened DeepMergeMeaning
  import opened DeepMergeSteps
  import opened DeepMergeRewrite
  import opened DeepMergeStable

  predicate Distinct(order: seq<Id>) {
    forall i, j | 0 <= i < j < |order| :: order[i] != order[j]
  }

  /** Nodes are finished once each, and after everything they refer to. */
  ghost predicate PostOrder(s: Store, order: seq<Id>) {
    && Distinct(order)
    && forall i | 0 <= i < |order| :: order[i] in s && AllBefore(Children(s[order[i]]), order[..i])
  }

  ghost predicate AllBefore(xs: seq<Id>, before: seq<Id>) {
    forall i | 0 <= i < |xs| :: xs[i] in before
  }

  class YamlDocument {
    var nodes: Store
    var next: Id
    var visited: set<Id>
    ghost var rank: Rank
    ghost var done: set<Id>
    ghost var order: seq<Id>

    constructor (nodes: Store, next: Id)
      requires forall x | x in nodes :: x < next
      ensures this.nodes == nodes && this.next == next
    {
      this.nodes := nodes;
      this.next := next;
      visited := {};
      rank, done, order := map[], {}, [];
    }

    ghost function State(s0: Store, r0: Rank): Run
      reads this
    {
      Run(s0, r0, nodes, rank, done)
    }

    /** Visited nodes are finished or on the stack of unfinished calls. */
    ghost predicate Tracked(s0: Store, r0: Rank)
      reads this
    {
      && (forall x | x in nodes :: x < next)
      && (Flat(s0, r0) ==> NewFlat(State(s0, r0)))
      && visited <= s0.Keys
      && (forall x | x in s0 && x in done :: x in visited && x in order)
      && (forall i | 0 <= i < |order| :: order[i] in done)
      && PostOrder(s0, order)
    }

    /** Walks the graph below a node; a mapping is rewritten after its children are finished. */
    method FixDeepMerge(x: Id, ghost s0: Store, ghost r0: Rank, ghost within: set<Id>)
      requires Fixed(State(s0, r0)) && Tracked(s0, r0)
      requires x in s0 && x in within && Closed(s0, within)
      requires forall y | y in visited && y !in done :: r0[x] < r0[y]
      modifies this
      ensures Fixed(State(s0, r0)) && Tracked(s0, r0)
      ensures x in done && old(done) <= done && visited - done == old(visited - done)
      ensures StableOn(s0, r0, within) && old(nodes) == s0 && old(rank) == r0 ==> nodes == s0 && rank == r0
      decreases r0[x]
    {
      hide Fixed, StableOn, PostOrder, Ranked, Closed, Flat, NewFlat, Children;
      if x in visited { return; }
      Unvisited(State(s0, r0), x);
      visited := visited + {x};
      ghost var stack := visited - done;
      var children := Children(nodes[x]);
      ChildrenBelow(s0, r0, x, within);
      assert forall y | y in stack :: y == x || r0[x] < r0[y];
      for i := 0 to |children|
        invariant Fixed(State(s0, r0)) && Tracked(s0, r0)
        invariant visited - done == stack && old(done) <= done && x in stack
        invariant forall j | 0 <= j < i :: children[j] in done
        invariant StableOn(s0, r0, within) && old(nodes) == s0 && old(rank) == r0 ==> nodes == s0 && rank == r0
      {
        assert forall y | y in visited && y !in done :: y in stack;
        FixDeepMerge(children[i], s0, r0, within);
      }
      FinishNode(x, s0, r0, within);
    }

    /** The rest of the call, once the children are finished. */
    method FinishNode(x: Id, ghost s0: Store, ghost r0: Rank, ghost within: set<Id>)
      requires Fixed(State(s0, r0)) && Tracked(s0, r0)
      requires x in s0 && x in within && x in visited && x !in done && Within(s0[x], done)
      modifies this`nodes, this`next, this`rank, this`done, this`order
      ensures Fixed(State(s0, r0)) && Tracked(s0, r0)
      ensures x in done && old(done) <= done && visited - done == visited - old(done) - {x}
      ensures StableOn(s0, r0, within) && old(nodes) == s0 && old(rank) == r0 ==> nodes == s0 && rank == r0
    {
      hide Fixed, PostOrder, Ranked, HasMerge, StableOn, Flat;
      Unvisited(State(s0, r0), x);
      RankedAt(s0, r0, x);
      OrderGrows(s0, order, done, x);
      if !HasMerge(nodes[x]) {
        FinishPlain(State(s0, r0), x);
        done := done + {x};
      } else {
        ghost var f;
        nodes, next, f := RewriteNode(nodes, next, State(s0, r0), x, within);
        rank, done := f.r, f.done;
      }
      order := order + [x];
    }

    /** The document is what fixing s0 below its root gives. */
    ghost predicate FixedFrom(s0: Store, r0: Rank, root: Id)
      reads this
    {
      Fixed(State(s0, r0)) && Tracked(s0, r0) && root in s0 && root in done
    }

    /** LoadSpecs: fixes the document below its root, starting from an empty visited set. Shallow
        decoding then reads the deep-merged meaning of the original document. The document is left alone
        exactly when nothing reachable in it would be rewritten, as is the case for the result of a flat one. */
    method FixDocument(root: Id, ghost r0: Rank)
      requires Wf(nodes, r0) && root in nodes && forall x | x in nodes :: x < next
      modifies this
      ensures FixedFrom(old(nodes), r0, root)
      ensures Ranked(old(nodes), r0) && Ranked(nodes, rank) && root in nodes
      ensures Shallow(nodes, rank, root) == Deep(old(nodes), r0, root)
      ensures nodes == old(nodes) <==> StableOn(old(nodes), r0, Reach(old(nodes), root))
      ensures Flat(old(nodes), r0) ==> StableOn(nodes, rank, Reach(nodes, root))
    {
      hide Fixed, Flat, StableOn, PostOrder, NewFlat, Ranked, Shallow, Deep, Reach, Wf;
      visited := {};
      rank, done, order := r0, {}, [];
      RunStart(nodes, r0, root);
      NothingOrdered(nodes);
      FixDeepMerge(root, nodes, r0, Reach(nodes, root));
      ghost var f := State(old(nodes), r0);
      Basics(f);
      FixedMeaning(f, root);
      FixedIsStable(f, order, root);
      if nodes == f.s0 { StableByStore(f.s0, rank, r0, Reach(f.s0, root)); }
    }
  }

  lemma NothingOrdered(s: Store)
    ensures PostOrder(s, [])
  {}

  /** What is reachable from the root. */
  ghost function Reach(s: Store, root: Id): set<Id> {
    set x | x in s && Reaches(s, root, x)
  }

  ghost predicate Reaches(s: Store, root: Id, x: Id) {
    forall d: set<Id> | Closed(s, d) && root in d :: x in d
  }

  lemma ReachClosed(s: Store, r: Rank, root: Id)
    requires Ranked(s, r) && root in s
    ensures root in Reach(s, root) && Closed(s, Reach(s, root))
  {
    var d := Reach(s, root);
    forall x | x in d ensures Within(s[x], d) {
      assert Below(s, r, x, s[x]);
      forall i | 0 <= i < |Children(s[x])| ensures Reaches(s, root, Children(s[x])[i]) {
        forall e: set<Id> | Closed(s, e) && root in e ensures Children(s[x])[i] in e {
          assert x in e && Within(s[x], e);
        }
      }
    }
  }

  lemma RunStart(s: Store, r: Rank, root: Id)
    requires Wf(s, r) && root in s
    ensures Fixed(Run(s, r, s, r, {})) && NewFlat(Run(s, r, s, r, {}))
    ensures root in Reach(s, root) && Closed(s, Reach(s, root))
  {
    hide EntryMap, Shallow, Deep, Reach;
    ReachClosed(s, r, root);
  }

  lemma FixedMeaning(f: Run, x: Id)
    requires Fixed(f) && x in f.s0 && x in f.done
    ensures Ranked(f.s0, f.r0) && Ranked(f.s, f.r) && x in f.s && Shallow(f.s, f.r, x) == Deep(f.s0, f.r0, x)
  {}

  /** Replaces or prepends the merged value of every key whose sources add something to it. */
  method RewriteNode(nodes: Store, next: Id, ghost f: Run, x: Id, ghost within: set<Id>)
    returns (nodes': Store, next': Id, ghost f': Run)
    requires Fixed(f) && f.s == nodes && forall y | y in nodes :: y < next
    requires x in f.s0 && x in within && x !in f.done && Within(f.s0[x], f.done) && x in nodes
    requires nodes[x] == f.s0[x] && HasMerge(nodes[x])
    ensures Fixed(f') && f'.s0 == f.s0 && f'.r0 == f.r0 && f'.s == nodes' && forall y | y in nodes' :: y < next'
    ensures f.done <= f'.done && x in f'.done
    ensures forall y | y in f'.done && y !in f.done && y != x :: y !in f.s0
    ensures Flat(f.s0, f.r0) && NewFlat(f) ==> NewFlat(f')
    ensures Ranked(f.s0, f.r0) && StableOn(f.s0, f.r0, within) && f.s == f.s0 && f.r == f.r0 ==>
              f'.s == f.s && f'.r == f.r
  {
    hide Fixed, Ranked, Merged, OwnLength, EntryMap, RewriteOf, Flat, NewFlat;
    FixedWf(f);
    var c := CollectMergedMappingKeys(nodes, f.r, x);
    ghost var ids;
    nodes', next', ids := RewriteMapping(nodes, x, c, next);
    ghost var w := Rewrite(f, x, c, nodes', ids);
    FinishMerging(w);
    NewIds(w);
    RestoredRank(w);
    f' := After(w);
    if Flat(f.s0, f.r0) && NewFlat(f) { NewFlatAfter(w); }
    assert StableOn(f.s0, f.r0, within) && f.s == f.s0 && f.r == f.r0 ==> c == map[];
  }

  lemma FixedWf(f: Run)
    requires Fixed(f)
    ensures Wf(f.s0, f.r0) && Wf(f.s, f.r) && f.s0.Keys <= f.s.Keys
  {}

  /** Nothing collected, nothing changed. */
  lemma RestoredRank(w: Rewrite)
    requires Valid(w)
    ensures w.n in w.f.r && w.f.r[w.n] > 0
    ensures w.c == map[] ==> Rank'(w) == w.f.r && w.ids == map[]
  {
    hide Ready;
    NewIds(w);
    if w.c == map[] {
      assert w.ids.Keys == {};
      assert w.ids.Values == {};
    }
  }

  lemma Unvisited(f: Run, x: Id)
    requires Fixed(f) && x in f.s0
    ensures x in f.s && (x !in f.done ==> f.s[x] == f.s0[x]) && Ranked(f.s0, f.r0) && x in f.r0
  {}

  lemma ChildrenBelow(s: Store, r: Rank, x: Id, within: set<Id>)
    requires Ranked(s, r) && x in s && x in within && Closed(s, within)
    ensures x in r && Below(s, r, x, s[x]) && Within(s[x], within)
  {}

  lemma OrderGrows(s: Store, order: seq<Id>, done: set<Id>, x: Id)
    requires PostOrder(s, order) && x in s && x !in done && Within(s[x], done)
    requires forall i | 0 <= i < |order| :: order[i] in done
    requires forall c | c in s && c in done :: c in order
    requires forall i | 0 <= i < |Children(s[x])| :: Children(s[x])[i] in s
    ensures PostOrder(s, order + [x])
  {
    var order' := order + [x];
    forall i | 0 <= i < |order'| ensures order'[i] in s && AllBefore(Children(s[order'[i]]), order'[..i]) {
      if i < |order| {
        assert order'[..i] == order[..i];
      } else {
        assert order'[..i] == order;
      }
    }
  }

  // ---------- Order and stability of whole runs ----------

  /** Every mapping is rewritten after all the mappings it merges. */
  lemma SourcesFirst(s: Store, r: Rank, order: seq<Id>, i: nat, j: nat)
    requires Ranked(s, r) && PostOrder(s, order) && i < |order| && j < |Items(s, r, order[i])|
    ensures Source(s, r, order[i], j) in order[..i]
  {
    var n := order[i];
    ChildOf(s, r, n, MERGE);
    var v := EntryMap(s[n].entries)[MERGE];
    var a := Before(s, order, i, n, v);
    var item := Items(s, r, n)[j];
    if s[v].Sequence? {
      assert Children(s[v])[j] == item;
      var b := Before(s, order, a, v, item);
      DerefFirst(s, r, order, b, item);
      assert order[..b] <= order[..i];
    } else {
      DerefFirst(s, r, order, a, v);
    }
  }

  lemma DerefFirst(s: Store, r: Rank, order: seq<Id>, b: nat, item: Id)
    requires Ranked(s, r) && PostOrder(s, order) && b < |order| && order[b] == item && item in s
    ensures Deref(s, r, item) in order[..b + 1]
  {
    assert order[..b + 1][b] == item;
    if s[item].Alias? {
      assert Children(s[item])[0] == s[item].target;
      var c := Before(s, order, b, item, s[item].target);
      assert order[..b + 1][c] == s[item].target;
    }
  }

  /** The position of a child in the order. */
  lemma Before(s: Store, order: seq<Id>, i: nat, x: Id, c: Id) returns (j: nat)
    requires PostOrder(s, order) && i < |order| && order[i] == x && x in s && c in Children(s[x])
    ensures j < i && order[j] == c
  {
    assert AllBefore(Children(s[x]), order[..i]);
    assert c in order[..i];
    j :| 0 <= j < i && order[..i][j] == c;
  }

  /** Everything reachable is finished, in the original document and in the result. */
  lemma ReachFinished(f: Run, order: seq<Id>, root: Id)
    requires Fixed(f) && PostOrder(f.s0, order) && root in f.s0 && root in f.done
    requires forall x | x in f.s0 && x in f.done :: x in order
    requires forall i | 0 <= i < |order| :: order[i] in f.done
    ensures Reach(f.s0, root) <= f.done && Reach(f.s, root) <= f.done
  {
    hide Fixed;
    Basics(f);
    var d := set x | x in f.s0 && x in f.done;
    forall x | x in d ensures Within(f.s0[x], d) {
      var i :| 0 <= i < |order| && order[i] == x;
      assert AllBefore(Children(f.s0[x]), order[..i]);
      forall j | 0 <= j < |Children(f.s0[x])| ensures Children(f.s0[x])[j] in d {
        var a := Before(f.s0, order, i, x, Children(f.s0[x])[j]);
      }
    }
    assert Closed(f.s0, d) && Closed(f.s, f.done);
    forall x | x in Reach(f.s0, root) ensures x in f.done { assert Reaches(f.s0, root, x); }
    forall x | x in Reach(f.s, root) ensures x in f.done { assert Reaches(f.s, root, x); }
  }

  /** In a fixed document no original mapping would be rewritten again; no reachable one would if the
      new ones do not merge. */
  lemma FixedIsStable(f: Run, order: seq<Id>, root: Id)
    requires Fixed(f) && PostOrder(f.s0, order) && root in f.s0 && root in f.done
    requires forall x | x in f.s0 && x in f.done :: x in order
    requires forall i | 0 <= i < |order| :: order[i] in f.done
    ensures Ranked(f.s, f.r) && Reach(f.s0, root) <= f.done && StableOn(f.s, f.r, Reach(f.s, root) * f.s0.Keys)
    ensures f.s == f.s0 || NewFlat(f) ==> StableOn(f.s, f.r, Reach(f.s, root))
  {
    hide Fixed, Ranked, PostOrder, Reach, Merged, EntryMap;
    AllStable(f);
    ReachFinished(f, order, root);
  }

  /** A second application to what a first one gave, with a fresh visited set, changes something exactly
      when a new mapping that carries a merge key would be rewritten; not so for a flat document. */
  method FixAgain(doc: YamlDocument, root: Id, ghost s0: Store, ghost r0: Rank)
    requires doc.FixedFrom(s0, r0, root)
    modifies doc
    ensures doc.FixedFrom(old(doc.nodes), old(doc.rank), root) && Ranked(old(doc.nodes), old(doc.rank))
    ensures doc.nodes == old(doc.nodes) <==>
              StableOn(old(doc.nodes), old(doc.rank), Reach(old(doc.nodes), root) - s0.Keys)
    ensures Flat(s0, r0) ==> doc.nodes == old(doc.nodes)
  {
    hide Flat, Fixed, Ranked, PostOrder, Reach, Wf, Merged, EntryMap;
    ghost var f := doc.State(s0, r0);
    FixedIsStable(f, doc.order, root);
    FixedWf(f);
    Basics(f);
    doc.FixDocument(root, f.r);
  }
}
