/** fixDeepMerge: rewriting a YAML node graph so that a shallow-merging decoder reads the
    deep-merged meaning. */
module DeepMerge {
  import opened YamlNodes

  // ---------- Uniting entries, the first occurrence of a key winning ----------

  function AppendNew(acc: seq<Entry>, es: seq<Entry>): seq<Entry>
    decreases |es|
  {
    if es == [] then acc
    else AppendNew(if es[0].key in EntryMap(acc) then acc else acc + [es[0]], es[1..])
  }

  lemma {:induction false} EntryMapConcat(a: seq<Entry>, b: seq<Entry>)
    ensures EntryMap(a + b) == EntryMap(b) + EntryMap(a)
  {
    if a == [] {
      assert a + b == b;
    } else {
      assert (a + b)[1..] == a[1..] + b;
      EntryMapConcat(a[1..], b);
      assert EntryMap(a + b) == (EntryMap(b) + EntryMap(a[1..]))[a[0].key := a[0].value];
    }
  }

  lemma EntryMapSnoc(a: seq<Entry>, e: Entry)
    ensures EntryMap(a + [e]) == map[e.key := e.value] + EntryMap(a)
  {
    EntryMapConcat(a, [e]);
    assert EntryMap([e]) == map[e.key := e.value];
  }

  lemma {:induction false} AppendNewMap(acc: seq<Entry>, es: seq<Entry>)
    ensures EntryMap(AppendNew(acc, es)) == EntryMap(es) + EntryMap(acc)
    decreases |es|
  {
    if es != [] {
      var e := es[0];
      EntryMapSnoc(acc, e);
      AppendNewMap(if e.key in EntryMap(acc) then acc else acc + [e], es[1..]);
    }
  }

  lemma {:induction false} AppendNewUnique(acc: seq<Entry>, es: seq<Entry>)
    requires UniqueKeys(acc)
    ensures UniqueKeys(AppendNew(acc, es)) && acc <= AppendNew(acc, es)
    decreases |es|
  {
    if es != [] {
      var e := es[0];
      if e.key !in EntryMap(acc) {
        forall i | 0 <= i < |acc| ensures acc[i].key != e.key { EntryKey(acc, i); }
        AppendNewUnique(acc + [e], es[1..]);
      } else {
        AppendNewUnique(acc, es[1..]);
      }
    }
  }

  lemma {:induction false} AppendNewFrom(acc: seq<Entry>, es: seq<Entry>, e: Entry)
    requires e in AppendNew(acc, es)
    ensures e in acc || e in es
    decreases |es|
  {
    if es != [] {
      AppendNewFrom(if es[0].key in EntryMap(acc) then acc else acc + [es[0]], es[1..], e);
    }
  }

  lemma {:induction false} AppendNewTwice(acc: seq<Entry>, a: seq<Entry>, b: seq<Entry>)
    ensures AppendNew(AppendNew(acc, a), b) == AppendNew(acc, a + b)
    decreases |a|
  {
    if a == [] {
      assert a + b == b;
    } else {
      assert (a + b)[1..] == a[1..] + b;
      AppendNewTwice(if a[0].key in EntryMap(acc) then acc else acc + [a[0]], a[1..], b);
    }
  }

  lemma {:induction false} AppendNewFresh(acc: seq<Entry>, es: seq<Entry>)
    requires UniqueKeys(acc + es)
    ensures AppendNew(acc, es) == acc + es
    decreases |es|
  {
    if es == [] {
      assert acc + es == acc;
    } else {
      assert (acc + [es[0]]) + es[1..] == acc + es;
      forall i | 0 <= i < |acc| ensures acc[i].key != es[0].key {
        assert (acc + es)[i] == acc[i] && (acc + es)[|acc|] == es[0];
      }
      if es[0].key in EntryMap(acc) {
        var i := EntryIndex(acc, es[0].key);
        assert false;
      }
      AppendNewFresh(acc + [es[0]], es[1..]);
    }
  }

  lemma {:induction false} AppendNewKnown(acc: seq<Entry>, es: seq<Entry>)
    requires EntryMap(es).Keys <= EntryMap(acc).Keys
    ensures AppendNew(acc, es) == acc
    decreases |es|
  {
    if es != [] {
      assert EntryMap(es).Keys == EntryMap(es[1..]).Keys + {es[0].key};
      AppendNewKnown(acc, es[1..]);
    }
  }

  // ---------- What is collected for one key ----------

  /** The entries of a key's own literal value. */
  function OwnEntries(s: Store, n: Id, k: string): seq<Entry> {
    if Literal(s, n, k) then s[OwnMap(s[n])[k]].entries else []
  }

  /** The entries of all literal values of a key, in the order they are visited. */
  ghost function Gather(s: Store, r: Rank, n: Id, k: string): seq<Entry>
    requires Ranked(s, r) && n in s && s[n].Mapping?
    decreases r[n], 1
  {
    OwnEntries(s, n, k) + GatherFrom(s, r, n, 0, k)
  }

  ghost function GatherFrom(s: Store, r: Rank, n: Id, j: nat, k: string): seq<Entry>
    requires Ranked(s, r) && n in s && s[n].Mapping? && j <= |Items(s, r, n)|
    decreases r[n], 0, |Items(s, r, n)| - j
  {
    if j == |Items(s, r, n)| then []
    else GatherItem(s, r, n, j, k) + GatherFrom(s, r, n, j + 1, k)
  }

  ghost function GatherItem(s: Store, r: Rank, n: Id, j: nat, k: string): seq<Entry>
    requires Ranked(s, r) && n in s && s[n].Mapping? && j < |Items(s, r, n)|
    decreases r[n], 0, 0
  {
    var i := Items(s, r, n)[j];
    if Aliased(s, i) then assert Source(s, r, n, j) == s[i].target; Gather(s, r, s[i].target, k) else []
  }

  /** The merged content of a key. */
  ghost function Merged(s: Store, r: Rank, n: Id, k: string): seq<Entry>
    requires Ranked(s, r) && n in s && s[n].Mapping?
  {
    AppendNew([], Gather(s, r, n, k))
  }

  type Collected = map<string, seq<Entry>>

  function ContentOf(c: Collected, k: string): seq<Entry> {
    if k in c then c[k] else []
  }

  /** The explicit keys of one mapping: collectExplicit, and the first pass of visit. */
  method CollectExplicit(s: Store, src: Id, c: Collected) returns (c': Collected)
    requires src in s && s[src].Mapping? && UniqueKeys(s[src].entries)
    requires forall i | 0 <= i < |s[src].entries| :: s[src].entries[i].value in s
    ensures forall k :: ContentOf(c', k) == AppendNew(ContentOf(c, k), OwnEntries(s, src, k))
  {
    hide EntryMap, AppendNew;
    var es := s[src].entries;
    c' := c;
    AppendNothing();
    EmptyEntryMap();
    for i := 0 to |es|
      invariant forall k | k in EntryMap(es[..i]) ::
                ContentOf(c', k) == AppendNew(ContentOf(c, k), OwnEntries(s, src, k))
      invariant forall k | k !in EntryMap(es[..i]) :: ContentOf(c', k) == ContentOf(c, k)
    {
      var key, v := es[i].key, es[i].value;
      NextEntry(es, i);
      if key != MERGE && s[v].Mapping? {
        var content := AddSubKeys(ContentOf(c', key), s[v].entries);
        assert OwnEntries(s, src, key) == s[v].entries;
        c' := c'[key := content];
      } else {
        assert OwnEntries(s, src, key) == [];
      }
    }
    assert es[..|es|] == es;
    forall k | k !in EntryMap(es) ensures OwnEntries(s, src, k) == [] {}
  }

  lemma AppendNothing()
    ensures forall acc {:trigger AppendNew(acc, [])} :: AppendNew(acc, []) == acc
  {}

  lemma EmptyEntryMap()
    ensures EntryMap([]) == map[]
  {}

  lemma NextEntry(es: seq<Entry>, i: nat)
    requires UniqueKeys(es) && i < |es|
    ensures es[i].key in EntryMap(es) && EntryMap(es)[es[i].key] == es[i].value
    ensures es[i].key !in EntryMap(es[..i])
    ensures EntryMap(es[..i + 1]).Keys == EntryMap(es[..i]).Keys + {es[i].key}
  {
    hide EntryMap;
    EntryKey(es, i);
    if es[i].key in EntryMap(es[..i]) {
      var j := EntryIndex(es[..i], es[i].key);
    }
    assert es[..i + 1] == es[..i] + [es[i]];
    EntryMapSnoc(es[..i], es[i]);
  }

  /** The inner loop: sub-keys already seen are skipped. */
  method AddSubKeys(acc: seq<Entry>, es: seq<Entry>) returns (content: seq<Entry>)
    ensures content == AppendNew(acc, es)
  {
    content := acc;
    var seen := EntryMap(acc).Keys;
    for j := 0 to |es|
      invariant seen == EntryMap(content).Keys
      invariant AppendNew(content, es[j..]) == AppendNew(acc, es)
    {
      assert es[j..][1..] == es[j + 1..];
      if es[j].key !in seen {
        EntryMapSnoc(content, es[j]);
        content := content + [es[j]];
        seen := seen + {es[j].key};
      }
    }
  }

  /** Aliases are acyclic, keys of a mapping are distinct, and merge values are mappings: what the
      decoder demands of its input. */
  ghost predicate Wf(s: Store, r: Rank) {
    && Ranked(s, r)
    && (forall x | x in s && s[x].Mapping? :: UniqueKeys(s[x].entries))
    && MergesMappings(s, r)
  }

  /** visit: a mapping's explicit keys, then its merge sources in order. */
  method Visit(s: Store, ghost r: Rank, src: Id, c: Collected) returns (c': Collected)
    requires Wf(s, r) && src in s && s[src].Mapping?
    ensures forall k :: ContentOf(c', k) == AppendNew(ContentOf(c, k), Gather(s, r, src, k))
    decreases r[src]
  {
    assert Below(s, r, src, s[src]);
    assert forall i | 0 <= i < |s[src].entries| :: Children(s[src])[i] == s[src].entries[i].value;
    c' := CollectExplicit(s, src, c);
    ghost var explicit := c';
    var items := MergeItems(s, src);
    assert items == Items(s, r, src);
    for j := 0 to |items|
      invariant forall k ::
          AppendNew(ContentOf(c', k), GatherFrom(s, r, src, j, k))
          == AppendNew(ContentOf(explicit, k), GatherFrom(s, r, src, 0, k))
    {
      ghost var before := c';
      if s[items[j]].Alias? {
        assert Source(s, r, src, j) == s[items[j]].target;
        assert Aliased(s, items[j]);
        c' := Visit(s, r, s[items[j]].target, c');
      }
      forall k
        ensures AppendNew(ContentOf(c', k), GatherFrom(s, r, src, j + 1, k))
             == AppendNew(ContentOf(before, k), GatherFrom(s, r, src, j, k))
      {
        AppendNewTwice(ContentOf(before, k), GatherItem(s, r, src, j, k), GatherFrom(s, r, src, j + 1, k));
      }
    }
    forall k
      ensures ContentOf(c', k) == AppendNew(ContentOf(c, k), Gather(s, r, src, k))
    {
      AppendNewTwice(ContentOf(c, k), OwnEntries(s, src, k), GatherFrom(s, r, src, 0, k));
    }
  }

  function OwnLength(s: Store, n: Id, k: string): nat
    requires n in s && s[n].Mapping?
  {
    if k in OwnMap(s[n]) && OwnMap(s[n])[k] in s then ContentLength(s[OwnMap(s[n])[k]]) else 0
  }

  /** collectMergedMappingKeys: the keys whose merged content is longer than what the node has. */
  method CollectMergedMappingKeys(s: Store, ghost r: Rank, n: Id) returns (c: Collected)
    requires Wf(s, r) && n in s && s[n].Mapping?
    ensures forall k :: k in c <==> 2 * |Merged(s, r, n, k)| > OwnLength(s, n, k)
    ensures forall k | k in c :: c[k] == Merged(s, r, n, k)
  {
    var all := Visit(s, r, n, map[]);
    assert forall k :: ContentOf(all, k) == Merged(s, r, n, k);
    c := all;
    var todo := all.Keys;
    while todo != {}
      invariant todo <= all.Keys
      invariant forall k | k in todo :: k in c
      invariant forall k :: k in c <==> k in todo || (k in all && 2 * |all[k]| > OwnLength(s, n, k))
      invariant forall k | k in c :: c[k] == all[k]
      decreases |todo|
    {
      var k :| k in todo;
      if |c[k]| == 0 || 2 * |c[k]| <= OwnLength(s, n, k) {
        c := c - {k};
      }
      todo := todo - {k};
    }
  }

  // ---------- Rewriting one mapping ----------

  /** Replaces the value of an explicit key, or puts a new pair in front. */
  function SetKey(es: seq<Entry>, k: string, v: Id): seq<Entry> {
    if k in EntryMap(es) then Overwrite(es, k, v) else [Entry(k, v)] + es
  }

  function Overwrite(es: seq<Entry>, k: string, v: Id): seq<Entry> {
    if es == [] then []
    else if es[0].key == k then [Entry(k, v)] + es[1..]
    else [es[0]] + Overwrite(es[1..], k, v)
  }

  lemma {:induction false} OverwriteFacts(es: seq<Entry>, k: string, v: Id)
    requires k in EntryMap(es)
    ensures EntryMap(Overwrite(es, k, v)) == EntryMap(es)[k := v]
    ensures |Overwrite(es, k, v)| == |es|
    ensures forall i | 0 <= i < |es| :: Overwrite(es, k, v)[i].key == es[i].key
  {
    if es[0].key != k {
      OverwriteFacts(es[1..], k, v);
      var o := Overwrite(es[1..], k, v);
      assert ([es[0]] + o)[1..] == o;
    } else {
      assert ([Entry(k, v)] + es[1..])[1..] == es[1..];
    }
  }

  lemma SetKeyFacts(es: seq<Entry>, k: string, v: Id)
    requires UniqueKeys(es)
    ensures UniqueKeys(SetKey(es, k, v))
    ensures EntryMap(SetKey(es, k, v)) == EntryMap(es)[k := v]
  {
    if k in EntryMap(es) {
      OverwriteFacts(es, k, v);
    } else {
      forall i | 0 <= i < |es| ensures es[i].key != k { EntryKey(es, i); }
      assert ([Entry(k, v)] + es)[1..] == es;
    }
  }

  /** The store after a mapping's keys in c got new nodes, named by ids. */
  ghost predicate RewriteOf(s: Store, n: Id, c: Collected, s': Store, ids: map<string, Id>) {
    && NewNodes(s, n, c, s', ids)
    && n in s && s[n].Mapping? && n in s' && s'[n].Mapping?
    && UniqueKeys(s'[n].entries)
    && EntryMap(s'[n].entries) == EntryMap(s[n].entries) + ids
  }

  ghost predicate NewNodes(s: Store, n: Id, c: Collected, s': Store, ids: map<string, Id>) {
    && ids.Keys == c.Keys
    && (forall k | k in ids :: ids[k] !in s && ids[k] in s' && s'[ids[k]] == Mapping(c[k]))
    && s'.Keys == s.Keys + ids.Values
    && (forall x | x in s && x != n :: s'[x] == s[x])
  }

  lemma NewNodesStep(s: Store, n: Id, c: Collected, s1: Store, ids: map<string, Id>, k: string, content: seq<Entry>,
                     id: Id, nd: Node)
    requires NewNodes(s, n, c, s1, ids) && n in s && k !in c && id !in s1
    ensures NewNodes(s, n, c[k := content], s1[id := Mapping(content)][n := nd], ids[k := id])
  {
    UpdateValues(ids, k, id);
    assert forall j | j in ids :: ids[j] in s1 && ids[j] != id && ids[j] != n;
  }

  lemma RewriteStep(s: Store, n: Id, c: Collected, s1: Store, ids: map<string, Id>, k: string, content: seq<Entry>,
                    id: Id)
    requires RewriteOf(s, n, c, s1, ids) && k !in c && id !in s1
    ensures RewriteOf(s, n, c[k := content], s1[id := Mapping(content)][n := Mapping(SetKey(s1[n].entries, k, id))],
            ids[k := id])
  {
    hide SetKey, EntryMap, NewNodes;
    SetKeyFacts(s1[n].entries, k, id);
    NewNodesStep(s, n, c, s1, ids, k, content, id, Mapping(SetKey(s1[n].entries, k, id)));
    assert EntryMap(s[n].entries) + ids[k := id] == (EntryMap(s[n].entries) + ids)[k := id];
  }

  lemma RewriteStart(s: Store, n: Id)
    requires n in s && s[n].Mapping? && UniqueKeys(s[n].entries)
    ensures RewriteOf(s, n, map[], s, map[])
  {}

  lemma UpdateValues(ids: map<string, Id>, k: string, id: Id)
    requires k !in ids
    ensures ids[k := id].Values == ids.Values + {id}
  {
    var ids2 := ids[k := id];
    assert ids2[k] == id;
    forall x | x in ids.Values ensures x in ids2.Values {
      var j :| j in ids && ids[j] == x;
      assert ids2[j] == x;
    }
  }

  /** The rewriting loop of fixDeepMerge, over the collected keys in any order. */
  method RewriteMapping(s: Store, n: Id, c: Collected, next: Id)
    returns (s': Store, next': Id, ghost ids: map<string, Id>)
    requires n in s && s[n].Mapping? && UniqueKeys(s[n].entries)
    requires forall x | x in s :: x < next
    ensures RewriteOf(s, n, c, s', ids)
    ensures forall x | x in s' :: x < next'
    ensures c == map[] ==> s' == s
  {
    hide SetKey, RewriteOf;
    s', next', ids := s, next, map[];
    var todo := c.Keys;
    ghost var finished: Collected := map[];
    RewriteStart(s, n);
    while todo != {}
      invariant todo <= c.Keys && finished.Keys == c.Keys - todo
      invariant forall k | k in finished :: finished[k] == c[k]
      invariant forall x | x in s' :: x < next'
      invariant n in s' && s'[n].Mapping?
      invariant RewriteOf(s, n, finished, s', ids)
      invariant todo == c.Keys ==> s' == s
      decreases |todo|
    {
      var k :| k in todo;
      RewriteStep(s, n, finished, s', ids, k, c[k], next');
      s' := s'[next' := Mapping(c[k])][n := Mapping(SetKey(s'[n].entries, k, next'))];
      ids := ids[k := next'];
      next' := next' + 1;
      todo := todo - {k};
      finished := finished[k := c[k]];
    }
    assert c == finished;
  }
}
