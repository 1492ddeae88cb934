/** Expressions over build platforms: parsing, Filter, NewPlatformList and GetPlatforms. The table of
    all platforms is a parameter. */
module PlatformExpressions {
  import opened Values
  import opened Listing
  import opened Platforms

  /** An expression is blank or a list of words. */
  datatype Expr = Blank | Words(words: seq<string>)

  datatype Problem = InvalidTerm | AddInFilter

  datatype Terms = Terms(adds: seq<string>, selects: seq<string>, xbuild: bool, removes: seq<string>)

  // ---------- Parsing ----------

  function Plus(n: string): string { "+" + n }

  function Bang(n: string): string { "!" + n }

  predicate IsAdd(w: string) { HasPrefix(w, "+") }

  predicate IsRemove(w: string) { HasPrefix(w, "!") }

  predicate IsSelect(w: string) { !IsAdd(w) && !IsRemove(w) && w != "xbuild" }

  ghost predicate TermsOf(words: seq<string>, t: Terms) {
    && (forall n :: n in t.adds <==> Plus(n) in words)
    && (forall n :: n in t.removes <==> Bang(n) in words)
    && (forall n :: n in t.selects <==> n in words && IsSelect(n))
    && (t.xbuild <==> "xbuild" in words)
  }

  predicate ValidTerm(table: seq<Platform>, n: string) {
    n == "all" || n == "defaults" || exists i | 0 <= i < |table| :: table[i].name == n || Goos(table[i].name) == n
  }

  ghost predicate ValidWords(table: seq<Platform>, words: seq<string>) {
    forall n :: (Plus(n) in words || Bang(n) in words || (n in words && IsSelect(n))) ==> ValidTerm(table, n)
  }

  method SplitWords(words: seq<string>) returns (t: Terms)
    ensures TermsOf(words, t)
  {
    hide TermsOf;
    t := Terms([], [], false, []);
    NoTerms();
    for i := 0 to |words|
      invariant TermsOf(words[..i], t)
    {
      var w := words[i];
      assert words[..i + 1] == words[..i] + [w];
      SplitStep(words[..i], w, t);
      if HasPrefix(w, "+") {
        t := t.(adds := t.adds + [w[1..]]);
      } else if HasPrefix(w, "!") {
        t := t.(removes := t.removes + [w[1..]]);
      } else if w == "xbuild" {
        t := t.(xbuild := true);
      } else {
        t := t.(selects := t.selects + [w]);
      }
    }
    assert words[..|words|] == words;
  }

  lemma NoTerms()
    ensures TermsOf([], Terms([], [], false, []))
  {}

  /** The word without its first character. */
  function Tail(w: string): string { if w == "" then "" else w[1..] }

  lemma SplitStep(words: seq<string>, w: string, t: Terms)
    requires TermsOf(words, t)
    ensures TermsOf(words + [w],
                    if IsAdd(w) then t.(adds := t.adds + [Tail(w)])
                    else if IsRemove(w) then t.(removes := t.removes + [Tail(w)])
                    else if w == "xbuild" then t.(xbuild := true)
                    else t.(selects := t.selects + [w]))
  {
    hide Plus, Bang, IsAdd, IsRemove, Tail;
    OneKind(w);
    WordsSnoc(words, w);
  }

  lemma WordsSnoc(words: seq<string>, w: string)
    ensures forall n :: Plus(n) in words + [w] <==> Plus(n) in words || (IsAdd(w) && n == Tail(w))
    ensures forall n :: Bang(n) in words + [w] <==> Bang(n) in words || (IsRemove(w) && n == Tail(w))
  {
    hide Plus, Bang, IsAdd, IsRemove, Tail;
    forall n
      ensures (Plus(n) == w <==> IsAdd(w) && Tail(w) == n)
           && (Bang(n) == w <==> IsRemove(w) && Tail(w) == n)
    {
      WordKinds(w, n);
    }
  }

  lemma OneKind(w: string)
    ensures !(IsAdd(w) && IsRemove(w)) && (IsAdd(w) || IsRemove(w) ==> w != "xbuild")
  {
    assert "xbuild"[0] == 'x' && "+"[0] == '+' && "!"[0] == '!';
    if IsAdd(w) { assert w[0] == w[..1][0]; }
    if IsRemove(w) { assert w[0] == w[..1][0]; }
  }

  lemma WordKinds(w: string, n: string)
    ensures Plus(n) == w <==> IsAdd(w) && Tail(w) == n
    ensures Bang(n) == w <==> IsRemove(w) && Tail(w) == n
  {
    if w != "" { assert w == [w[0]] + w[1..]; }
  }

  method CheckTerm(table: seq<Platform>, name: string) returns (valid: bool)
    ensures valid == ValidTerm(table, name)
  {
    if name == "all" || name == "defaults" { return true; }
    for i := 0 to |table|
      invariant forall k | 0 <= k < i :: table[k].name != name && Goos(table[k].name) != name
    {
      if table[i].name == name || Goos(table[i].name) == name { return true; }
    }
    valid := false;
  }

  /** newPlatformExpression. */
  method ParseExpression(table: seq<Platform>, words: seq<string>) returns (r: Result<Terms, Problem>)
    ensures if ValidWords(table, words) then r.Ok? && TermsOf(words, r.value) else r == Err(InvalidTerm)
  {
    hide IsSelect, ValidTerm;
    var t := SplitWords(words);
    var checks := t.adds + t.selects + t.removes;
    for i := 0 to |checks|
      invariant forall k | 0 <= k < i :: ValidTerm(table, checks[k])
    {
      var valid := CheckTerm(table, checks[i]);
      if !valid {
        assert checks[i] in checks;
        return Err(InvalidTerm);
      }
    }
    assert forall n | n in checks :: ValidTerm(table, n);
    r := Ok(t);
  }

  // ---------- What expressions mean ----------

  /** A removal term takes away what it names; "defaults" takes away the default platforms of the table. */
  ghost predicate RemovedBy(table: seq<Platform>, n: string, p: Platform) {
    if n == "defaults" then exists i | 0 <= i < |table| :: table[i].default && Named(p, table[i].name) else Named(p, n)
  }

  ghost predicate Removed(table: seq<Platform>, words: seq<string>, p: Platform) {
    exists n :: Bang(n) in words && RemovedBy(table, n, p)
  }

  predicate SelectedBy(n: string, p: Platform) { if n == "defaults" then p.default else Named(p, n) }

  predicate OnlyRemovals(words: seq<string>) { "xbuild" !in words && forall n | n in words :: !IsSelect(n) }

  ghost predicate Selected(words: seq<string>, p: Platform) {
    OnlyRemovals(words) || ("xbuild" in words && p.xbuild) || exists n | n in words :: IsSelect(n) && SelectedBy(n, p)
  }

  ghost function Keeps(table: seq<Platform>, words: seq<string>): Platform -> bool {
    p => Selected(words, p) && !Removed(table, words, p)
  }

  /** The members of a list that satisfy a predicate, one per name, by name. */
  ghost predicate KeptBy(out: seq<Platform>, list: seq<Platform>, keep: Platform -> bool) {
    ListingOf(Names(out), set x | x in list && keep(x) :: x.name) && forall x | x in out :: x in list && keep(x)
  }

  /** Platforms of one name are equal. */
  ghost predicate Coherent(list: seq<Platform>) {
    forall x, y | x in list && y in list && x.name == y.name :: x == y
  }

  /** Exactly the members that satisfy the predicate. */
  lemma KeptExactly(out: seq<Platform>, list: seq<Platform>, keep: Platform -> bool)
    requires KeptBy(out, list, keep) && Coherent(list)
    ensures forall x :: x in out <==> x in list && keep(x)
  {
    hide Sorted;
    forall x | x in list && keep(x) ensures x in out {
      assert x.name in Names(out);
      var i :| 0 <= i < |out| && Names(out)[i] == x.name;
      assert out[i] in out;
    }
  }

  /** The list is determined by its members. */
  lemma KeptUnique(a: seq<Platform>, b: seq<Platform>, list: seq<Platform>, keep: Platform -> bool)
    requires KeptBy(a, list, keep) && KeptBy(b, list, keep) && Coherent(list)
    ensures a == b
  {
    hide ListingOf;
    ListingUnique(Names(a), Names(b), set x | x in list && keep(x) :: x.name);
    forall i | 0 <= i < |a| ensures a[i] == b[i] {
      assert Names(a)[i] == a[i].name && Names(b)[i] == b[i].name;
      assert a[i] in a && b[i] in b;
    }
  }

  lemma KeptTwice(a: seq<Platform>, b: seq<Platform>, list: seq<Platform>, p: Platform -> bool, q: Platform -> bool)
    requires Coherent(list) && KeptBy(a, list, p) && KeptBy(b, a, q)
    ensures KeptBy(b, list, Both(p, q))
  {
    hide ListingOf, Coherent;
    KeptExactly(a, list, p);
    assert forall x :: x in a && q(x) <==> x in list && Both(p, q)(x);
    SameNames(a, q, list, Both(p, q));
  }

  lemma SameNames(a: seq<Platform>, p: Platform -> bool, b: seq<Platform>, q: Platform -> bool)
    requires forall x :: x in a && p(x) <==> x in b && q(x)
    ensures (set x | x in a && p(x) :: x.name) == set x | x in b && q(x) :: x.name
  {}

  ghost function Both(p: Platform -> bool, q: Platform -> bool): Platform -> bool { (x: Platform) => p(x) && q(x) }

  lemma KeptEqual(a: seq<Platform>, list: seq<Platform>, p: Platform -> bool, q: Platform -> bool)
    requires KeptBy(a, list, p) && forall x :: p(x) <==> q(x)
    ensures KeptBy(a, list, q)
  {
    hide ListingOf;
    SameNames(list, p, list, q);
  }

  /** Filtering again changes nothing. */
  lemma FilterIdempotent(list: seq<Platform>, keep: Platform -> bool, a: seq<Platform>, b: seq<Platform>)
    requires Coherent(list) && KeptBy(a, list, keep) && KeptBy(b, a, keep)
    ensures a == b
  {
    hide KeptBy, Coherent;
    KeptTwice(a, b, list, keep, keep);
    KeptEqual(b, list, Both(keep, keep), keep);
    KeptUnique(a, b, list, keep);
  }

  /** The order of two filters does not matter. */
  lemma FiltersCommute(list: seq<Platform>, p: Platform -> bool, q: Platform -> bool,
                       a: seq<Platform>, b: seq<Platform>, c: seq<Platform>, d: seq<Platform>)
    requires Coherent(list) && KeptBy(a, list, p) && KeptBy(b, a, q) && KeptBy(c, list, q) && KeptBy(d, c, p)
    ensures b == d
  {
    hide KeptBy, Coherent;
    KeptTwice(a, b, list, p, q);
    KeptTwice(c, d, list, q, p);
    KeptEqual(d, list, Both(q, p), Both(p, q));
    KeptUnique(b, d, list, Both(p, q));
  }

  // ---------- Filter ----------

  method Defaults(list: seq<Platform>) returns (out: seq<Platform>)
    ensures out == Kept(list, (p: Platform) => p.default)
  {
    out := FilterList(list, (p: Platform) => p.default);
  }

  /** The removal loop, shared by both constructions. */
  method ApplyRemovals(table: seq<Platform>, list: seq<Platform>, removes: seq<string>) returns (out: seq<Platform>)
    ensures forall x :: x in out <==> x in list && forall n | n in removes :: !RemovedBy(table, n, x)
  {
    hide Named, Kept;
    out := list;
    for i := 0 to |removes|
      invariant forall x :: x in out <==> x in list && forall n | n in removes[..i] :: !RemovedBy(table, n, x)
    {
      hide RemovedBy;
      assert removes[..i + 1] == removes[..i] + [removes[i]];
      ghost var before := out;
      if removes[i] == "defaults" {
        out := RemoveDefaults(table, out);
      } else {
        out := Remove(out, removes[i]);
      }
      assert forall x :: x in out <==>
               x in before && !RemovedBy(table, removes[i], x) by { TermRemoved(table, removes[i]); }
    }
    assert removes[..|removes|] == removes;
  }

  lemma TermRemoved(table: seq<Platform>, n: string)
    ensures n != "defaults" ==> forall x :: RemovedBy(table, n, x) <==> Named(x, n)
    ensures n == "defaults" ==> forall x :: RemovedBy(table, n, x) <==> NamedByDefault(table, x)
  {
    hide Named;
  }

  predicate NamedByDefault(table: seq<Platform>, x: Platform) {
    exists i | 0 <= i < |table| :: table[i].default && Named(x, table[i].name)
  }

  method RemoveDefaults(table: seq<Platform>, list: seq<Platform>) returns (out: seq<Platform>)
    ensures forall x :: x in out <==> x in list && !NamedByDefault(table, x)
  {
    hide Named, Kept;
    var defaults := Defaults(table);
    out := list;
    for i := 0 to |defaults|
      invariant forall x :: x in out <==> x in list && forall k | 0 <= k < i :: !Named(x, defaults[k].name)
    {
      out := Remove(out, defaults[i].name);
    }
    forall x ensures NamedByDefault(table, x) <==> exists k | 0 <= k < |defaults| :: Named(x, defaults[k].name) {
      if i :| 0 <= i < |table| && table[i].default && Named(x, table[i].name) {
        assert table[i] in defaults;
      }
      if k :| 0 <= k < |defaults| && Named(x, defaults[k].name) {
        assert defaults[k] in defaults && defaults[k] in table;
      }
    }
  }

  method ApplySelections(list: seq<Platform>, start: seq<Platform>, selects: seq<string>) returns (out: seq<Platform>)
    ensures forall x :: x in out <==> x in start || (x in list && exists n | n in selects :: SelectedBy(n, x))
  {
    hide Named, Kept;
    out := start;
    for i := 0 to |selects|
      invariant forall x :: x in out <==> x in start || (x in list && exists n | n in selects[..i] :: SelectedBy(n, x))
    {
      assert selects[..i + 1] == selects[..i] + [selects[i]];
      var some;
      if selects[i] == "defaults" {
        some := Defaults(list);
      } else {
        some := Select(list, selects[i]);
      }
      assert forall x :: x in some <==> x in list && SelectedBy(selects[i], x);
      out := out + some;
    }
    assert selects[..|selects|] == selects;
  }

  /** Filter: a blank expression keeps the list as it is; additions are refused. */
  method Filter(table: seq<Platform>, list: seq<Platform>, e: Expr) returns (r: Result<seq<Platform>, Problem>)
    ensures match e
            case Blank => r == Ok(list)
            case Words(words) =>
              if !ValidWords(table, words) then r == Err(InvalidTerm)
              else if exists w | w in words :: IsAdd(w) then r == Err(AddInFilter)
              else r.Ok? && KeptBy(r.value, list, Keeps(table, words))
  {
    hide Named, Kept, ValidWords, SelectedBy, RemovedBy, IsSelect, KeptBy, Keeps;
    if e.Blank? { return Ok(list); }
    var terms := ParseExpression(table, e.words);
    if terms.Err? { return Err(terms.error); }
    var t := terms.value;
    AddsEmpty(e.words, t);
    if |t.adds| > 0 { return Err(AddInFilter); }
    var start := [];
    if |t.selects| == 0 && !t.xbuild {
      start := list;
    }
    if t.xbuild {
      var some := FilterList(list, (p: Platform) => p.xbuild);
      start := start + some;
    }
    var selected := ApplySelections(list, start, t.selects);
    var kept := ApplyRemovals(table, selected, t.removes);
    SelectsEmpty(e.words, t);
    forall x ensures x in kept <==> x in list && Keeps(table, e.words)(x) {
      KeepsIs(table, e.words, t, x);
    }
    var out := Deduplicate(kept);
    DeduplicatedKept(out, kept, list, Keeps(table, e.words));
    r := Ok(out);
  }

  lemma AddsEmpty(words: seq<string>, t: Terms)
    requires TermsOf(words, t)
    ensures t.adds == [] <==> !exists w | w in words :: IsAdd(w)
  {
    if t.adds != [] {
      assert t.adds[0] in t.adds;
      WordKinds(Plus(t.adds[0]), t.adds[0]);
    }
    if w :| w in words && IsAdd(w) {
      WordKinds(w, w[1..]);
      assert w[1..] in t.adds;
    }
  }

  lemma SelectsEmpty(words: seq<string>, t: Terms)
    requires TermsOf(words, t)
    ensures (t.selects == [] && !t.xbuild) <==> OnlyRemovals(words)
  {
    hide IsSelect;
    if t.selects != [] { assert t.selects[0] in t.selects; }
  }

  lemma KeepsIs(table: seq<Platform>, words: seq<string>, t: Terms, x: Platform)
    requires TermsOf(words, t)
    ensures Keeps(table, words)(x) <==>
            && (OnlyRemovals(words) || (t.xbuild && x.xbuild) || exists n | n in t.selects :: SelectedBy(n, x))
            && forall n | n in t.removes :: !RemovedBy(table, n, x)
  {
    hide OnlyRemovals, SelectedBy, RemovedBy, IsSelect, Plus, Bang;
  }

  lemma DeduplicatedKept(out: seq<Platform>, kept: seq<Platform>, list: seq<Platform>, keep: Platform -> bool)
    requires ListingOf(Names(out), set x | x in kept :: x.name) && forall x | x in out :: LastNamed(kept, x)
    requires forall x :: x in kept <==> x in list && keep(x)
    ensures KeptBy(out, list, keep)
  {
    hide ListingOf;
    assert (set x | x in kept :: x.name) == set x | x in list && keep(x) :: x.name;
  }
}
