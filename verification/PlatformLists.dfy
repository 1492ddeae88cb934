/** Lists of platforms from expressions and settings. */
module PlatformLists {
  import opened Values
  import opened Listing
  import opened Platforms
  import opened PlatformExpressions

  // ---------- NewPlatformList ----------

  predicate HasRemoval(words: seq<string>) { exists w | w in words :: IsRemove(w) }

  predicate HasAddition(words: seq<string>) { exists w | w in words :: IsAdd(w) }

  predicate HasSelection(words: seq<string>) { exists w | w in words :: IsSelect(w) }

  /** The platforms to start from: all of them when the expression only selects, the defaults
      otherwise, together with what is added. */
  ghost predicate Initial(words: seq<string>, p: Platform) {
    || (!HasRemoval(words) && !HasAddition(words)) || p.default
    || Plus("all") in words || exists n :: Plus(n) in words && Named(p, n)
  }

  /** The selection terms of a new list are names; "defaults" is not special among them. */
  ghost predicate Chosen(words: seq<string>, p: Platform) {
    !HasSelection(words) || exists n | n in words :: IsSelect(n) && Named(p, n)
  }

  ghost function Lists(table: seq<Platform>, words: seq<string>): Platform -> bool {
    p => Initial(words, p) && Chosen(words, p) && !Removed(table, words, p) && ("xbuild" in words ==> p.xbuild)
  }

  lemma TermLists(words: seq<string>, t: Terms)
    requires TermsOf(words, t)
    ensures t.adds == [] <==> !HasAddition(words)
    ensures t.removes == [] <==> !HasRemoval(words)
    ensures t.selects == [] <==> !HasSelection(words)
  {
    hide IsSelect;
    AddsEmpty(words, t);
    if t.removes != [] {
      assert t.removes[0] in t.removes;
      WordKinds(Bang(t.removes[0]), t.removes[0]);
    }
    if w :| w in words && IsRemove(w) {
      WordKinds(w, w[1..]);
      assert w[1..] in t.removes;
    }
    if t.selects != [] { assert t.selects[0] in t.selects; }
  }

  /** The addition loop; "all" replaces the list and ends it. */
  method ApplyAdditions(table: seq<Platform>, start: seq<Platform>, adds: seq<string>) returns (out: seq<Platform>)
    requires forall x | x in start :: x in table
    ensures forall x :: x in out <==> x in start || (x in table && exists n | n in adds :: n == "all" || Named(x, n))
  {
    hide Named, Kept;
    out := start;
    for i := 0 to |adds|
      invariant "all" !in adds[..i]
      invariant forall x :: x in out <==> x in start || (x in table && exists n | n in adds[..i] :: Named(x, n))
    {
      assert adds[..i + 1] == adds[..i] + [adds[i]];
      if adds[i] == "all" {
        assert adds[i] in adds;
        return table;
      }
      var some := Select(table, adds[i]);
      out := out + some;
    }
    assert adds[..|adds|] == adds;
  }

  method ApplyNames(list: seq<Platform>, names: seq<string>) returns (out: seq<Platform>)
    ensures forall x :: x in out <==> x in list && exists n | n in names :: Named(x, n)
  {
    hide Named, Kept;
    out := [];
    for i := 0 to |names|
      invariant forall x :: x in out <==> x in list && exists n | n in names[..i] :: Named(x, n)
    {
      assert names[..i + 1] == names[..i] + [names[i]];
      var some := Select(list, names[i]);
      out := out + some;
    }
    assert names[..|names|] == names;
  }

  /** NewPlatformList: the defaults for a blank expression; an invalid one panics. */
  method NewPlatformList(table: seq<Platform>, e: Expr) returns (r: Result<seq<Platform>, Problem>)
    ensures match e
            case Blank => r == Ok(Kept(table, (p: Platform) => p.default))
            case Words(words) =>
              if ValidWords(table, words) then r.Ok? && KeptBy(r.value, table, Lists(table, words))
                  else r == Err(InvalidTerm)
  {
    hide Named, Kept, ValidWords, RemovedBy, IsSelect, IsAdd, IsRemove, KeptBy, Lists;
    if e.Blank? {
      var defaults := Defaults(table);
      return Ok(defaults);
    }
    var terms := ParseExpression(table, e.words);
    if terms.Err? { return Err(terms.error); }
    var t := terms.value;
    TermLists(e.words, t);
    var start := table;
    if |t.removes| > 0 || |t.adds| > 0 {
      start := Defaults(table);
    }
    var out := ApplyAdditions(table, start, t.adds);
    assert forall x :: x in out <==> x in table && Initial(e.words, x) by { InitialIs(table, e.words, t, start); }
    if |t.selects| > 0 {
      out := ApplyNames(out, t.selects);
    }
    assert forall x :: x in out <==>
             x in table && Initial(e.words, x) && Chosen(e.words, x) by { ChosenIs(e.words, t); }
    var kept := ApplyRemovals(table, out, t.removes);
    if t.xbuild {
      kept := FilterList(kept, (p: Platform) => p.xbuild);
    }
    assert forall x :: x in kept <==> x in table && Lists(table, e.words)(x) by { ListsIs(table, e.words, t); }
    var list := Deduplicate(kept);
    DeduplicatedKept(list, kept, table, Lists(table, e.words));
    r := Ok(list);
  }

  lemma InitialIs(table: seq<Platform>, words: seq<string>, t: Terms, start: seq<Platform>)
    requires TermsOf(words, t)
    requires start == if t.removes != [] || t.adds != [] then Kept(table, (p: Platform) => p.default) else table
    ensures forall x | x in table ::
              Initial(words, x) <==> x in start || exists n | n in t.adds :: n == "all" || Named(x, n)
  {
    hide Named, Plus, Bang, IsSelect, IsAdd, IsRemove, Kept;
    TermLists(words, t);
  }

  lemma ChosenIs(words: seq<string>, t: Terms)
    requires TermsOf(words, t)
    ensures forall x :: Chosen(words, x) <==> t.selects == [] || exists n | n in t.selects :: Named(x, n)
  {
    hide Named, Plus, Bang, IsSelect, IsAdd, IsRemove;
    TermLists(words, t);
  }

  lemma ListsIs(table: seq<Platform>, words: seq<string>, t: Terms)
    requires TermsOf(words, t)
    ensures forall x :: Lists(table, words)(x) <==>
              && Initial(words, x) && Chosen(words, x) && (forall n | n in t.removes :: !RemovedBy(table, n, x))
              && (t.xbuild ==> x.xbuild)
  {
    hide Named, Plus, Bang, IsSelect, IsAdd, IsRemove, RemovedBy, Initial, Chosen;
  }

  // ---------- What the documentation says of a new list ----------

  /** By default the initial set is that of the defaults; additions extend it, "+all" to all platforms. */
  ghost predicate DocumentedStart(words: seq<string>, p: Platform) {
    p.default || Plus("all") in words || exists n :: Plus(n) in words && Named(p, n)
  }

  /** Selections and removals are those of a filter: "defaults" and "xbuild" are selections as well. */
  ghost predicate ListedAsDocumented(table: seq<Platform>, words: seq<string>, p: Platform) {
    DocumentedStart(words, p) && Selected(words, p) && !Removed(table, words, p)
  }

  /** What the code selects. */
  ghost predicate Picked(words: seq<string>, p: Platform) {
    Chosen(words, p) && ("xbuild" in words ==> p.xbuild)
  }

  /** Something is removed or added, or every platform selected is a default. */
  ghost predicate StartsAsDocumented(table: seq<Platform>, words: seq<string>) {
    HasRemoval(words) || HasAddition(words) || forall p | p in table && Picked(words, p) :: p.default
  }

  /** Some selection term other than "defaults" names the platform. */
  ghost predicate NamedOtherwise(words: seq<string>, p: Platform) {
    exists n | n in words :: n != "defaults" && IsSelect(n) && Named(p, n)
  }

  ghost predicate SelectedByName(words: seq<string>, p: Platform) {
    exists n | n in words :: IsSelect(n) && SelectedBy(n, p)
  }

  /** With "xbuild" beside other selections, the platform is named if it can be cross-built and not
      selected otherwise; with "defaults" alone, it is named by another term, or a default just if its
      system is called "defaults". */
  ghost predicate SelectsAsDocumented(words: seq<string>, p: Platform) {
    if "xbuild" in words then HasSelection(words) ==> if p.xbuild then Chosen(words, p) else !SelectedByName(words, p)
    else "defaults" in words ==> NamedOtherwise(words, p) || (p.default <==> Named(p, "defaults"))
  }

  lemma PlainWord()
    ensures IsSelect("defaults")
  {
    assert "defaults"[0] == 'd' && "+"[0] == '+' && "!"[0] == '!';
  }

  lemma NamesSplit(words: seq<string>, p: Platform)
    requires "defaults" in words
    ensures HasSelection(words)
    ensures Chosen(words, p) <==> NamedOtherwise(words, p) || Named(p, "defaults")
    ensures SelectedByName(words, p) <==> NamedOtherwise(words, p) || p.default
  {
    hide Named, IsSelect;
    PlainWord();
  }

  lemma NoDefaultsTerm(words: seq<string>, p: Platform)
    requires "defaults" !in words && HasSelection(words)
    ensures Chosen(words, p) <==> SelectedByName(words, p)
  {
    hide Named, IsSelect;
  }

  lemma SelectedIs(words: seq<string>, p: Platform)
    ensures Selected(words, p) <==>
            || ("xbuild" !in words && !HasSelection(words)) || ("xbuild" in words && p.xbuild)
                || SelectedByName(words, p)
    ensures SelectedByName(words, p) ==> HasSelection(words)
  {
    hide Named, IsSelect;
  }

  lemma SelectsAlike(words: seq<string>, p: Platform)
    ensures (Picked(words, p) <==> Selected(words, p)) <==> SelectsAsDocumented(words, p)
  {
    hide Named, IsSelect, Selected, SelectedByName, NamedOtherwise, HasSelection;
    SelectedIs(words, p);
    if "defaults" in words {
      NamesSplit(words, p);
    } else if HasSelection(words) {
      NoDefaultsTerm(words, p);
    }
  }

  /** A new list is the documented one exactly when it starts from the documented set and every platform
      of that set which is not removed is selected as documented. */
  lemma ListedAsDocumentedIff(table: seq<Platform>, words: seq<string>)
    ensures (forall p | p in table :: Lists(table, words)(p) <==> ListedAsDocumented(table, words, p)) <==>
            && StartsAsDocumented(table, words)
            && forall p | p in table && DocumentedStart(words, p) && !Removed(table, words, p) ::
                SelectsAsDocumented(words, p)
  {
    hide Named, Removed, Selected, SelectsAsDocumented, Chosen, IsSelect, HasRemoval, HasAddition;
    forall p
      ensures (Picked(words, p) <==> Selected(words, p)) <==> SelectsAsDocumented(words, p)
      ensures Initial(words, p) <==> DocumentedStart(words, p) || (!HasRemoval(words) && !HasAddition(words))
      ensures Lists(table, words)(p) <==> Initial(words, p) && Picked(words, p) && !Removed(table, words, p)
    {
      SelectsAlike(words, p);
    }
    hide Initial, DocumentedStart, Picked, Lists;
    if !HasRemoval(words) && !HasAddition(words) {
      forall p
        ensures !Removed(table, words, p)
             && (DocumentedStart(words, p) <==> p.default)
      {
        NothingChanged(table, words, p);
      }
    }
  }

  lemma NothingChanged(table: seq<Platform>, words: seq<string>, p: Platform)
    requires !HasRemoval(words) && !HasAddition(words)
    ensures !Removed(table, words, p) && (DocumentedStart(words, p) <==> p.default)
  {
    hide Named, RemovedBy;
    forall n ensures Plus(n) !in words && Bang(n) !in words {
      WordKinds(Plus(n), n);
      WordKinds(Bang(n), n);
    }
  }

  /** Without "xbuild", and in a table with no system called "defaults": exactly when the start is the
      documented one and, if "defaults" is selected, another term names every default not removed. */
  lemma DefaultsNeedAnotherTerm(table: seq<Platform>, words: seq<string>)
    requires "xbuild" !in words && forall p | p in table :: Goos(p.name) != "defaults"
    ensures (forall p | p in table :: Lists(table, words)(p) <==> ListedAsDocumented(table, words, p)) <==>
            && StartsAsDocumented(table, words)
            && ("defaults" in words ==>
                  forall p | p in table && p.default && !Removed(table, words, p) :: NamedOtherwise(words, p))
  {
    hide IsSelect, NamedOtherwise, Lists, ListedAsDocumented, Goos, Arch, StartsAsDocumented, Removed;
    ListedAsDocumentedIff(table, words);
    forall p | p in table ensures !Named(p, "defaults") { NotASystem(p); }
  }

  lemma NotASystem(p: Platform)
    requires Goos(p.name) != "defaults"
    ensures !Named(p, "defaults")
  {
    hide Goos, Arch;
    assert Slash("defaults") == |"defaults"| by {
      var name := "defaults";
      assert forall i | 0 <= i < |name| :: name[i] != '/';
    }
    SystemName("defaults", p);
  }

  // ---------- Expressions that do not give the documented list ----------

  /** An expression of one selection term. */
  lemma OneName(table: seq<Platform>, n: string)
    requires IsSelect(n) && ValidTerm(table, n)
    ensures ValidWords(table, [n])
    ensures forall p :: Lists(table, [n])(p) <==> Named(p, n)
    ensures forall p :: ListedAsDocumented(table, [n], p) <==> p.default && SelectedBy(n, p)
  {
    hide Named, ValidTerm, RemovedBy;
    var words := [n];
    assert n in words && HasSelection(words);
    assert !HasRemoval(words) && !HasAddition(words);
    forall m ensures Plus(m) !in words && Bang(m) !in words {
      WordKinds(n, m);
    }
  }

  /** Selecting "defaults" alone gives nothing, although the documented list is that of all defaults. */
  method SelectDefaults(table: seq<Platform>) returns (r: Result<seq<Platform>, Problem>)
    requires forall p | p in table :: Goos(p.name) != "defaults"
    ensures r == Ok([])
    ensures forall p | p in table :: ListedAsDocumented(table, ["defaults"], p) <==> p.default
  {
    hide Named, Goos, Arch, IsSelect, Lists, ListedAsDocumented, ValidWords;
    PlainWord();
    OneName(table, "defaults");
    forall p | p in table ensures !Named(p, "defaults") { NotASystem(p); }
    r := NewPlatformList(table, Words(["defaults"]));
    NoMembers(r.value);
  }

  /** A name without an architecture stands for its system. */
  lemma SystemName(name: string, p: Platform)
    requires Slash(name) == |name|
    ensures Named(p, name) <==> Goos(p.name) == name
  {
    hide Slash, Goos, Arch, Goarch, Goarm;
    SplitName(name);
    MadeName(name);
    ArchRoundTrip(name);
  }

  lemma Solaris()
    ensures IsSelect("solaris") && "solaris" != "defaults" && Slash("solaris") == |"solaris"|
  {
    var name := "solaris";
    assert name[0] == 's' && "+"[0] == '+' && "!"[0] == '!' && "defaults"[0] == 'd' && "xbuild"[0] == 'x';
    assert forall i | 0 <= i < |name| :: name[i] != '/';
  }

  /** Selecting a system without defaults gives its platforms, although the documented list is empty. */
  method SelectSolaris(table: seq<Platform>) returns (r: Result<seq<Platform>, Problem>)
    requires exists p | p in table :: Goos(p.name) == "solaris"
    requires forall p | p in table && Goos(p.name) == "solaris" :: !p.default
    ensures r.Ok? && r.value != [] && forall p | p in r.value :: Goos(p.name) == "solaris"
    ensures forall p | p in table :: !ListedAsDocumented(table, ["solaris"], p)
  {
    hide Named, Goos, Arch, IsSelect, Lists, ListedAsDocumented, ValidWords;
    Solaris();
    forall p: Platform ensures Named(p, "solaris") <==> Goos(p.name) == "solaris" { SystemName("solaris", p); }
    ghost var some :| some in table && Goos(some.name) == "solaris";
    OneName(table, "solaris");
    r := NewPlatformList(table, Words(["solaris"]));
    assert some.name in Names(r.value);
  }

  /** Beside another selection, "xbuild" narrows it down instead of adding to it. */
  lemma CrossBuildsNarrow(table: seq<Platform>, n: string, p: Platform)
    requires IsSelect(n) && n != "defaults"
    ensures Lists(table, [n, "xbuild"])(p) <==> Named(p, n) && p.xbuild
    ensures ListedAsDocumented(table, [n, "xbuild"], p) <==> p.default && (Named(p, n) || p.xbuild)
  {
    hide Named, RemovedBy;
    var words := [n, "xbuild"];
    assert n in words && "xbuild" in words && HasSelection(words);
    assert !IsAdd("xbuild") && !IsRemove("xbuild") by { OneKind("xbuild"); }
    assert !HasRemoval(words) && !HasAddition(words);
    forall m ensures Plus(m) !in words && Bang(m) !in words {
      WordKinds(n, m);
      WordKinds("xbuild", m);
    }
  }

  // ---------- GetPlatforms ----------

  const LINUX_386 := "linux/386"
  const WINDOWS_386 := "windows/386"

  lemma SlashIs(name: string, i: nat)
    requires i < |name| && name[i] == '/' && forall k | 0 <= k < i :: name[k] != '/'
    ensures Slash(name) == i
  {
    hide Slash;
  }

  lemma Arch386()
    ensures Arch(LINUX_386) == "386" && Arch(WINDOWS_386) == "386"
  {
    hide Slash;
    SlashIs(LINUX_386, 5);
    SlashIs(WINDOWS_386, 7);
  }

  /** A single removal of a full name removes that platform and nothing else. */
  lemma RemovesOnly(table: seq<Platform>, name: string, p: Platform)
    requires Arch(name) != "" && Arch(name) != "armv" && name != "defaults"
    ensures Keeps(table, [Bang(name)])(p) <==> p.name != name
  {
    hide Named, Arch;
    NamedExactly(p, name);
    var w := Bang(name);
    WordKinds(w, name);
    assert OnlyRemovals([w]) by { assert w[0] == '!'; }
    forall n ensures Bang(n) in [w] <==> n == name { WordKinds(w, n); }
  }

  method Get(list: seq<Platform>, name: string) returns (p: Option<Platform>)
    ensures match p
            case Some(x) => x in list && x.name == name
            case None => forall x | x in list :: x.name != name
  {
    for i := 0 to |list|
      invariant forall k | 0 <= k < i :: list[k].name != name
    {
      if list[i].name == name { return Some(list[i]); }
    }
    p := None;
  }

  /** The filter of a setting keeps a platform. */
  ghost predicate Passes(table: seq<Platform>, e: Expr, p: Platform) {
    e.Words? ==> Keeps(table, e.words)(p)
  }

  /** What the settings ask for before any filter: the platforms of the configured expression, or the
      platform of the build machine, or the defaults when it is not in the table. */
  ghost predicate Requested(table: seq<Platform>, cross: Option<Expr>, host: string, p: Platform) {
    match cross
    case Some(Words(words)) => Lists(table, words)(p)
    case Some(Blank) => p.default
    case None => p.name == host || (p.default && forall y | y in table :: y.name != host)
  }

  ghost predicate BadExpr(table: seq<Platform>, e: Expr) { e.Words? && !ValidWords(table, e.words) }

  /** A filter that panics. */
  ghost predicate BadFilter(table: seq<Platform>, e: Expr) {
    BadExpr(table, e) || (e.Words? && exists w | w in e.words :: IsAdd(w))
  }

  method RequestedPlatforms(table: seq<Platform>, cross: Option<Expr>, host: string)
    returns (r: Result<seq<Platform>, Problem>)
    ensures r.Err? <==> cross.Some? && BadExpr(table, cross.value)
    ensures r.Ok? ==> forall x | x in r.value :: x in table && Requested(table, cross, host, x)
    ensures r.Ok? && Coherent(table) ==> forall x | x in table && Requested(table, cross, host, x) :: x in r.value
  {
    hide Lists, Kept, ValidWords;
    if cross.Some? {
      r := NewPlatformList(table, cross.value);
      if r.Ok? && cross.value.Words?
          && Coherent(table) { KeptExactly(r.value, table, Lists(table, cross.value.words)); }
      return;
    }
    var own := Get(table, host);
    if own.Some? {
      r := Ok([own.value]);
    } else {
      var defaults := Defaults(table);
      r := Ok(defaults);
    }
  }

  /** Filter, read off one member at a time. */
  method FilterMembers(table: seq<Platform>, list: seq<Platform>, e: Expr) returns (r: Result<seq<Platform>, Problem>)
    ensures r.Err? <==> BadFilter(table, e)
    ensures r.Ok? ==> forall x | x in r.value :: x in list && Passes(table, e, x)
    ensures r.Ok? && Coherent(list) ==> forall x | x in list && Passes(table, e, x) :: x in r.value
  {
    hide Keeps, ValidWords, IsAdd;
    r := Filter(table, list, e);
    if r.Ok? && e.Words? && Coherent(list) { KeptExactly(r.value, list, Keeps(table, e.words)); }
  }

  /** GetPlatforms: cross is the configured expression, if there is one, and host the platform of the
      build machine. A panic in an expression is an error. */
  method GetPlatforms(table: seq<Platform>, cross: Option<Expr>, host: string, filters: seq<Expr>)
    returns (r: Result<seq<Platform>, Problem>)
    ensures r.Ok? ==> forall x | x in r.value :: x.name != LINUX_386 && x.name != WINDOWS_386
    ensures r.Ok? ==> forall x | x in r.value ::
            x in table && Requested(table, cross, host, x) && PassesAll(table, filters, x)
    ensures r.Ok? && Coherent(table) ==>
              forall x | x in table && Requested(table, cross, host, x) && x.name != LINUX_386 && x.name != WINDOWS_386
                  && PassesAll(table, filters, x) ::
                x in r.value
    ensures r.Err? <==>
              || (cross.Some? && BadExpr(table, cross.value))
              || BadFilter(table, Words([Bang(LINUX_386)])) || BadFilter(table, Words([Bang(WINDOWS_386)]))
              || exists i | 0 <= i < |filters| :: BadFilter(table, filters[i])
  {
    hide BadFilter, BadExpr, Requested, Passes, Coherent;
    var list := RequestedPlatforms(table, cross, host);
    if list.Err? { return Err(list.error); }
    ghost var first := list.value;
    var kept := FilterMembers(table, list.value, Words([Bang(LINUX_386)]));
    if kept.Err? { return Err(kept.error); }
    ghost var second := kept.value;
    SublistCoherent(table, first);
    SublistCoherent(table, second);
    kept := FilterMembers(table, kept.value, Words([Bang(WINDOWS_386)]));
    if kept.Err? { return Err(kept.error); }
    var platforms := kept.value;
    forall x ensures Passes(table, Words([Bang(LINUX_386)]), x) && Passes(table, Words([Bang(WINDOWS_386)]), x)
                     <==> x.name != LINUX_386 && x.name != WINDOWS_386 { No386(table, x); }
    for i := 0 to |filters|
      invariant forall x | x in platforms ::
                x in first && x.name != LINUX_386 && x.name != WINDOWS_386 && PassesAll(table, filters[..i], x)
      invariant Coherent(table) ==>
                  forall x | x in first && x.name != LINUX_386 && x.name != WINDOWS_386
                      && PassesAll(table, filters[..i], x) :: x in platforms
      invariant forall k | 0 <= k < i :: !BadFilter(table, filters[k])
    {
      SublistCoherent(table, platforms);
      kept := FilterMembers(table, platforms, filters[i]);
      if kept.Err? { return Err(kept.error); }
      platforms := kept.value;
      assert filters[..i + 1] == filters[..i] + [filters[i]];
    }
    assert filters[..|filters|] == filters;
    r := Ok(platforms);
  }

  ghost predicate PassesAll(table: seq<Platform>, filters: seq<Expr>, x: Platform) {
    forall i | 0 <= i < |filters| :: Passes(table, filters[i], x)
  }

  lemma SublistCoherent(table: seq<Platform>, list: seq<Platform>)
    requires forall x | x in list :: x in table
    ensures Coherent(table) ==> Coherent(list)
  {}

  lemma No386(table: seq<Platform>, x: Platform)
    ensures Passes(table, Words([Bang(LINUX_386)]), x) <==> x.name != LINUX_386
    ensures Passes(table, Words([Bang(WINDOWS_386)]), x) <==> x.name != WINDOWS_386
  {
    hide Keeps, Arch;
    Arch386();
    RemovesOnly(table, LINUX_386, x);
    RemovesOnly(table, WINDOWS_386, x);
  }
}
