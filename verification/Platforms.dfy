/** Build platforms: names and their attributes, and lists of platforms filtered by expressions. */
module Platforms {
  import opened Listing

  datatype Platform = Platform(name: string, cgo: bool, xbuild: bool, default: bool)

  // ---------- Names ----------

  function Slash(name: string): (i: nat)
    ensures i <= |name| && (i < |name| ==> name[i] == '/') && forall k | 0 <= k < i :: name[k] != '/'
  {
    if name == "" || name[0] == '/' then 0 else 1 + Slash(name[1..])
  }

  function Goos(name: string): string { name[..Slash(name)] }

  function Arch(name: string): string { if Slash(name) == |name| then "" else name[Slash(name) + 1..] }

  predicate HasPrefix(s: string, prefix: string) { |prefix| <= |s| && s[..|prefix|] == prefix }

  /** The ARM version is part of the architecture in a name. */
  function Goarch(name: string): string { if HasPrefix(Arch(name), "armv") then "arm" else Arch(name) }

  function Goarm(name: string): string { if HasPrefix(Arch(name), "armv") then Arch(name)[4..] else "" }

  datatype Attributes = Attributes(name: string, goos: string, goarch: string, goarm: string, arch: string)

  function MakeAttributes(goos: string, goarch: string, goarm: string): Attributes {
    var arch := if goarch == "arm" && goarm != "" then goarch + "v" + goarm else goarch;
    Attributes(if arch != "" then goos + "/" + arch else goos, goos, goarch, goarm, arch)
  }

  function AttributesOf(name: string): Attributes { MakeAttributes(Goos(name), Goarch(name), Goarm(name)) }

  /** The architecture survives the split into GOARCH and GOARM unless it is a bare "armv". */
  lemma ArchRoundTrip(name: string)
    ensures AttributesOf(name).arch == Arch(name) <==> Arch(name) != "armv"
    ensures AttributesOf(name).arch == "" <==> Arch(name) == ""
  {
    var arch := Arch(name);
    if HasPrefix(arch, "armv") {
      assert arch == "arm" + "v" + arch[4..];
      assert arch[4..] == "" ==> arch == "armv";
    }
  }

  lemma SplitName(name: string)
    ensures Slash(name) < |name| ==> name == Goos(name) + "/" + Arch(name)
    ensures Slash(name) == |name| ==> name == Goos(name) && Arch(name) == ""
  {
    hide Slash;
    var i := Slash(name);
    if i < |name| {
      CutAt(name, i);
      assert [name[i]] == "/";
    }
  }

  lemma CutAt(s: string, i: nat)
    requires i < |s|
    ensures s == s[..i] + [s[i]] + s[i + 1..]
  {}

  lemma MadeName(name: string)
    ensures var a := AttributesOf(name);
            a.goos == Goos(name) && a.name == if a.arch != "" then a.goos + "/" + a.arch else a.goos
  {
    hide Goos, Goarch, Goarm;
  }

  lemma JoinInjective(goos: string, a: string, b: string)
    requires goos + "/" + a == goos + "/" + b
    ensures a == b
  {
    assert a == (goos + "/" + a)[|goos| + 1..];
    assert b == (goos + "/" + b)[|goos| + 1..];
  }

  /** The name of the attributes is the name they were made from, except after a bare "armv" or a
      slash with nothing behind it. */
  lemma NameRoundTrip(name: string)
    ensures AttributesOf(name).name == name <==> Arch(name) != "armv" && (Slash(name) < |name| ==> Arch(name) != "")
  {
    hide Slash, Goos, Arch, AttributesOf;
    ArchRoundTrip(name);
    SplitName(name);
    MadeName(name);
    var a := AttributesOf(name);
    if Slash(name) < |name| && a.name == name && a.arch != "" {
      JoinInjective(Goos(name), a.arch, Arch(name));
    }
    if Slash(name) < |name| && a.arch == "" {
      assert |name| == |Goos(name)| + 1;
    }
  }

  /** What a term of an expression stands for: a system, or a system and an architecture. */
  predicate Named(p: Platform, term: string) {
    var a := AttributesOf(term);
    Goos(p.name) == a.goos && (a.arch == "" || Arch(p.name) == a.arch)
  }

  /** A full name stands for the platform of that name and no other. */
  lemma NamedExactly(p: Platform, term: string)
    requires Arch(term) != "" && Arch(term) != "armv"
    ensures Named(p, term) <==> p.name == term
  {
    hide Slash, Goos, Arch, AttributesOf;
    ArchRoundTrip(term);
    MadeName(term);
    SplitName(term);
    SplitName(p.name);
  }

  // ---------- Lists ----------

  function Kept(list: seq<Platform>, p: Platform -> bool): (out: seq<Platform>)
    ensures forall x :: x in out <==> x in list && p(x)
  {
    if list == [] then []
    else
      var last := list[|list| - 1];
      assert list == list[..|list| - 1] + [last];
      Kept(list[..|list| - 1], p) + (if p(last) then [last] else [])
  }

  /** filter: the matching platforms, in order. */
  method FilterList(list: seq<Platform>, p: Platform -> bool) returns (out: seq<Platform>)
    ensures out == Kept(list, p)
  {
    out := [];
    for i := 0 to |list|
      invariant out == Kept(list[..i], p)
    {
      assert list[..i + 1][..i] == list[..i];
      if p(list[i]) { out := out + [list[i]]; }
    }
    assert list[..|list|] == list;
  }

  method Select(list: seq<Platform>, term: string) returns (out: seq<Platform>)
    ensures out == Kept(list, p => Named(p, term))
  {
    var a := AttributesOf(term);
    if a.arch == "" {
      out := FilterList(list, (p: Platform) => Goos(p.name) == a.goos);
      KeptSame(list, (p: Platform) => Goos(p.name) == a.goos, p => Named(p, term));
    } else {
      out := FilterList(list, (p: Platform) => Goos(p.name) == a.goos && Arch(p.name) == a.arch);
      KeptSame(list, (p: Platform) => Goos(p.name) == a.goos && Arch(p.name) == a.arch, p => Named(p, term));
    }
  }

  method Remove(list: seq<Platform>, term: string) returns (out: seq<Platform>)
    ensures out == Kept(list, p => !Named(p, term))
  {
    var a := AttributesOf(term);
    if a.arch == "" {
      out := FilterList(list, (p: Platform) => Goos(p.name) != a.goos);
      KeptSame(list, (p: Platform) => Goos(p.name) != a.goos, p => !Named(p, term));
    } else {
      out := FilterList(list, (p: Platform) => !(Goos(p.name) == a.goos && Arch(p.name) == a.arch));
      KeptSame(list, (p: Platform) => !(Goos(p.name) == a.goos && Arch(p.name) == a.arch), p => !Named(p, term));
    }
  }

  lemma {:induction false} KeptSame(list: seq<Platform>, p: Platform -> bool, q: Platform -> bool)
    requires forall x :: p(x) <==> q(x)
    ensures Kept(list, p) == Kept(list, q)
  {
    if list != [] { KeptSame(list[..|list| - 1], p, q); }
  }

  function Names(list: seq<Platform>): (names: seq<string>)
    ensures |names| == |list| && forall i | 0 <= i < |list| :: names[i] == list[i].name
  {
    seq(|list|, i requires 0 <= i < |list| => list[i].name)
  }

  /** The last of the platforms with its name. */
  ghost predicate LastNamed(list: seq<Platform>, x: Platform) {
    exists i | 0 <= i < |list| :: list[i] == x && forall j | i < j < |list| :: list[j].name != x.name
  }

  lemma LastNamedSnoc(list: seq<Platform>, p: Platform, x: Platform)
    requires x == p || (LastNamed(list, x) && x.name != p.name)
    ensures LastNamed(list + [p], x)
  {
    if x == p {
      assert (list + [p])[|list|] == x;
    } else {
      var i :| 0 <= i < |list| && list[i] == x && forall j | i < j < |list| :: list[j].name != x.name;
      assert (list + [p])[i] == x;
    }
  }

  method ByName(list: seq<Platform>) returns (byName: map<string, Platform>)
    ensures byName.Keys == set x | x in list :: x.name
    ensures forall n | n in byName :: byName[n].name == n && LastNamed(list, byName[n])
  {
    hide LastNamed;
    byName := map[];
    for i := 0 to |list|
      invariant byName.Keys == set x | x in list[..i] :: x.name
      invariant forall n | n in byName :: byName[n].name == n && LastNamed(list[..i], byName[n])
    {
      assert list[..i + 1] == list[..i] + [list[i]];
      var after := byName[list[i].name := list[i]];
      forall n | n in after ensures LastNamed(list[..i + 1], after[n]) { LastNamedSnoc(list[..i], list[i], after[n]); }
      byName := after;
    }
    assert list[..|list|] == list;
  }

  /** deduplicate: one platform per name, the last of each, by name. */
  method Deduplicate(list: seq<Platform>) returns (out: seq<Platform>)
    ensures ListingOf(Names(out), set x | x in list :: x.name)
    ensures forall x | x in out :: LastNamed(list, x)
  {
    hide ListingOf, LastNamed;
    var byName := ByName(list);
    var names := SortStrings(byName.Keys);
    InListing(names, byName.Keys);
    out := [];
    for i := 0 to |names|
      invariant |out| == i && forall k | 0 <= k < i :: out[k] == byName[names[k]]
    {
      out := out + [byName[names[i]]];
    }
    assert Names(out) == names;
  }

  lemma InListing(names: seq<string>, s: set<string>)
    requires ListingOf(names, s)
    ensures forall i | 0 <= i < |names| :: names[i] in s
  {
    assert forall i | 0 <= i < |names| :: names[i] in names;
  }
}
