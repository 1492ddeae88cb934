/** Loading the input specifications of a directory: validation of one file, and the detection of
    names and aliases that clash across files. */
module RuntimeSpecs {
  import opened Values

  datatype Command = Command(name: string, args: seq<string>)

  datatype InputSpec = InputSpec(
    name: string, aliases: seq<string>, platforms: seq<string>, outputs: seq<string>,
    command: Option<Command>, service: bool, isolateUnits: bool)

  datatype Spec = Spec(version: int, inputs: seq<InputSpec>)

  // ---------- Spec.Validate ----------

  predicate DefinedBefore(inputs: seq<InputSpec>, j: nat)
    requires j < |inputs|
  {
    exists i | 0 <= i < j :: inputs[i].name == inputs[j].name
  }

  /** A platform of an input that an earlier input of the same name has, or that it repeats. */
  predicate Redefines(inputs: seq<InputSpec>, j: nat, q: nat)
    requires j < |inputs| && q < |inputs[j].platforms|
  {
    var p := inputs[j].platforms[q];
    p in inputs[j].platforms[..q]
        || exists i | 0 <= i < j :: inputs[i].name == inputs[j].name && p in inputs[i].platforms
  }

  /** What Validate accepts. */
  predicate Accepted(s: Spec) {
    s.version == 2
    && forall j, q | 0 <= j < |s.inputs| && 0 <= q < |s.inputs[j].platforms| ::
         DefinedBefore(s.inputs, j) ==> !Redefines(s.inputs, j, q)
  }

  /** The platforms recorded for each name after the first n inputs. */
  ghost predicate Recorded(inputs: seq<InputSpec>, n: nat, m: map<string, seq<string>>)
    requires n <= |inputs|
  {
    && (forall name :: name in m <==> exists i | 0 <= i < n :: inputs[i].name == name)
    && (forall name, p | name in m :: p in m[name] <==>
          exists i | 0 <= i < n :: inputs[i].name == name && p in inputs[i].platforms)
  }

  method Validate(s: Spec) returns (ok: bool)
    ensures ok <==> Accepted(s)
  {
    if s.version != 2 { return false; }
    var inputsToPlatforms: map<string, seq<string>> := map[];
    for j := 0 to |s.inputs|
      invariant Recorded(s.inputs, j, inputsToPlatforms)
      invariant forall i, q | 0 <= i < j && 0 <= q < |s.inputs[i].platforms| ::
                  DefinedBefore(s.inputs, i) ==> !Redefines(s.inputs, i, q)
    {
      var name, platforms := s.inputs[j].name, s.inputs[j].platforms;
      if name !in inputsToPlatforms {
        inputsToPlatforms := inputsToPlatforms[name := platforms];
        continue;
      }
      var a := inputsToPlatforms[name];
      ghost var before := a;
      for q := 0 to |platforms|
        invariant forall p :: p in a <==> p in before || p in platforms[..q]
        invariant forall k | 0 <= k < q :: !Redefines(s.inputs, j, k)
      {
        if platforms[q] in a {
          assert Redefines(s.inputs, j, q);
          return false;
        }
        a := a + [platforms[q]];
      }
      assert platforms[..|platforms|] == platforms;
      inputsToPlatforms := inputsToPlatforms[name := a];
    }
    return true;
  }

  /** In an accepted file, inputs of one name share no platform. */
  lemma AcceptedNamesDisjoint(s: Spec, i: nat, j: nat, platform: string)
    requires Accepted(s) && i < |s.inputs| && j < |s.inputs| && i != j && s.inputs[i].name == s.inputs[j].name
    ensures !(platform in s.inputs[i].platforms && platform in s.inputs[j].platforms)
  {
    if platform in s.inputs[i].platforms && platform in s.inputs[j].platforms {
      var a, b := if i < j then i else j, if i < j then j else i;
      var q :| 0 <= q < |s.inputs[b].platforms| && s.inputs[b].platforms[q] == platform;
      assert DefinedBefore(s.inputs, b);
      assert Redefines(s.inputs, b, q);
      assert false;
    }
  }

  // ---------- LoadRuntimeSpecs ----------

  datatype InputRuntimeSpec = InputRuntimeSpec(inputType: string, binaryName: string, spec: InputSpec)

  /** inputTypes lists every input, inputSpecs and aliases only those of the platform. */
  datatype Loaded = Loaded(inputTypes: seq<string>, inputSpecs: map<string, InputRuntimeSpec>,
                           aliases: map<string, string>)

  type Files = map<string, Spec>

  /** An input by its file and its place in it. */
  type Position = (string, nat)

  predicate Has(files: Files, p: Position) {
    p.0 in files && p.1 < |files[p.0].inputs|
  }

  function At(files: Files, p: Position): InputSpec
    requires Has(files, p)
  {
    files[p.0].inputs[p.1]
  }

  predicate Supported(files: Files, platform: string, p: Position) {
    Has(files, p) && platform in At(files, p).platforms
  }

  /** Two inputs claim the same string as name or alias. */
  predicate Clash(a: InputSpec, b: InputSpec) {
    || a.name == b.name
    || a.name in b.aliases
    || b.name in a.aliases
    || exists x | x in a.aliases :: x in b.aliases
  }

  ghost predicate NoClash(files: Files, platform: string) {
    forall p, q | Supported(files, platform, p) && Supported(files, platform, q) && p != q ::
        !Clash(At(files, p), At(files, q))
  }

  /** The tables hold exactly the supported inputs among the given positions. */
  ghost predicate Tables(files: Files, platform: string, binaryOf: string -> string, at: set<Position>, l: Loaded) {
    && (forall p | p in at :: Has(files, p))
    && TypeTable(files, at, l.inputTypes)
    && SpecTable(files, platform, binaryOf, at, l.inputSpecs)
    && AliasTable(files, platform, at, l.aliases)
  }

  ghost predicate TypeTable(files: Files, at: set<Position>, types: seq<string>)
    requires forall p | p in at :: Has(files, p)
  {
    forall n :: n in types <==> exists p | p in at :: At(files, p).name == n
  }

  ghost predicate SpecTable(files: Files, platform: string, binaryOf: string -> string, at: set<Position>,
                            m: map<string, InputRuntimeSpec>) {
    && (forall p | p in at && Supported(files, platform, p) ::
          && At(files, p).name in m
          && m[At(files, p).name] == InputRuntimeSpec(At(files, p).name, binaryOf(p.0), At(files, p)))
    && (forall n | n in m :: exists p | p in at && Supported(files, platform, p) :: At(files, p).name == n)
  }

  ghost predicate AliasTable(files: Files, platform: string, at: set<Position>, m: map<string, string>) {
    && (forall p, x | p in at && Supported(files, platform, p) && x in At(files, p).aliases ::
        x in m && m[x] == At(files, p).name)
    && (forall x | x in m :: exists p | p in at && Supported(files, platform, p) :: x in At(files, p).aliases)
  }

  ghost predicate NoClashWithin(files: Files, platform: string, at: set<Position>) {
    forall p, q | p in at && q in at && p != q && Supported(files, platform, p) && Supported(files, platform, q) ::
      !Clash(At(files, p), At(files, q))
  }

  /** The checks on one more supported input. */
  predicate Collides(l: Loaded, input: InputSpec) {
    || input.name in l.inputSpecs
    || input.name in l.aliases
    || exists x | x in input.aliases :: x in l.inputSpecs || x in l.aliases
  }

  /** The checks find a clash with an input already loaded exactly when there is one. */
  lemma CollidesIsClash(files: Files, platform: string, binaryOf: string -> string, at: set<Position>, l: Loaded,
                        input: InputSpec)
    requires Tables(files, platform, binaryOf, at, l)
    ensures Collides(l, input) <==> exists q | q in at && Supported(files, platform, q) :: Clash(input, At(files, q))
  {
    if input.name in l.inputSpecs {
      var q :| q in at && Supported(files, platform, q) && At(files, q).name == input.name;
      assert Clash(input, At(files, q));
    } else if input.name in l.aliases {
      var q :| q in at && Supported(files, platform, q) && input.name in At(files, q).aliases;
      assert Clash(input, At(files, q));
    } else if x :| x in input.aliases && x in l.inputSpecs {
      var q :| q in at && Supported(files, platform, q) && At(files, q).name == x;
      assert Clash(input, At(files, q));
    } else if x :| x in input.aliases && x in l.aliases {
      var q :| q in at && Supported(files, platform, q) && x in At(files, q).aliases;
      assert Clash(input, At(files, q));
    }
  }

  function AddAliases(m: map<string, string>, aliases: seq<string>, name: string): (r: map<string, string>)
    ensures forall x :: x in r <==> x in m || x in aliases
    ensures forall x | x in aliases :: r[x] == name
    ensures forall x | x in m && x !in aliases :: r[x] == m[x]
    decreases |aliases|
  {
    if aliases == [] then m
    else
      assert forall x :: x in aliases <==> x == aliases[0] || x in aliases[1..];
      AddAliases(m[aliases[0] := name], aliases[1..], name)
  }

  function AddType(types: seq<string>, name: string): seq<string> {
    if name in types then types else types + [name]
  }

  function AddInput(l: Loaded, input: InputSpec, binaryName: string): Loaded {
    Loaded(l.inputTypes,
           l.inputSpecs[input.name := InputRuntimeSpec(input.name, binaryName, input)],
           AddAliases(l.aliases, input.aliases, input.name))
  }

  lemma TypesGrow(files: Files, at: set<Position>, types: seq<string>, p: Position)
    requires (forall q | q in at :: Has(files, q)) && TypeTable(files, at, types) && Has(files, p)
    ensures TypeTable(files, at + {p}, AddType(types, At(files, p).name))
  {
    forall n
      ensures n in AddType(types, At(files, p).name) <==> exists q | q in at + {p} :: At(files, q).name == n
    {
      if n in types {
        var q :| q in at && At(files, q).name == n;
        assert q in at + {p};
      }
      if n == At(files, p).name { assert p in at + {p}; }
    }
  }

  lemma SkipInput(files: Files, platform: string, binaryOf: string -> string, at: set<Position>, l: Loaded, p: Position)
    requires Tables(files, platform, binaryOf, at, l) && Has(files, p) && !Supported(files, platform, p)
    ensures Tables(files, platform, binaryOf, at + {p}, l.(inputTypes := AddType(l.inputTypes, At(files, p).name)))
  {
    hide Supported, TypeTable;
    TypesGrow(files, at, l.inputTypes, p);
    assert SpecTable(files, platform, binaryOf, at + {p}, l.inputSpecs) by {
      forall n | n in l.inputSpecs
          ensures exists q | q in at + {p} && Supported(files, platform, q) :: At(files, q).name == n {
        var q :| q in at && Supported(files, platform, q) && At(files, q).name == n;
        assert q in at + {p};
      }
    }
    assert AliasTable(files, platform, at + {p}, l.aliases) by {
      forall x | x in l.aliases
          ensures exists q | q in at + {p} && Supported(files, platform, q) :: x in At(files, q).aliases {
        var q :| q in at && Supported(files, platform, q) && x in At(files, q).aliases;
        assert q in at + {p};
      }
    }
  }

  lemma TakeSpec(files: Files, platform: string, binaryOf: string -> string, at: set<Position>,
                 m: map<string, InputRuntimeSpec>, p: Position)
    requires SpecTable(files, platform, binaryOf, at, m) && Supported(files, platform, p) && At(files, p).name !in m
    ensures SpecTable(files, platform, binaryOf, at + {p},
                      m[At(files, p).name := InputRuntimeSpec(At(files, p).name, binaryOf(p.0), At(files, p))])
  {
    var m' := m[At(files, p).name := InputRuntimeSpec(At(files, p).name, binaryOf(p.0), At(files, p))];
    forall n | n in m' ensures exists q | q in at + {p} && Supported(files, platform, q) :: At(files, q).name == n {
      if n == At(files, p).name {
        assert p in at + {p};
      } else {
        var q :| q in at && Supported(files, platform, q) && At(files, q).name == n;
        assert q in at + {p};
      }
    }
  }

  lemma TakeAliases(files: Files, platform: string, at: set<Position>, m: map<string, string>, p: Position)
    requires AliasTable(files, platform, at, m) && Supported(files, platform, p)
    requires forall x | x in At(files, p).aliases :: x !in m
    ensures AliasTable(files, platform, at + {p}, AddAliases(m, At(files, p).aliases, At(files, p).name))
  {
    var m' := AddAliases(m, At(files, p).aliases, At(files, p).name);
    forall x | x in m' ensures exists q | q in at + {p} && Supported(files, platform, q) :: x in At(files, q).aliases {
      if x in At(files, p).aliases {
        assert p in at + {p};
      } else {
        var q :| q in at && Supported(files, platform, q) && x in At(files, q).aliases;
        assert q in at + {p};
      }
    }
  }

  lemma TakeInput(files: Files, platform: string, binaryOf: string -> string, at: set<Position>, l: Loaded, p: Position)
    requires Tables(files, platform, binaryOf, at, l) && Supported(files, platform, p) && !Collides(l, At(files, p))
    ensures Tables(files, platform, binaryOf, at + {p},
                   AddInput(l.(inputTypes := AddType(l.inputTypes, At(files, p).name)), At(files, p), binaryOf(p.0)))
  {
    hide SpecTable, AliasTable, TypeTable;
    TypesGrow(files, at, l.inputTypes, p);
    TakeSpec(files, platform, binaryOf, at, l.inputSpecs, p);
    TakeAliases(files, platform, at, l.aliases, p);
  }

  lemma ClashFreeGrows(files: Files, platform: string, at: set<Position>, p: Position)
    requires NoClashWithin(files, platform, at) && Supported(files, platform, p)
    requires !exists q | q in at && Supported(files, platform, q) :: Clash(At(files, p), At(files, q))
    ensures NoClashWithin(files, platform, at + {p})
  {}

  ghost function Positions(files: Files, paths: set<string>): set<Position>
    requires paths <= files.Keys
  {
    set path, i | path in paths && 0 <= i < |files[path].inputs| :: (path, i)
  }

  /** LoadRuntimeSpecs with the binary checks skipped. Files are ranged in an arbitrary order, yet
      loading succeeds exactly when no two distinct supported inputs clash, and then the tables are
      determined by the files. */
  method LoadRuntimeSpecs(files: Files, platform: string, binaryOf: string -> string) returns (r: Option<Loaded>)
    ensures r.Some? <==> NoClash(files, platform)
    ensures r.Some? ==> Tables(files, platform, binaryOf, Positions(files, files.Keys), r.value)
  {
    hide Tables, Clash, NoClash, NoClashWithin;
    var l := Loaded([], map[], map[]);
    var todo := files.Keys;
    ghost var at: set<Position> := {};
    EmptyTables(files, platform, binaryOf);
    while todo != {}
      invariant todo <= files.Keys && at == Positions(files, files.Keys - todo)
      invariant Tables(files, platform, binaryOf, at, l) && NoClashWithin(files, platform, at)
      decreases |todo|
    {
      var path :| path in todo;
      var ok;
      ok, l, at := LoadFile(files, platform, binaryOf, path, l, at);
      if !ok { return None; }
      todo := todo - {path};
      assert files.Keys - todo == files.Keys - (todo + {path}) + {path};
      PositionsGrow(files, files.Keys - todo - {path}, path);
    }
    assert files.Keys - {} == files.Keys;
    NoClashEverywhere(files, platform);
    r := Some(l);
  }

  lemma EmptyTables(files: Files, platform: string, binaryOf: string -> string)
    ensures Tables(files, platform, binaryOf, {}, Loaded([], map[], map[])) && NoClashWithin(files, platform, {})
    ensures Positions(files, {}) == {}
  {}

  lemma PositionsGrow(files: Files, paths: set<string>, path: string)
    requires paths <= files.Keys && path in files
    ensures Positions(files, paths + {path})
            == Positions(files, paths) + (set i | 0 <= i < |files[path].inputs| :: (path, i))
  {}

  lemma NoClashEverywhere(files: Files, platform: string)
    ensures NoClashWithin(files, platform, Positions(files, files.Keys)) <==> NoClash(files, platform)
  {
    if NoClashWithin(files, platform, Positions(files, files.Keys)) {
      forall p, q | Supported(files, platform, p) && Supported(files, platform, q) && p != q
        ensures !Clash(At(files, p), At(files, q))
      {
        assert p in Positions(files, files.Keys) && q in Positions(files, files.Keys);
      }
    }
  }

  /** The inputs of one file. */
  method LoadFile(files: Files, platform: string, binaryOf: string -> string, path: string, before: Loaded,
                  ghost start: set<Position>)
    returns (ok: bool, l: Loaded, ghost at: set<Position>)
    requires path in files && Tables(files, platform, binaryOf, start, before) && NoClashWithin(files, platform, start)
    requires forall p | p in start :: p.0 != path
    ensures ok ==> Tables(files, platform, binaryOf, at, l) && NoClashWithin(files, platform, at)
    ensures ok ==> at == start + (set i | 0 <= i < |files[path].inputs| :: (path, i))
    ensures !ok ==> !NoClash(files, platform)
  {
    hide Tables, Clash, NoClashWithin, Collides;
    l, at := before, start;
    for i := 0 to |files[path].inputs|
      invariant at == start + (set k | 0 <= k < i :: (path, k))
      invariant Tables(files, platform, binaryOf, at, l) && NoClashWithin(files, platform, at)
    {
      ghost var p: Position := (path, i);
      var input := files[path].inputs[i];
      CollidesIsClash(files, platform, binaryOf, at, l, input);
      if platform !in input.platforms {
        SkipInput(files, platform, binaryOf, at, l, p);
        ClashFreeSkips(files, platform, at, p);
        l := l.(inputTypes := AddType(l.inputTypes, input.name));
      } else {
        if Collides(l, input) {
          ghost var q :| q in at && Supported(files, platform, q) && Clash(input, At(files, q));
          assert Supported(files, platform, p) && p != q && Clash(At(files, p), At(files, q));
          return false, l, at;
        }
        TakeInput(files, platform, binaryOf, at, l, p);
        ClashFreeGrows(files, platform, at, p);
        l := AddInput(l.(inputTypes := AddType(l.inputTypes, input.name)), input, binaryOf(path));
      }
      at := at + {p};
    }
    return true, l, at;
  }

  lemma ClashFreeSkips(files: Files, platform: string, at: set<Position>, p: Position)
    requires NoClashWithin(files, platform, at) && !Supported(files, platform, p)
    ensures NoClashWithin(files, platform, at + {p})
  {}

  // ---------- What a loaded table is good for ----------

  /** aliasMapping applied to a policy's input type. */
  function Resolve(l: Loaded, t: string): string {
    if t in l.aliases then l.aliases[t] else t
  }

  /** Resolving an alias lands on a loaded input, and resolving twice changes nothing. */
  lemma ResolveIdempotent(files: Files, platform: string, binaryOf: string -> string, l: Loaded, t: string)
    requires Tables(files, platform, binaryOf, Positions(files, files.Keys), l) && NoClash(files, platform)
    ensures Resolve(l, Resolve(l, t)) == Resolve(l, t)
    ensures t in l.aliases ==> Resolve(l, t) in l.inputSpecs
  {
    if t in l.aliases {
      var at := Positions(files, files.Keys);
      var p :| p in at && Supported(files, platform, p) && t in At(files, p).aliases;
      var n := At(files, p).name;
      if n in l.aliases {
        var q :| q in at && Supported(files, platform, q) && n in At(files, q).aliases;
        assert p != q ==> Clash(At(files, p), At(files, q));
      }
    }
  }

  /** A file accepted by Validate never clashes with itself over a name. */
  lemma AcceptedFileHasNoNameClash(files: Files, platform: string, path: string, i: nat, j: nat)
    requires path in files && Accepted(files[path]) && i != j
    requires Supported(files, platform, (path, i)) && Supported(files, platform, (path, j))
    ensures At(files, (path, i)).name != At(files, (path, j)).name
  {
    if At(files, (path, i)).name == At(files, (path, j)).name {
      AcceptedNamesDisjoint(files[path], i, j, platform);
      assert false;
    }
  }

  datatype LookupError = NotSupported | NotSupportedOnPlatform | RuntimeCheck

  /** GetInput: the specification, if any, and the error, if any; a failing runtime check (foreign
      code) still comes with the specification. */
  function GetInput(l: Loaded, t: string, checks: InputSpec -> bool): (Option<InputRuntimeSpec>, Option<LookupError>) {
    if t !in l.inputTypes then (None, Some(NotSupported))
    else if t !in l.inputSpecs then (None, Some(NotSupportedOnPlatform))
    else (Some(l.inputSpecs[t]), if checks(l.inputSpecs[t].spec) then None else Some(RuntimeCheck))
  }

  /** The error tells an input that no file has from one that exists for other platforms only. */
  lemma GetInputTells(files: Files, platform: string, binaryOf: string -> string, l: Loaded, t: string,
                      checks: InputSpec -> bool)
    requires Tables(files, platform, binaryOf, Positions(files, files.Keys), l)
    ensures var (spec, err) := GetInput(l, t, checks);
            && (spec.Some? <==> exists p :: Supported(files, platform, p) && At(files, p).name == t)
            && (err == Some(NotSupported) <==> forall p | Has(files, p) :: At(files, p).name != t)
            && (err == Some(NotSupportedOnPlatform) <==>
                  && (exists p :: Has(files, p) && At(files, p).name == t)
                  && forall p | Supported(files, platform, p) :: At(files, p).name != t)
            && (spec.Some? ==> spec.value.inputType == t && spec.value.spec.name == t)
  {
    var at := Positions(files, files.Keys);
    assert forall p | Has(files, p) :: p in at;
    if t in l.inputSpecs {
      var p :| p in at && Supported(files, platform, p) && At(files, p).name == t;
    }
    if t in l.inputTypes {
      var p :| p in at && At(files, p).name == t;
    }
  }
}
