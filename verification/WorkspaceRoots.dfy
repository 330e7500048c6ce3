/** Knowledge roots: loading, unique resolution of a target, and virtual paths. */
module WorkspaceRoots {
  import opened Sequences
  import Text

  /** A resolved absolute path as its component names. */
  type Path = seq<string>

  datatype KnowledgeRoot = KnowledgeRoot(name: string, path: Path)

  /** `casefold` of a path's text and `str.lower`; the second is also applied by `safe_root_name`. */
  datatype Library = Library(foldPath: Path -> string, lower: string -> string)

  /** One entry of the configuration: its sanitised name (`None` when nothing is left of it), its
      resolved path (`None` when blank), and whether that is a directory. */
  datatype RawRoot = NotAnObject | Entry(name: Option<string>, path: Option<Path>, isDirectory: bool)

  datatype LoadError =
    | NoRoots | NotAnEntry | EmptyName | NoPath | DuplicateName | DuplicatePath | NoDirectory | Overlapping

  /** `path.relative_to(root)` succeeds. */
  predicate Inside(path: Path, root: Path) {
    root <= path
  }

  ghost predicate Disjoint(roots: seq<KnowledgeRoot>) {
    forall i, j :: 0 <= i < j < |roots| ==>
      !Inside(roots[i].path, roots[j].path) && !Inside(roots[j].path, roots[i].path)
  }

  ghost predicate DistinctNames(roots: seq<KnowledgeRoot>) {
    forall i, j :: 0 <= i < j < |roots| ==> roots[i].name != roots[j].name
  }

  ghost predicate DistinctPaths(roots: seq<KnowledgeRoot>, lib: Library) {
    forall i, j :: 0 <= i < j < |roots| ==> lib.foldPath(roots[i].path) != lib.foldPath(roots[j].path)
  }

  // ---------- Context.load ----------

  predicate Named(r: RawRoot) {
    r.Entry? && r.name.Some? && r.path.Some?
  }

  function RootOf(r: RawRoot): KnowledgeRoot
    requires Named(r)
  {
    KnowledgeRoot(r.name.value, r.path.value)
  }

  function RootsOf(raw: seq<RawRoot>): seq<KnowledgeRoot>
    requires forall r :: r in raw ==> Named(r)
  {
    seq(|raw|, i requires 0 <= i < |raw| => RootOf(raw[i]))
  }

  ghost predicate NameRepeats(raw: seq<RawRoot>, i: nat)
    requires i < |raw| && Named(raw[i])
  {
    exists j :: 0 <= j < i && Named(raw[j]) && RootOf(raw[j]).name == RootOf(raw[i]).name
  }

  ghost predicate PathRepeats(raw: seq<RawRoot>, i: nat, lib: Library)
    requires i < |raw| && Named(raw[i])
  {
    exists j :: 0 <= j < i && Named(raw[j]) && lib.foldPath(RootOf(raw[j]).path) == lib.foldPath(RootOf(raw[i]).path)
  }

  /** What is wrong with one entry, first things first. */
  ghost function EntryError(raw: seq<RawRoot>, i: nat, lib: Library): Option<LoadError>
    requires i < |raw|
  {
    if raw[i].NotAnObject? then Some(NotAnEntry)
    else if raw[i].name.None? then Some(EmptyName)
    else if raw[i].path.None? then Some(NoPath)
    else if NameRepeats(raw, i) then Some(DuplicateName)
    else if PathRepeats(raw, i, lib) then Some(DuplicatePath)
    else if !raw[i].isDirectory then Some(NoDirectory)
    else None
  }

  /** The first entry with something wrong, and what it is. */
  ghost predicate FirstError(raw: seq<RawRoot>, i: nat, lib: Library, e: LoadError) {
    && i < |raw| && EntryError(raw, i, lib) == Some(e)
    && forall k: nat :: k < i ==> EntryError(raw, k, lib) == None
  }

  ghost predicate AllUsable(raw: seq<RawRoot>, lib: Library) {
    forall k: nat :: k < |raw| ==> EntryError(raw, k, lib) == None
  }

  /** Loading succeeds exactly when there are entries, nothing is wrong with any, and no root lies
      inside another; otherwise the first wrong entry decides the error, and nesting comes last. */
  method LoadRoots(raw: seq<RawRoot>, lib: Library) returns (r: Result<seq<KnowledgeRoot>, LoadError>)
    ensures r == Failure(NoRoots) <==> raw == []
    ensures raw != [] && !AllUsable(raw, lib) ==> r.Failure? && exists i: nat :: FirstError(raw, i, lib, r.error)
    ensures raw != [] && AllUsable(raw, lib) ==>
              && (forall x :: x in raw ==> Named(x))
              && r == if Disjoint(RootsOf(raw)) then Success(RootsOf(raw)) else Failure(Overlapping)
    ensures r.Success? ==> DistinctNames(r.value) && DistinctPaths(r.value, lib) && Disjoint(r.value)
  {
    if raw == [] {
      return Failure(NoRoots);
    }
    var roots :- ReadEntries(raw, lib);
    var disjoint := NoneNested(roots);
    return if disjoint then Success(roots) else Failure(Overlapping);
  }

  /** The loop over the entries. */
  method ReadEntries(raw: seq<RawRoot>, lib: Library) returns (r: Result<seq<KnowledgeRoot>, LoadError>)
    ensures r.Success? <==> AllUsable(raw, lib)
    ensures r.Success? ==> (forall x :: x in raw ==> Named(x)) && r.value == RootsOf(raw)
    ensures r.Success? ==> DistinctNames(r.value) && DistinctPaths(r.value, lib)
    ensures r.Failure? ==> r.error != NoRoots && exists i: nat :: FirstError(raw, i, lib, r.error)
  {
    var roots: seq<KnowledgeRoot> := [];
    var names: set<string>, paths: set<string> := {}, {};
    for i := 0 to |raw|
      invariant ReadSoFar(raw, i, lib, roots, names, paths)
    {
      var error := CheckEntry(raw, i, lib, roots, names, paths);
      if error.Some? {
        assert FirstError(raw, i, lib, error.value);
        return Failure(error.value);
      }
      ReadOneMore(raw, i, lib, roots, names, paths);
      roots := roots + [RootOf(raw[i])];
      names := names + {raw[i].name.value};
      paths := paths + {lib.foldPath(raw[i].path.value)};
    }
    AllRead(raw, lib, roots, names, paths);
    return Success(roots);
  }

  /** After `n` entries: nothing was wrong, and the list and the two sets hold them. */
  ghost predicate ReadSoFar(
    raw: seq<RawRoot>, n: nat, lib: Library, roots: seq<KnowledgeRoot>, names: set<string>, paths: set<string>)
  {
    && n <= |raw| && |roots| == n
    && (forall k: nat :: k < n ==> EntryError(raw, k, lib) == None)
    && (forall k :: 0 <= k < n ==> Named(raw[k]) && roots[k] == RootOf(raw[k]))
    && (forall x :: x in names <==> exists j :: 0 <= j < n && roots[j].name == x)
    && (forall x :: x in paths <==> exists j :: 0 <= j < n && lib.foldPath(roots[j].path) == x)
  }

  /** The checks of one entry against the sets filled so far. */
  method CheckEntry(
    raw: seq<RawRoot>, i: nat, lib: Library, ghost roots: seq<KnowledgeRoot>, names: set<string>, paths: set<string>)
    returns (error: Option<LoadError>)
    requires i < |raw| && ReadSoFar(raw, i, lib, roots, names, paths)
    ensures error == EntryError(raw, i, lib) && error != Some(NoRoots)
  {
    if raw[i].NotAnObject? {
      return Some(NotAnEntry);
    }
    if raw[i].name.None? {
      return Some(EmptyName);
    }
    if raw[i].path.None? {
      return Some(NoPath);
    }
    SetsDecide(raw, i, lib, roots, names, paths);
    if raw[i].name.value in names {
      return Some(DuplicateName);
    }
    if lib.foldPath(raw[i].path.value) in paths {
      return Some(DuplicatePath);
    }
    return if raw[i].isDirectory then None else Some(NoDirectory);
  }

  lemma SetsDecide(
    raw: seq<RawRoot>, i: nat, lib: Library, roots: seq<KnowledgeRoot>, names: set<string>, paths: set<string>)
    requires i < |raw| && Named(raw[i]) && ReadSoFar(raw, i, lib, roots, names, paths)
    ensures NameRepeats(raw, i) <==> raw[i].name.value in names
    ensures PathRepeats(raw, i, lib) <==> lib.foldPath(raw[i].path.value) in paths
  {
    if raw[i].name.value in names {
      var j :| 0 <= j < i && roots[j].name == raw[i].name.value;
      assert Named(raw[j]) && RootOf(raw[j]) == roots[j];
    }
    if lib.foldPath(raw[i].path.value) in paths {
      var j :| 0 <= j < i && lib.foldPath(roots[j].path) == lib.foldPath(raw[i].path.value);
      assert Named(raw[j]) && RootOf(raw[j]) == roots[j];
    }
  }

  lemma ReadOneMore(
    raw: seq<RawRoot>, i: nat, lib: Library, roots: seq<KnowledgeRoot>, names: set<string>, paths: set<string>)
    requires i < |raw| && ReadSoFar(raw, i, lib, roots, names, paths) && EntryError(raw, i, lib) == None
    ensures ReadSoFar(raw, i + 1, lib, roots + [RootOf(raw[i])], names + {raw[i].name.value},
                      paths + {lib.foldPath(raw[i].path.value)})
  {
    var roots' := roots + [RootOf(raw[i])];
    assert roots'[i] == RootOf(raw[i]) && forall k :: 0 <= k < i ==> roots'[k] == roots[k];
  }

  lemma AllRead(raw: seq<RawRoot>, lib: Library, roots: seq<KnowledgeRoot>, names: set<string>, paths: set<string>)
    requires ReadSoFar(raw, |raw|, lib, roots, names, paths)
    ensures AllUsable(raw, lib) && (forall x :: x in raw ==> Named(x)) && roots == RootsOf(raw)
    ensures DistinctNames(roots) && DistinctPaths(roots, lib)
  {
    forall i, j | 0 <= i < j < |roots|
      ensures roots[i].name != roots[j].name && lib.foldPath(roots[i].path) != lib.foldPath(roots[j].path)
    {
      assert EntryError(raw, j, lib) == None;
      assert Named(raw[i]) && !NameRepeats(raw, j) && !PathRepeats(raw, j, lib);
    }
  }

  method NoneNested(roots: seq<KnowledgeRoot>) returns (disjoint: bool)
    ensures disjoint <==> Disjoint(roots)
  {
    for i := 0 to |roots|
      invariant forall a, b :: 0 <= a < i && a < b < |roots| ==>
                  !Inside(roots[a].path, roots[b].path) && !Inside(roots[b].path, roots[a].path)
    {
      for j := i + 1 to |roots|
        invariant forall b :: i < b < j ==>
            !Inside(roots[i].path, roots[b].path) && !Inside(roots[b].path, roots[i].path)
      {
        if Inside(roots[i].path, roots[j].path) || Inside(roots[j].path, roots[i].path) {
          return false;
        }
      }
    }
    return true;
  }

  // ---------- workspace identity ----------

  datatype IdentityError = OutsideRoots | Ambiguous

  /** Prefixes of one path are comparable, so disjoint roots cannot share a target. */
  lemma OneRootPerTarget(roots: seq<KnowledgeRoot>, target: Path, i: nat, j: nat)
    requires Disjoint(roots) && i < |roots| && j < |roots|
    requires Inside(target, roots[i].path) && Inside(target, roots[j].path)
    ensures i == j
  {
    var a, b := roots[i].path, roots[j].path;
    assert a == target[..|a|] && b == target[..|b|];
    assert |a| <= |b| ==> a == b[..|a|];
    assert |b| <= |a| ==> b == a[..|b|];
    assert Inside(b, a) || Inside(a, b);
  }

  /** Root `i` and no other lies above the target. */
  ghost predicate OnlyMatch(roots: seq<KnowledgeRoot>, target: Path, i: nat) {
    && i < |roots| && Inside(target, roots[i].path)
    && forall j :: 0 <= j < |roots| && Inside(target, roots[j].path) ==> j == i
  }

  /** Over loaded roots the ambiguous answer cannot occur. */
  method ResolveWorkspaceIdentity(roots: seq<KnowledgeRoot>, target: Path)
    returns (r: Result<KnowledgeRoot, IdentityError>)
    ensures forall i: nat :: OnlyMatch(roots, target, i) ==> r == Success(roots[i])
    ensures r.Success? ==> exists i: nat :: OnlyMatch(roots, target, i)
    ensures r == Failure(OutsideRoots) <==> forall k :: k in roots ==> !Inside(target, k.path)
    ensures r == Failure(Ambiguous) <==>
              exists i, j :: 0 <= i < j < |roots| && Inside(target, roots[i].path) && Inside(target, roots[j].path)
    ensures Disjoint(roots) ==> r != Failure(Ambiguous)
  {
    var matches: seq<KnowledgeRoot> := [];
    ghost var at: seq<nat> := [];
    for i := 0 to |roots|
      invariant |at| == |matches|
      invariant forall m :: 0 <= m < |at| ==>
          at[m] < i && matches[m] == roots[at[m]] && Inside(target, roots[at[m]].path)
      invariant forall m, n :: 0 <= m < n < |at| ==> at[m] < at[n]
      invariant forall j :: 0 <= j < i && Inside(target, roots[j].path) ==> j in at
    {
      if Inside(target, roots[i].path) {
        matches := matches + [roots[i]];
        at := at + [i];
      }
    }
    if |matches| != 1 {
      if matches == [] {
        return Failure(OutsideRoots);
      }
      if Disjoint(roots) {
        OneRootPerTarget(roots, target, at[0], at[1]);
        assert false;
      }
      assert matches[0] in roots && at[0] < at[1];
      return Failure(Ambiguous);
    }
    assert OnlyMatch(roots, target, at[0]);
    return Success(matches[0]);
  }

  // ---------- virtual paths ----------

  /** Components of a path text: empty parts and "." vanish, ".." climbs. */
  function Resolve(base: Path, parts: seq<string>): Path {
    if parts == [] then base
    else
      var before := Resolve(base, parts[..|parts| - 1]);
      var last := parts[|parts| - 1];
      if last == "" || last == "." then before
      else if last == ".." then (if before == [] then [] else before[..|before| - 1])
      else before + [last]
  }

  function TrimLeft(s: string): string {
    if s != "" && s[0] == '/' then TrimLeft(s[1..]) else s
  }

  function TrimRight(s: string): string {
    if s != "" && s[|s| - 1] == '/' then TrimRight(s[..|s| - 1]) else s
  }

  function VirtualPath(root: KnowledgeRoot, path: Path): Option<string> {
    if !Inside(path, root.path) then None
    else if path == root.path then Some(root.name)
    else Some(root.name + ['/'] + Text.Join(path[|root.path|..], '/'))
  }

  /** `(root.path / relative).resolve()`: joining a path that starts with a slash discards the root. */
  function Candidate(root: KnowledgeRoot, relative: string): Path {
    Resolve(if relative != "" && relative[0] == '/' then [] else root.path, Text.Split(relative, '/'))
  }

  datatype SplitError = NoRootName | UnknownRoot | Escapes

  function FindRoot(roots: seq<KnowledgeRoot>, name: string): Option<KnowledgeRoot> {
    if roots == [] then None
    else if roots[0].name == name then Some(roots[0])
    else FindRoot(roots[1..], name)
  }

  /** The text before the first slash, and what follows it if there is one. */
  function Partition(s: string): (string, Option<string>) {
    if s == "" then ("", None)
    else if s[0] == '/' then ("", Some(s[1..]))
    else
      var (head, tail) := Partition(s[1..]);
      ([s[0]] + head, tail)
  }

  function SplitVirtualPath(roots: seq<KnowledgeRoot>, value: string, lib: Library)
    : Result<(KnowledgeRoot, Path), SplitError>
  {
    var normalized := TrimRight(TrimLeft(Text.Slashes(value)));
    var (name, relative) := Partition(normalized);
    if relative.None? then Failure(NoRootName)
    else
      var root := FindRoot(roots, lib.lower(name));
      if root.None? then Failure(UnknownRoot)
      else
        var candidate := Candidate(root.value, relative.value);
        if !Inside(candidate, root.value.path) then Failure(Escapes) else Success((root.value, candidate))
  }

  // ---------- the round trip ----------

  predicate NoSlashes(s: string) {
    forall c :: c in s ==> c != '/' && c != '\\'
  }

  /** A component of a resolved path whose name contains no backslash. */
  predicate PlainName(s: string) {
    s != "" && s != "." && s != ".." && NoSlashes(s)
  }

  lemma {:induction false} PartitionJoined(name: string, rest: string)
    requires NoSlashes(name)
    ensures Partition(name + ['/'] + rest) == (name, Some(rest))
  {
    var s := name + ['/'] + rest;
    if name == "" {
      assert s[1..] == rest;
    } else {
      assert forall c :: c in name[1..] ==> c in name;
      PartitionJoined(name[1..], rest);
      assert s[1..] == name[1..] + ['/'] + rest;
      assert name[0] in name;
      assert [name[0]] + name[1..] == name;
    }
  }

  lemma SlashFree(parts: seq<string>)
    requires forall p :: p in parts ==> NoSlashes(p)
    ensures forall p :: p in parts ==> Text.Free(p, '/')
  {}

  lemma {:induction false} ResolvePlain(base: Path, parts: seq<string>)
    requires forall p :: p in parts ==> PlainName(p)
    ensures Resolve(base, parts) == base + parts
  {
    if parts != [] {
      var init, last := parts[..|parts| - 1], parts[|parts| - 1];
      assert last in parts && forall p :: p in init ==> p in parts;
      ResolvePlain(base, init);
      assert base + init + [last] == base + parts;
    }
  }

  predicate SolidName(s: string) {
    s != "" && NoSlashes(s)
  }

  /** Joined names contain no backslash and neither start nor end with a slash. */
  lemma {:induction false} JoinedIsNormal(parts: seq<string>)
    requires parts != [] && forall p :: p in parts ==> SolidName(p)
    ensures var s := Text.Join(parts, '/');
            s != "" && s[0] != '/' && s[|s| - 1] != '/' && forall c :: c in s ==> c != '\\'
  {
    assert parts[0] in parts && parts[0][0] in parts[0] && parts[0][|parts[0]| - 1] in parts[0];
    if |parts| > 1 {
      JoinedIsNormal(parts[1..]);
      var s := parts[0] + ['/'] + Text.Join(parts[1..], '/');
      assert s[|s| - 1] == Text.Join(parts[1..], '/')[|Text.Join(parts[1..], '/')| - 1];
    }
  }

  lemma {:induction false} FindNamed(roots: seq<KnowledgeRoot>, root: KnowledgeRoot)
    requires DistinctNames(roots) && root in roots
    ensures FindRoot(roots, root.name) == Some(root)
  {
    if roots[0] != root {
      assert root in roots[1..];
      var i :| 1 <= i < |roots| && roots[i] == root;
      assert roots[0].name != roots[i].name;
      FindNamed(roots[1..], root);
    }
  }

  /** A resolved path strictly inside a loaded root comes back from its virtual path. */
  lemma VirtualPathRoundTrip(roots: seq<KnowledgeRoot>, root: KnowledgeRoot, path: Path, lib: Library)
    requires DistinctNames(roots) && root in roots
    requires PlainName(root.name) && lib.lower(root.name) == root.name
    requires Inside(path, root.path) && path != root.path
    requires forall p :: p in path[|root.path|..] ==> PlainName(p)
    ensures VirtualPath(root, path).Some?
    ensures SplitVirtualPath(roots, VirtualPath(root, path).value, lib) == Success((root, path))
  {
    var below := path[|root.path|..];
    assert path == root.path + below && below != [];
    PartsAreRead(roots, root, below, lib);
    ResolvePlain(root.path, below);
  }

  /** A doubled slash after the root name leaves the root: the rest is read from the top of the file
      system, and refused unless it happens to lie inside. */
  lemma DoubledSlashIsAbsolute(roots: seq<KnowledgeRoot>, root: KnowledgeRoot, rest: Path, lib: Library)
    requires DistinctNames(roots) && root in roots
    requires PlainName(root.name) && lib.lower(root.name) == root.name
    requires rest != [] && forall p :: p in rest ==> PlainName(p)
    ensures SplitVirtualPath(roots, root.name + ['/'] + (['/'] + Text.Join(rest, '/')), lib) ==
            if Inside(rest, root.path) then Success((root, rest)) else Failure(Escapes)
  {
    var value := root.name + ['/'] + (['/'] + Text.Join(rest, '/'));
    JoinedIsNormal(rest);
    assert root.name[0] in root.name;
    assert value[|value| - 1] == Text.Join(rest, '/')[|Text.Join(rest, '/')| - 1];
    NoBackslash(root.name, ['/'], Text.Join(rest, '/'));
    PartitionJoined(root.name, ['/'] + Text.Join(rest, '/'));
    FindNamed(roots, root);
    SlashFree(rest);
    Text.SplitCons("", Text.Join(rest, '/'), '/');
    Text.SplitJoined(rest, '/');
    assert "" + ['/'] + Text.Join(rest, '/') == ['/'] + Text.Join(rest, '/');
    EmptyPartVanishes([], rest);
    ResolvePlain([], rest);
    assert [] + rest == rest;
  }

  lemma NoBackslash(name: string, gap: string, rest: string)
    requires NoSlashes(name) && (forall c :: c in gap ==> c != '\\') && forall c :: c in rest ==> c != '\\'
    ensures var value := name + ['/'] + (gap + rest); Text.Slashes(value) == value
  {
    var value := name + ['/'] + (gap + rest);
    forall i | 0 <= i < |value| ensures value[i] != '\\' {
      if i < |name| {
        assert value[i] == name[i] && name[i] in name;
      } else if i > |name| && i <= |name| + |gap| {
        assert value[i] == gap[i - |name| - 1] && value[i] in gap;
      } else if i > |name| {
        assert value[i] == rest[i - |name| - 1 - |gap|] && value[i] in rest;
      }
    }
  }

  lemma {:induction false} EmptyPartVanishes(base: Path, parts: seq<string>)
    ensures Resolve(base, [""] + parts) == Resolve(base, parts)
  {
    if parts == [] {
      assert [""] + parts == [""] && [""][..0] == [];
    } else {
      assert ([""] + parts)[..|parts|] == [""] + parts[..|parts| - 1];
      EmptyPartVanishes(base, parts[..|parts| - 1]);
    }
  }

  /** The root itself is the exception: its virtual path is a bare name, which does not split. */
  lemma RootPathDoesNotSplit(roots: seq<KnowledgeRoot>, root: KnowledgeRoot, lib: Library)
    requires PlainName(root.name)
    ensures VirtualPath(root, root.path) == Some(root.name)
    ensures SplitVirtualPath(roots, root.name, lib) == Failure(NoRootName)
  {
    assert forall i :: 0 <= i < |root.name| ==> root.name[i] in root.name;
    assert Text.Slashes(root.name) == root.name;
    PartitionWhole(root.name);
  }

  lemma {:induction false} PartitionWhole(name: string)
    requires NoSlashes(name)
    ensures Partition(name) == (name, None)
  {
    if name != "" {
      assert name[0] in name && forall c :: c in name[1..] ==> c in name;
      PartitionWhole(name[1..]);
      assert [name[0]] + name[1..] == name;
    }
  }

  // ---------- dots, climbing and decoration ----------

  lemma {:induction false} ResolveAppend(base: Path, a: seq<string>, b: seq<string>)
    ensures Resolve(base, a + b) == Resolve(Resolve(base, a), b)
    decreases |b|
  {
    if b == [] {
      assert a + b == a;
    } else {
      assert (a + b)[..|a + b| - 1] == a + b[..|b| - 1];
      ResolveAppend(base, a, b[..|b| - 1]);
    }
  }

  lemma ResolveOne(base: Path, p: string)
    ensures Resolve(base, [p]) ==
            if p == "" || p == "." then base
            else if p == ".." then (if base == [] then [] else base[..|base| - 1])
            else base + [p]
  {
    assert [p][..0] == [];
  }

  /** An empty part or "." changes nothing, and ".." takes back the name before it. */
  lemma DotsCancel(base: Path, before: seq<string>, dot: string, name: string, after: seq<string>)
    requires (dot == "" || dot == ".") && PlainName(name)
    ensures Resolve(base, before + [dot] + after) == Resolve(base, before + after)
    ensures Resolve(base, before + [name, ".."] + after) == Resolve(base, before + after)
  {
    var here := Resolve(base, before);
    ResolveAppend(base, before, [dot]);
    ResolveAppend(base, before + [dot], after);
    ResolveAppend(base, before, after);
    ResolveOne(here, dot);
    ResolveAppend(base, before, [name, ".."]);
    ResolveAppend(base, before + [name, ".."], after);
    assert [name, ".."] == [name] + [".."];
    ResolveAppend(here, [name], [".."]);
    ResolveOne(here, name);
    ResolveOne(here + [name], "..");
  }

  function Ups(k: nat): seq<string> {
    seq(k, _ => "..")
  }

  function Above(path: Path, k: nat): Path {
    if k <= |path| then path[..|path| - k] else []
  }

  lemma {:induction false} ResolveUps(base: Path, k: nat)
    ensures Resolve(base, Ups(k)) == Above(base, k)
  {
    if k > 0 {
      assert Ups(k) == Ups(k - 1) + [".."];
      ResolveUps(base, k - 1);
      ResolveAppend(base, Ups(k - 1), [".."]);
      ResolveOne(Above(base, k - 1), "..");
    }
  }

  /** Going down by some names and up again by `k` levels: accepted exactly while it does not climb
      out of the root. */
  lemma ClimbingStaysInside(roots: seq<KnowledgeRoot>, root: KnowledgeRoot, names: Path, k: nat, lib: Library)
    requires DistinctNames(roots) && root in roots && root.path != []
    requires PlainName(root.name) && lib.lower(root.name) == root.name
    requires names + Ups(k) != [] && forall p :: p in names ==> PlainName(p)
    ensures SplitVirtualPath(roots, root.name + ['/'] + Text.Join(names + Ups(k), '/'), lib) ==
            if k <= |names| then Success((root, root.path + names[..|names| - k])) else Failure(Escapes)
  {
    SolidParts(names, k);
    PartsAreRead(roots, root, names + Ups(k), lib);
    ResolveClimb(root.path, names, k);
    AboveInside(root.path, names, k);
  }

  lemma SolidParts(names: Path, k: nat)
    requires forall p :: p in names ==> PlainName(p)
    ensures forall p :: p in names + Ups(k) ==> SolidName(p)
  {
    forall p | p in names + Ups(k) ensures SolidName(p) {
      assert p in names || p == "..";
    }
  }

  lemma ResolveClimb(base: Path, names: Path, k: nat)
    requires forall p :: p in names ==> PlainName(p)
    ensures Resolve(base, names + Ups(k)) == Above(base + names, k)
  {
    ResolveAppend(base, names, Ups(k));
    ResolvePlain(base, names);
    ResolveUps(base + names, k);
  }

  /** A root name and parts: the parts are followed from the root, and may not leave it. */
  lemma PartsAreRead(roots: seq<KnowledgeRoot>, root: KnowledgeRoot, parts: seq<string>, lib: Library)
    requires DistinctNames(roots) && root in roots
    requires PlainName(root.name) && lib.lower(root.name) == root.name
    requires parts != [] && forall p :: p in parts ==> SolidName(p)
    ensures var candidate := Resolve(root.path, parts);
            SplitVirtualPath(roots, root.name + ['/'] + Text.Join(parts, '/'), lib) ==
            if Inside(candidate, root.path) then Success((root, candidate)) else Failure(Escapes)
  {
    NormalText(root.name, parts);
    FindNamed(roots, root);
    SlashFree(parts);
    Text.SplitJoined(parts, '/');
  }

  lemma AboveInside(base: Path, names: Path, k: nat)
    requires base != []
    ensures Inside(Above(base + names, k), base) <==> k <= |names|
    ensures k <= |names| ==> Above(base + names, k) == base + names[..|names| - k]
  {}

  /** A root name and parts written with slashes are read as they are written. */
  lemma NormalText(name: string, parts: seq<string>)
    requires PlainName(name) && parts != [] && forall p :: p in parts ==> SolidName(p)
    ensures var value := name + ['/'] + Text.Join(parts, '/');
            && TrimRight(TrimLeft(Text.Slashes(value))) == value
            && Partition(value) == (name, Some(Text.Join(parts, '/')))
    ensures Text.Join(parts, '/') != "" && Text.Join(parts, '/')[0] != '/'
  {
    JoinedIsNormal(parts);
    var rest := Text.Join(parts, '/');
    NoBackslash(name, "", rest);
    assert name + ['/'] + ("" + rest) == name + ['/'] + rest;
    assert name[0] in name;
    PartitionJoined(name, rest);
  }

  predicate OnlySlashes(s: string) {
    forall c :: c in s ==> c == '/' || c == '\\'
  }

  lemma {:induction false} TrimLeftSkips(before: string, s: string)
    requires forall c :: c in before ==> c == '/'
    ensures TrimLeft(before + s) == TrimLeft(s)
  {
    if before == "" {
      assert before + s == s;
    } else {
      assert before[0] in before && forall c :: c in before[1..] ==> c in before;
      assert (before + s)[1..] == before[1..] + s;
      TrimLeftSkips(before[1..], s);
    }
  }

  lemma {:induction false} TrimRightSkips(s: string, after: string)
    requires forall c :: c in after ==> c == '/'
    ensures TrimRight(s + after) == TrimRight(s)
    decreases |after|
  {
    if after == "" {
      assert s + after == s;
    } else {
      var init := after[..|after| - 1];
      assert after[|after| - 1] in after && forall c :: c in init ==> c in after;
      assert (s + after)[..|s + after| - 1] == s + init;
      TrimRightSkips(s, init);
    }
  }

  lemma {:induction false} TrimLeftKeeps(s: string, after: string)
    requires forall c :: c in after ==> c == '/'
    ensures TrimRight(TrimLeft(s + after)) == TrimRight(TrimLeft(s))
  {
    if s == "" {
      TrimLeftSkips(after, "");
      assert s + after == after + "";
    } else if s[0] == '/' {
      assert (s + after)[1..] == s[1..] + after;
      TrimLeftKeeps(s[1..], after);
    } else {
      TrimRightSkips(s, after);
    }
  }

  /** Slashes and backslashes around a value do not matter, and a backslash reads as a slash. */
  lemma DecorationIgnored(roots: seq<KnowledgeRoot>, before: string, value: string, after: string, lib: Library)
    requires OnlySlashes(before) && OnlySlashes(after)
    ensures SplitVirtualPath(roots, before + value + after, lib) == SplitVirtualPath(roots, value, lib)
    ensures SplitVirtualPath(roots, Text.Slashes(value), lib) == SplitVirtualPath(roots, value, lib)
  {
    var b, v, a := Text.Slashes(before), Text.Slashes(value), Text.Slashes(after);
    forall i | 0 <= i < |before| ensures b[i] == '/' {
      assert before[i] in before;
    }
    forall i | 0 <= i < |after| ensures a[i] == '/' {
      assert after[i] in after;
    }
    assert Text.Slashes(before + value + after) == b + (v + a);
    TrimLeftSkips(b, v + a);
    TrimLeftKeeps(v, a);
    assert Text.Slashes(v) == v;
  }

  /** A name that no root has is refused. */
  lemma {:induction false} UnknownRefused(roots: seq<KnowledgeRoot>, name: string)
    requires forall r :: r in roots ==> r.name != name
    ensures FindRoot(roots, name) == None
  {
    if roots != [] {
      assert roots[0] in roots && forall r :: r in roots[1..] ==> r in roots;
      UnknownRefused(roots[1..], name);
    }
  }
}
