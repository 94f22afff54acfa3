/** The path provider every extractor asks for its output locations
    (`base_dir / asset / subdir / ...`), with its optional registry of
    written files, kept per asset in first-registration order. */
module ExtractConfig {
  import opened Common
  import opened Values
  import opened Store

  /** The base directory used when neither the caller nor the environment
      (`OMICIDX_EXTRACT_BASE_DIR`) gives one. */
  const DefaultBaseDir: Path := "/data/davsean/omicidx_root/extracts"

  // ---------------------------------------------------------------------------
  // Paths
  // ---------------------------------------------------------------------------

  /** `p / parts[0] / parts[1] / ...` */
  function JoinAll(p: Path, parts: seq<string>): (r: Path)
    ensures |r| >= |p| && r[..|p|] == p
  {
    if |parts| == 0 then p else JoinPath(JoinAll(p, parts[..|parts| - 1]), parts[|parts| - 1])
  }

  lemma {:induction false} JoinAllAppend(p: Path, a: seq<string>, b: seq<string>)
    ensures JoinAll(p, a + b) == JoinAll(JoinAll(p, a), b)
  {
    if |b| > 0 {
      assert (a + b)[..|a + b| - 1] == a + b[..|b| - 1];
      JoinAllAppend(p, a, b[..|b| - 1]);
    } else {
      assert a + b == a;
    }
  }

  /** Joining at least one component lands strictly inside `p`. */
  lemma {:induction false} JoinAllUnder(p: Path, parts: seq<string>)
    requires |parts| > 0
    ensures IsUnder(JoinAll(p, parts), p)
  {
    var init := parts[..|parts| - 1];
    JoinIsUnder(JoinAll(p, init), parts[|parts| - 1]);
    if |init| > 0 {
      JoinAllUnder(p, init);
      UnderTransitive(JoinAll(p, parts), JoinAll(p, init), p);
    }
  }

  /** Three components joined, spelled out. */
  lemma JoinThree(p: Path, a: string, b: string, c: string)
    ensures JoinAll(p, [a, b, c]) == p + "/" + a + "/" + b + "/" + c
  {
    var parts := [a, b, c];
    assert parts[..2] == [a, b] && parts[..2][..1] == [a] && parts[..1][..0] == [];
    assert JoinAll(p, [a]) == JoinPath(p, a);
    assert JoinAll(p, [a, b]) == JoinPath(JoinAll(p, [a]), b);
  }

  predicate NoSlash(s: string)
  {
    '/' !in s
  }

  /** Splitting at the last separator: a final component without '/' is
      determined by the joined path. */
  lemma SplitLast(a: string, b: string, a': string, b': string)
    requires NoSlash(b) && NoSlash(b')
    requires JoinPath(a, b) == JoinPath(a', b')
    ensures a == a' && b == b'
  {
    var s := JoinPath(a, b);
    if |b| < |b'| {
      SlashBefore(a, b);
      assert false;
    } else if |b'| < |b| {
      SlashBefore(a', b');
      assert false;
    }
    assert a == s[..|a|] == a';
    assert b == s[|a| + 1..] == b';
  }

  lemma SlashBefore(a: string, b: string)
    ensures JoinPath(a, b)[|a|] == '/'
    ensures JoinPath(a, b)[|a| + 1..] == b
  {
  }

  /** Paths joined from the same root and the same number of '/'-free
      components are equal only when the components are. */
  lemma {:induction false} JoinAllInjective(p: Path, xs: seq<string>, ys: seq<string>)
    requires |xs| == |ys|
    requires forall i | 0 <= i < |xs| :: NoSlash(xs[i]) && NoSlash(ys[i])
    requires JoinAll(p, xs) == JoinAll(p, ys)
    ensures xs == ys
  {
    if |xs| > 0 {
      var n := |xs| - 1;
      SplitLast(JoinAll(p, xs[..n]), xs[n], JoinAll(p, ys[..n]), ys[n]);
      JoinAllInjective(p, xs[..n], ys[..n]);
      assert xs == xs[..n] + [xs[n]] && ys == ys[..n] + [ys[n]];
    }
  }

  /** Each '/'-free component adds exactly one separator. */
  lemma {:induction false} JoinAllDepth(p: Path, parts: seq<string>)
    requires forall i | 0 <= i < |parts| :: NoSlash(parts[i])
    ensures CountChar(JoinAll(p, parts), '/') == CountChar(p, '/') + |parts|
  {
    if |parts| > 0 {
      var n := |parts| - 1;
      var q := JoinAll(p, parts[..n]);
      JoinAllDepth(p, parts[..n]);
      CountCharAppend(q, "/", '/');
      CountCharAppend(q + "/", parts[n], '/');
      NoSlashCount(parts[n]);
      assert CountChar("/", '/') == 1 by {
        assert "/"[..0] == "";
      }
    }
  }

  lemma {:induction false} NoSlashCount(s: string)
    requires NoSlash(s)
    ensures CountChar(s, '/') == 0
  {
    if |s| > 0 {
      assert s[|s| - 1] in s;
      assert NoSlash(s[..|s| - 1]) by {
        forall c | c in s[..|s| - 1] ensures c in s { }
      }
      NoSlashCount(s[..|s| - 1]);
    }
  }

  /** A path strictly inside `d` has more separators than `d`. */
  lemma UnderIsDeeper(q: Path, d: Path)
    requires IsUnder(q, d)
    ensures CountChar(q, '/') > CountChar(d, '/')
  {
    var rest := q[|d|..];
    SplitAt(q, |d|);
    HeadTail(rest);
    assert rest[0] == '/';
    CountCharAppend(d, rest, '/');
    CountCharAppend("/", rest[1..], '/');
    assert CountChar("/", '/') == 1 by {
      assert "/"[..0] == "";
    }
  }

  // ---------------------------------------------------------------------------
  // The registry
  // ---------------------------------------------------------------------------

  datatype RegistryEntry = RegistryEntry(filepath: string, registeredAt: string, metadata: map<string, Value>)

  /** The registry dict: its keys in insertion order and the entries per key. */
  datatype Registry = Registry(order: seq<string>, files: map<string, seq<RegistryEntry>>)

  ghost predicate WellFormed(r: Registry)
  {
    (forall a :: a in r.files <==> a in r.order) &&
    (forall i, j | 0 <= i < j < |r.order| :: r.order[i] != r.order[j])
  }

  const EmptyRegistry: Registry := Registry([], map[])

  /** `_registry.setdefault(asset, []).append(entry)`: a new asset goes to the
      end of the key order. */
  function Register(r: Registry, asset: string, entry: RegistryEntry): (r': Registry)
  {
    if asset in r.files then Registry(r.order, r.files[asset := r.files[asset] + [entry]])
    else Registry(r.order + [asset], r.files[asset := [entry]])
  }

  /** `_registry.get(asset, [])` */
  function Lookup(r: Registry, asset: string): seq<RegistryEntry>
  {
    if asset in r.files then r.files[asset] else []
  }

  /** `_registry.clear()` for `None`, `_registry.pop(asset, None)` otherwise. */
  function Clear(r: Registry, asset: Option<string>): (r': Registry)
  {
    match asset
    case None => EmptyRegistry
    case Some(a) => Registry(Remove(r.order, a), r.files - {a})
  }

  function Remove(s: seq<string>, x: string): (r: seq<string>)
    ensures forall y :: y in r <==> y in s && y != x
  {
    if |s| == 0 then []
    else
      var rest := Remove(s[1..], x);
      if s[0] == x then rest else [s[0]] + rest
  }

  lemma {:induction false} RemoveKeepsDistinct(s: seq<string>, x: string)
    requires forall i, j | 0 <= i < j < |s| :: s[i] != s[j]
    ensures forall k, l | 0 <= k < l < |Remove(s, x)| :: Remove(s, x)[k] != Remove(s, x)[l]
  {
    if |s| > 0 {
      RemoveKeepsDistinct(s[1..], x);
      var rest := Remove(s[1..], x);
      if s[0] != x {
        assert s[0] !in s[1..];
        assert s[0] !in rest;
      }
    }
  }

  /** Registering keeps the key order and the dict in step; the new entry is
      the last one listed for its asset and no other asset changes. */
  lemma RegisterSpec(r: Registry, asset: string, entry: RegistryEntry)
    requires WellFormed(r)
    ensures WellFormed(Register(r, asset, entry))
    ensures Lookup(Register(r, asset, entry), asset) == Lookup(r, asset) + [entry]
    ensures forall b | b != asset :: Lookup(Register(r, asset, entry), b) == Lookup(r, b)
    ensures Register(r, asset, entry).order == if asset in r.order then r.order else r.order + [asset]
  {
  }

  /** Clearing one asset forgets it and nothing else; clearing all forgets
      everything. */
  lemma ClearSpec(r: Registry, asset: Option<string>)
    requires WellFormed(r)
    ensures WellFormed(Clear(r, asset))
    ensures forall b :: Lookup(Clear(r, asset), b) == if asset.None? || asset.value == b then [] else Lookup(r, b)
  {
    if asset.Some? {
      RemoveKeepsDistinct(r.order, asset.value);
    }
  }

  datatype RegistryExport = RegistryExport(baseDir: Path, exportedAt: string, assets: Registry)

  class PathProvider {
    const baseDir: Path
    var registry: Registry

    ghost predicate Valid()
      reads this
    {
      WellFormed(registry)
    }

    /** `PathProvider(base_dir)`: without a base directory, the configured one
        (environment) or else the default. */
    constructor (base: Option<Path>, configured: Option<Path>)
      ensures baseDir == if base.Some? then base.value else if configured.Some? then configured.value else DefaultBaseDir
      ensures registry == EmptyRegistry && Valid()
    {
      baseDir := if base.Some? then base.value else if configured.Some? then configured.value else DefaultBaseDir;
      registry := EmptyRegistry;
    }

    /** Where `get_path(asset, *subdirs)` points. */
    function PathOf(asset: string, subdirs: seq<string>): Path
    {
      JoinAll(baseDir, [asset] + subdirs)
    }

    method GetPath(asset: string, subdirs: seq<string>) returns (path: Path)
      ensures path == PathOf(asset, subdirs)
      ensures IsUnder(path, baseDir)
    {
      path := JoinPath(baseDir, asset);
      var i := 0;
      while i < |subdirs|
        invariant 0 <= i <= |subdirs|
        invariant path == JoinAll(baseDir, [asset] + subdirs[..i])
      {
        assert ([asset] + subdirs[..i + 1])[..i + 1] == [asset] + subdirs[..i];
        path := JoinPath(path, subdirs[i]);
        i := i + 1;
      }
      assert subdirs[..i] == subdirs;
      JoinAllUnder(baseDir, [asset] + subdirs);
    }

    /** `register_file(asset, filepath, metadata)`; `now` is the clock reading. */
    method RegisterFile(asset: string, filepath: string, metadata: Option<map<string, Value>>, now: string)
      modifies this
      requires Valid()
      ensures Valid()
      ensures registry == Register(old(registry), asset,
        RegistryEntry(filepath, now, if metadata.Some? then metadata.value else map[]))
    {
      var entry := RegistryEntry(filepath, now, if metadata.Some? then metadata.value else map[]);
      RegisterSpec(registry, asset, entry);
      registry := Register(registry, asset, entry);
    }

    method GetRegisteredFiles(asset: string) returns (files: seq<RegistryEntry>)
      ensures files == Lookup(registry, asset)
      ensures |files| > 0 ==> asset in registry.order || !Valid()
    {
      files := if asset in registry.files then registry.files[asset] else [];
    }

    method ListAssets() returns (assets: seq<string>)
      requires Valid()
      ensures assets == registry.order
      ensures forall a :: a in assets <==> Lookup(registry, a) != [] || a in registry.files
    {
      assets := registry.order;
    }

    method ClearRegistry(asset: Option<string>)
      modifies this
      requires Valid()
      ensures Valid()
      ensures registry == Clear(old(registry), asset)
    {
      ClearSpec(registry, asset);
      registry := Clear(registry, asset);
    }

    /** `export_registry()`; `now` is the clock reading. */
    method ExportRegistry(now: string) returns (snapshot: RegistryExport)
      ensures snapshot == RegistryExport(baseDir, now, registry)
    {
      snapshot := RegistryExport(baseDir, now, registry);
    }
  }

  /** `get_path_provider(base_dir)`: a new provider on every call (the global
      instance below the early return is never reached). */
  method GetPathProvider(base: Option<Path>, configured: Option<Path>) returns (p: PathProvider)
    ensures fresh(p) && p.Valid() && p.registry == EmptyRegistry
    ensures p.baseDir == if base.Some? then base.value else if configured.Some? then configured.value else DefaultBaseDir
  {
    p := new PathProvider(base, configured);
  }
}
