/** The reactor's cache of canonical parent directories
    (crates/envoy-files-io/src/engine.rs), over an unchanging file system with
    symbolic links. */
module CanonCache {
  import opened Text

  // -------------------------------------------------------------- file systems

  datatype Component = Name(text: Bytes) | Up

  /** An absolute path; the root is the empty sequence. */
  type Path = seq<Component>

  datatype Node = Missing | Plain | Link(absolute: bool, target: Path)

  /** What lies at a path all of whose proper prefixes are real directories. */
  type FileSystem = Path -> Node

  /** Where walking `rest` from the real directory `at` leads, with how many link
      expansions to spare; the kernel gives up after `fuel` of them. */
  function Walk(fs: FileSystem, at: Path, rest: Path, fuel: nat): Option<(Path, nat)>
    decreases fuel, |rest|
  {
    if rest == [] then Some((at, fuel))
    else if rest[0].Up? then Walk(fs, if at == [] then [] else at[..|at| - 1], rest[1..], fuel)
    else
      match fs(at + [rest[0]])
      case Missing => None
      case Plain => Walk(fs, at + [rest[0]], rest[1..], fuel)
      case Link(absolute, target) =>
        if fuel == 0 then None
        else Walk(fs, if absolute then [] else at, target + rest[1..], fuel - 1)
  }

  const MAX_LINKS := 40

  /** `std::fs::canonicalize`. */
  function Canonicalize(fs: FileSystem, path: Path): Option<Path> {
    match Walk(fs, [], path, MAX_LINKS)
    case Some((canonical, _)) => Some(canonical)
    case None => None
  }

  lemma {:induction false} WalkConcat(fs: FileSystem, at: Path, a: Path, b: Path, fuel: nat)
    ensures Walk(fs, at, a + b, fuel) ==
            match Walk(fs, at, a, fuel)
            case Some((there, left)) => Walk(fs, there, b, left)
            case None => None
    decreases fuel, |a|
  {
    if a == [] {
      assert a + b == b;
    } else {
      assert (a + b)[0] == a[0] && (a + b)[1..] == a[1..] + b;
      if a[0].Up? {
        WalkConcat(fs, if at == [] then [] else at[..|at| - 1], a[1..], b, fuel);
      } else {
        match fs(at + [a[0]]) {
          case Missing =>
          case Plain => WalkConcat(fs, at + [a[0]], a[1..], b, fuel);
          case Link(absolute, target) =>
            if fuel > 0 {
              assert target + (a[1..] + b) == (target + a[1..]) + b;
              WalkConcat(fs, if absolute then [] else at, target + a[1..], b, fuel - 1);
            }
        }
      }
    }
  }

  /** A walk ends where no link is left: every prefix of the answer is real. */
  predicate Real(fs: FileSystem, path: Path) {
    forall i :: 0 <= i < |path| ==> path[i].Name? && fs(path[..i + 1]).Plain?
  }

  lemma {:induction false} WalkIsReal(fs: FileSystem, at: Path, rest: Path, fuel: nat)
    requires Real(fs, at)
    ensures Walk(fs, at, rest, fuel).Some? ==> Real(fs, Walk(fs, at, rest, fuel).value.0)
    decreases fuel, |rest|
  {
    if rest != [] {
      if rest[0].Up? {
        var up := if at == [] then [] else at[..|at| - 1];
        forall i | 0 <= i < |up| ensures up[i].Name? && fs(up[..i + 1]).Plain? {
          assert up[..i + 1] == at[..i + 1];
        }
        WalkIsReal(fs, up, rest[1..], fuel);
      } else {
        var next := at + [rest[0]];
        match fs(next) {
          case Missing =>
          case Plain =>
            forall i | 0 <= i < |next| ensures next[i].Name? && fs(next[..i + 1]).Plain? {
              if i < |at| {
                assert next[..i + 1] == at[..i + 1];
              } else {
                assert next[..i + 1] == next;
              }
            }
            WalkIsReal(fs, next, rest[1..], fuel);
          case Link(absolute, target) =>
            if fuel > 0 {
              WalkIsReal(fs, if absolute then [] else at, target + rest[1..], fuel - 1);
            }
        }
      }
    }
  }

  // ------------------------------------------------------------- the fast answer

  /** `Path::parent` and `Path::file_name`. */
  predicate HasName(path: Path) {
    path != [] && path[|path| - 1].Name?
  }

  function Parent(path: Path): Path
    requires HasName(path)
  {
    path[..|path| - 1]
  }

  function FileName(path: Path): Component
    requires HasName(path)
  {
    path[|path| - 1]
  }

  /** The last component exists and is not a link: what an open that does not
      follow links has proved. */
  predicate FinalIsPlain(fs: FileSystem, path: Path)
    requires HasName(path)
  {
    var parent := Canonicalize(fs, Parent(path));
    parent.Some? && fs(parent.value + [FileName(path)]).Plain?
  }

  /** What the cache answers with: the canonical parent joined with the name. */
  function Joined(fs: FileSystem, path: Path): Option<Path> {
    if !HasName(path) then Canonicalize(fs, path)
    else
      match Canonicalize(fs, Parent(path))
      case Some(parent) => Some(parent + [FileName(path)])
      case None => None
  }

  /** The shortcut agrees with full canonicalization exactly when there is no
      link, nor nothing, at the end of the path: the only other agreement is
      when the parent cannot be resolved either. */
  lemma JoinedIsCanonical(fs: FileSystem, path: Path)
    requires HasName(path)
    ensures FinalIsPlain(fs, path) ==> Joined(fs, path) == Canonicalize(fs, path)
    ensures Joined(fs, path).Some? && Joined(fs, path) == Canonicalize(fs, path) ==> FinalIsPlain(fs, path)
  {
    var parent, name := Parent(path), FileName(path);
    assert path == parent + [name];
    WalkConcat(fs, [], parent, [name], MAX_LINKS);
    assert Real(fs, []);
    WalkIsReal(fs, [], path, MAX_LINKS);
    match Walk(fs, [], parent, MAX_LINKS) {
      case None =>
      case Some((there, left)) =>
        var full := there + [name];
        assert [name][1..] == [];
        if Joined(fs, path) == Canonicalize(fs, path) {
          assert Canonicalize(fs, path) == Some(full);
          assert full[..|there| + 1] == full;
          assert full[|there|] == name;
        }
    }
  }

  // ------------------------------------------------------------------- the cache

  const CANON_CACHE_MAX := 4096

  ghost predicate Consistent(fs: FileSystem, entries: map<Path, Path>) {
    && |entries| <= CANON_CACHE_MAX
    && forall parent :: parent in entries ==> Canonicalize(fs, parent) == Some(entries[parent])
  }

  class Cache {
    var entries: map<Path, Path>

    ghost predicate Valid(fs: FileSystem)
      reads this
    {
      Consistent(fs, entries)
    }

    constructor ()
      ensures forall fs :: Valid(fs)
      ensures entries == map[]
    {
      entries := map[];
    }

    /** `parent_cached_canonicalize`: the answer does not depend on what the
        cache holds; only a parent that resolves is remembered, and a full cache
        is emptied first. */
    method ParentCachedCanonicalize(fs: FileSystem, path: Path) returns (result: Option<Path>)
      requires Valid(fs)
      modifies this
      ensures Valid(fs)
      ensures result == Joined(fs, path)
      ensures HasName(path) && FinalIsPlain(fs, path) ==> result == Canonicalize(fs, path)
      ensures entries == AfterLookup(fs, old(entries), path)
    {
      if !HasName(path) {
        return Canonicalize(fs, path);
      }
      JoinedIsCanonical(fs, path);
      hide Canonicalize, FinalIsPlain;
      var parent, name := Parent(path), FileName(path);
      if parent in entries {
        return Some(entries[parent] + [name]);
      }
      var canonical := Canonicalize(fs, parent);
      if canonical.None? {
        return None;
      }
      if |entries| >= CANON_CACHE_MAX {
        entries := map[];
      }
      RememberConsistent(fs, entries, parent, canonical.value);
      entries := entries[parent := canonical.value];
      return Some(canonical.value + [name]);
    }

    /** The containment check of an open: through the cache unless the file was
        reached by a link, in which case the whole path is resolved. */
    method InsideRoot(fs: FileSystem, path: Path, finalIsLink: bool, root: Path) returns (inside: bool)
      requires Valid(fs)
      requires HasName(path) && !finalIsLink ==> FinalIsPlain(fs, path)
      modifies this
      ensures Valid(fs)
      ensures inside <==> Canonicalize(fs, path).Some? && root <= Canonicalize(fs, path).value
    {
      var canonical;
      if finalIsLink {
        canonical := Canonicalize(fs, path);
      } else {
        canonical := ParentCachedCanonicalize(fs, path);
      }
      inside := canonical.Some? && root <= canonical.value;
    }
  }

  /** What the cache holds after a lookup. */
  function AfterLookup(fs: FileSystem, entries: map<Path, Path>, path: Path): map<Path, Path> {
    if !HasName(path) || Parent(path) in entries then entries
    else
      match Canonicalize(fs, Parent(path))
      case None => entries
      case Some(canonical) =>
        (if |entries| >= CANON_CACHE_MAX then map[] else entries)[Parent(path) := canonical]
  }

  function AfterLookups(fs: FileSystem, paths: seq<Path>): map<Path, Path> {
    if paths == [] then map[] else AfterLookup(fs, AfterLookups(fs, paths[..|paths| - 1]), paths[|paths| - 1])
  }

  lemma LookupConsistent(fs: FileSystem, entries: map<Path, Path>, path: Path)
    requires Consistent(fs, entries)
    ensures Consistent(fs, AfterLookup(fs, entries, path))
  {
    hide Canonicalize;
    if HasName(path) && Parent(path) !in entries && Canonicalize(fs, Parent(path)).Some? {
      var kept := if |entries| >= CANON_CACHE_MAX then map[] else entries;
      RememberConsistent(fs, kept, Parent(path), Canonicalize(fs, Parent(path)).value);
      hide Consistent;
    }
  }

  lemma RememberConsistent(fs: FileSystem, entries: map<Path, Path>, parent: Path, canonical: Path)
    requires Consistent(fs, entries) && |entries| < CANON_CACHE_MAX && Canonicalize(fs, parent) == Some(canonical)
    ensures Consistent(fs, entries[parent := canonical])
  {
    hide Canonicalize;
    assert entries[parent := canonical].Keys == entries.Keys + {parent};
  }

  /** After any lookups, in any order and across any number of clearings: every
      entry is the true canonical form of its directory, and there are never
      more than 4096. */
  lemma {:induction false} CacheStaysTrue(fs: FileSystem, paths: seq<Path>)
    ensures Consistent(fs, AfterLookups(fs, paths))
  {
    if paths != [] {
      CacheStaysTrue(fs, paths[..|paths| - 1]);
      LookupConsistent(fs, AfterLookups(fs, paths[..|paths| - 1]), paths[|paths| - 1]);
    }
  }
}
