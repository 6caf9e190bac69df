/** Backup and restore of the daemon's state files. */
module Backup {
  import opened Wrappers

  /** The segments of a path relative to its directory. */
  type Path = seq<string>

  type Content = seq<nat>

  type Files = map<Path, Content>

  const STORAGE: Path := ["storage.json"]
  const ORACLE_DB: Path := ["oracle.db"]
  const SIDECARS: set<Path> := {["oracle.db-wal"], ["oracle.db-shm"]}
  const FORMAT_VERSION := 1

  predicate IsBlob(p: Path) { |p| >= 2 && p[0] == "blobs" }

  /** What a snapshot holds; config, logs and the sidecars of the database are not state. */
  predicate IsState(p: Path) { p == STORAGE || p == ORACLE_DB || IsBlob(p) }

  /** A path that stays inside its directory. */
  predicate Inside(p: Path) { p != [] && ".." !in p && "" !in p }

  datatype Entry = Entry(path: Path, bytes: nat, sha256: nat)

  datatype Manifest = Manifest(formatVersion: nat, files: seq<Entry>)

  datatype Error =
    | NothingToBackUp | DestinationNotEmpty
    | NotABackup | UnsupportedFormat | PathEscapes | Incomplete | Corrupt

  datatype Result<T> = Ok(value: T) | Err(error: Error)

  /** A digest of file contents. */
  type Digest = Content -> nat

  /** A consistent copy of the database, made from the whole data dir: committed pages may still be in a sidecar. */
  type DatabaseCopy = Files -> Content

  // What the operations mean

  /** The state of a data dir at backup time. */
  function State(data: Files, copy: DatabaseCopy): (state: Files)
    ensures state.Keys == set p | p in data && IsState(p)
  {
    map p | p in data && IsState(p) :: if p == ORACLE_DB then copy(data) else data[p]
  }

  /** The order the files are copied in; `listing` is what the directory walk over blobs yields. */
  function StatePaths(data: Files, listing: seq<Path>): seq<Path> {
    (if STORAGE in data then [STORAGE] else []) + (if ORACLE_DB in data then [ORACLE_DB] else []) + listing
  }

  ghost predicate ListsBlobs(data: Files, listing: seq<Path>) {
    forall p :: p in listing <==> p in data && IsBlob(p)
  }

  function EntryFor(p: Path, files: Files, sha: Digest): Entry
    requires p in files
  {
    Entry(p, |files[p]|, sha(files[p]))
  }

  predicate Matches(e: Entry, files: Files, sha: Digest) {
    e.path in files && e.bytes == |files[e.path]| && e.sha256 == sha(files[e.path])
  }

  /** `base` with the files at `paths` copied over it, in order. */
  function Copied(base: Files, from: Files, paths: seq<Path>): Files
    requires forall p <- paths :: p in from
    decreases |paths|
  {
    if |paths| == 0 then base
    else
      var last := paths[|paths| - 1];
      Copied(base, from, paths[..|paths| - 1])[last := from[last]]
  }

  function PathsOf(entries: seq<Entry>): (r: seq<Path>)
    ensures |r| == |entries| && forall i | 0 <= i < |r| :: r[i] == entries[i].path
  {
    seq(|entries|, i requires 0 <= i < |entries| => entries[i].path)
  }

  /** Whatever is called `blobs` goes, a plain file of that name included. */
  predicate UnderBlobs(p: Path) { p != [] && p[0] == "blobs" }

  /** What a restore removes before it copies. */
  predicate Dropped(p: Path) { p == STORAGE || p == ORACLE_DB || p in SIDECARS || UnderBlobs(p) }

  /** What a restore leaves alone. */
  function Kept(data: Files): Files {
    map p | p in data && !Dropped(p) :: data[p]
  }

  class Dir {
    var files: Files
    var manifest: Option<Manifest>

    constructor (f: Files)
      ensures files == f && manifest == None
    {
      files, manifest := f, None;
    }
  }

  /** A directory holding just what `WriteSnapshot` promises. */
  ghost predicate Written(snapshot: Files, manifest: Manifest, data: Files, copy: DatabaseCopy, sha: Digest) {
    && snapshot == State(data, copy) && manifest.formatVersion == FORMAT_VERSION
    && (forall e <- manifest.files :: Matches(e, snapshot, sha))
    && (forall p :: p in snapshot <==> p in PathsOf(manifest.files))
  }

  method WriteSnapshot(data: Dir, dest: Dir, copy: DatabaseCopy, sha: Digest, listing: seq<Path>)
    returns (r: Result<Manifest>)
    requires data != dest && ListsBlobs(data.files, listing)
    modifies dest
    ensures STORAGE !in data.files && ORACLE_DB !in data.files <==> r == Err(NothingToBackUp)
    ensures r == Err(DestinationNotEmpty) <==>
              (STORAGE in data.files || ORACLE_DB in data.files) && old(dest.files != map[] || dest.manifest.Some?)
    ensures r.Err? ==> dest.files == old(dest.files) && dest.manifest == old(dest.manifest)
    ensures r.Ok? ==>
              && dest.manifest == Some(r.value) && Written(dest.files, r.value, data.files, copy, sha)
              && PathsOf(r.value.files) == StatePaths(data.files, listing)
    ensures r.Ok? || r == Err(NothingToBackUp) || r == Err(DestinationNotEmpty)
  {
    var hasStorage, hasOracleDb := STORAGE in data.files, ORACLE_DB in data.files;
    if !hasStorage && !hasOracleDb { return Err(NothingToBackUp); }
    if dest.files != map[] || dest.manifest.Some? { return Err(DestinationNotEmpty); }
    hide IsState, State, ListsBlobs, StatePaths, IsBlob;
    var relPaths := CopyState(data, dest, copy, listing);
    var entries := Describe(dest.files, relPaths, sha);
    StateIsListed(data.files, listing, copy);
    var manifest := Manifest(FORMAT_VERSION, entries);
    assert PathsOf(entries) == relPaths;
    dest.manifest := Some(manifest);
    r := Ok(manifest);
  }

  /** Copies the state files into an empty directory; returns their paths in the order they were copied. */
  method CopyState(data: Dir, dest: Dir, copy: DatabaseCopy, listing: seq<Path>) returns (relPaths: seq<Path>)
    requires data != dest && ListsBlobs(data.files, listing) && dest.files == map[]
    modifies dest`files
    ensures dest.files == State(data.files, copy) && relPaths == StatePaths(data.files, listing)
    ensures forall p <- relPaths :: p in dest.files
  {
    hide IsState, State, ListsBlobs, StatePaths, IsBlob;
    ghost var state := State(data.files, copy);
    StateHas(data.files, listing, copy);
    assert forall p <- StatePaths(data.files, []) :: p in state by { StatePathsSplit(data.files, listing); }
    relPaths := CopySingles(data, dest, copy);
    StatePathsSplit(data.files, listing);
    ghost var heads := StatePaths(data.files, []);
    for i := 0 to |listing|
      invariant relPaths == heads + listing[..i] && forall p <- relPaths :: p in state
      invariant dest.files == Copied(map[], state, relPaths)
    {
      var relPath := listing[i];
      assert (relPaths + [relPath])[..|relPaths|] == relPaths;
      dest.files := dest.files[relPath := data.files[relPath]];
      relPaths := relPaths + [relPath];
    }
    assert listing[..|listing|] == listing;
    assert relPaths == StatePaths(data.files, listing);
    StateIsCopied(data.files, listing, copy);
  }

  /** The two files that are not blobs, those that exist. */
  method CopySingles(data: Dir, dest: Dir, copy: DatabaseCopy) returns (relPaths: seq<Path>)
    requires data != dest && dest.files == map[]
    requires forall p <- StatePaths(data.files, []) :: p in State(data.files, copy)
    modifies dest`files
    ensures relPaths == StatePaths(data.files, [])
    ensures dest.files == Copied(map[], State(data.files, copy), relPaths)
  {
    hide IsState, State, StatePaths, IsBlob, Copied;
    HeadsOf(data.files);
    HeadsCopied(data.files, copy);
    hide STORAGE, ORACLE_DB;
    relPaths := [];
    if STORAGE in data.files {
      dest.files := dest.files[STORAGE := data.files[STORAGE]];
      relPaths := relPaths + [STORAGE];
    }
    if ORACLE_DB in data.files {
      dest.files := dest.files[ORACLE_DB := copy(data.files)];
      relPaths := relPaths + [ORACLE_DB];
    }
  }

  method Describe(files: Files, relPaths: seq<Path>, sha: Digest) returns (entries: seq<Entry>)
    requires forall p <- relPaths :: p in files
    ensures |entries| == |relPaths|
    ensures forall i | 0 <= i < |entries| :: entries[i].path == relPaths[i] && Matches(entries[i], files, sha)
  {
    entries := [];
    for i := 0 to |relPaths|
      invariant |entries| == i
      invariant forall k | 0 <= k < i :: entries[k].path == relPaths[k] && Matches(entries[k], files, sha)
    {
      entries := entries + [EntryFor(relPaths[i], files, sha)];
    }
  }

  lemma {:induction false} StateHas(data: Files, listing: seq<Path>, copy: DatabaseCopy)
    requires ListsBlobs(data, listing)
    ensures forall p <- StatePaths(data, listing) :: p in State(data, copy)
    ensures forall p <- listing :: p in data && p in State(data, copy) && State(data, copy)[p] == data[p]
  {
    assert !IsBlob(STORAGE) && !IsBlob(ORACLE_DB);
  }

  lemma {:induction false} HeadsOf(data: Files)
    ensures StatePaths(data, []) ==
              (if STORAGE in data then [STORAGE] else []) + (if ORACLE_DB in data then [ORACLE_DB] else [])
  {
    var heads: seq<Path> :=
      (if STORAGE in data then [STORAGE] else []) + (if ORACLE_DB in data then [ORACLE_DB] else []);
    assert heads + [] == heads;
  }

  lemma {:induction false} StatePathsSplit(data: Files, listing: seq<Path>)
    ensures StatePaths(data, listing) == StatePaths(data, []) + listing
  {
    HeadsOf(data);
  }

  /** Copying selects from the source what the paths name, over the base. */
  lemma {:induction false} CopiedIs(base: Files, from: Files, paths: seq<Path>, p: Path)
    requires forall q <- paths :: q in from
    ensures p in Copied(base, from, paths) <==> p in base || p in paths
    ensures p in paths ==> Copied(base, from, paths)[p] == from[p]
    ensures p in base && p !in paths ==> Copied(base, from, paths)[p] == base[p]
    decreases |paths|
  {
    if |paths| > 0 {
      CopiedIs(base, from, paths[..|paths| - 1], p);
    }
  }

  lemma {:induction false} StateIsCopied(data: Files, listing: seq<Path>, copy: DatabaseCopy)
    requires ListsBlobs(data, listing) && forall p <- StatePaths(data, listing) :: p in State(data, copy)
    ensures Copied(map[], State(data, copy), StatePaths(data, listing)) == State(data, copy)
  {
    var state, paths := State(data, copy), StatePaths(data, listing);
    StateIsListed(data, listing, copy);
    hide *;
    var copied := Copied(map[], state, paths);
    forall p ensures (p in copied <==> p in state) && (p in state ==> copied[p] == state[p]) {
      CopiedIs(map[], state, paths, p);
    }
  }

  lemma {:induction false} StateIsListed(data: Files, listing: seq<Path>, copy: DatabaseCopy)
    requires ListsBlobs(data, listing)
    ensures forall p :: p in State(data, copy) <==> p in StatePaths(data, listing)
  {
  }

  lemma {:induction false} HeadsCopied(data: Files, copy: DatabaseCopy)
    requires forall p <- StatePaths(data, []) :: p in State(data, copy)
    ensures Copied(map[], State(data, copy), StatePaths(data, []))
      == var storage: Files := if STORAGE in data then map[STORAGE := data[STORAGE]] else map[];
         if ORACLE_DB in data then storage[ORACLE_DB := copy(data)] else storage
  {
    HeadsOf(data);
    var state := State(data, copy);
    assert STORAGE in data ==> state[STORAGE] == data[STORAGE];
    assert ORACLE_DB in data ==> state[ORACLE_DB] == copy(data);
    hide State;
    var heads := StatePaths(data, []);
    forall p ensures p in Copied(map[], state, heads) <==> p in heads { CopiedIs(map[], state, heads, p); }
    forall p | p in heads ensures Copied(map[], state, heads)[p] == state[p] { CopiedIs(map[], state, heads, p); }
  }

  /** The integrity gate: every listed file, in order, up to the first that fails. */
  function FirstFault(files: seq<Entry>, snapshot: Files, sha: Digest): Option<Error> {
    if files == [] then None
    else if files[0].path !in snapshot then Some(Incomplete)
    else if !Matches(files[0], snapshot, sha) then Some(Corrupt)
    else FirstFault(files[1..], snapshot, sha)
  }

  function Verified(snapshot: Files, manifest: Option<Manifest>, sha: Digest): Result<Manifest> {
    if manifest.None? then Err(NotABackup)
    else if manifest.value.formatVersion != FORMAT_VERSION then Err(UnsupportedFormat)
    else if exists e <- manifest.value.files :: !Inside(e.path) then Err(PathEscapes)
    else
      var fault := FirstFault(manifest.value.files, snapshot, sha);
      if fault.Some? then Err(fault.value) else Ok(manifest.value)
  }

  method VerifySnapshot(snapshot: Dir, sha: Digest) returns (r: Result<Manifest>)
    ensures r == Verified(snapshot.files, snapshot.manifest, sha)
  {
    if snapshot.manifest.None? { return Err(NotABackup); }
    var manifest := snapshot.manifest.value;
    if manifest.formatVersion != FORMAT_VERSION { return Err(UnsupportedFormat); }
    for i := 0 to |manifest.files|
      invariant forall k | 0 <= k < i :: Inside(manifest.files[k].path)
    {
      if !Inside(manifest.files[i].path) {
        assert manifest.files[i] in manifest.files;
        return Err(PathEscapes);
      }
    }
    assert manifest.files[0..] == manifest.files;
    for i := 0 to |manifest.files|
      invariant FirstFault(manifest.files, snapshot.files, sha) == FirstFault(manifest.files[i..], snapshot.files, sha)
    {
      var entry := manifest.files[i];
      assert manifest.files[i..][0] == entry && manifest.files[i..][1..] == manifest.files[i + 1..];
      if entry.path !in snapshot.files { return Err(Incomplete); }
      var content := snapshot.files[entry.path];
      if |content| != entry.bytes || sha(content) != entry.sha256 { return Err(Corrupt); }
    }
    return Ok(manifest);
  }

  /** Replaces the state wholesale; what the manifest lists was verified to be there. */
  method RestoreSnapshot(snapshot: Dir, data: Dir, manifest: Manifest) returns (restored: seq<Path>)
    requires snapshot != data && forall e <- manifest.files :: e.path in snapshot.files
    modifies data`files
    ensures restored == PathsOf(manifest.files) && forall p <- restored :: p in snapshot.files
    ensures data.files == Copied(Kept(old(data.files)), snapshot.files, restored)
  {
    data.files := data.files - ({STORAGE, ORACLE_DB} + SIDECARS);
    data.files := map p | p in data.files && !UnderBlobs(p) :: data.files[p];
    assert data.files == Kept(old(data.files));
    hide Kept, Dropped, UnderBlobs;
    restored := [];
    for i := 0 to |manifest.files|
      invariant restored == PathsOf(manifest.files)[..i] && forall p <- restored :: p in snapshot.files
      invariant data.files == Copied(Kept(old(data.files)), snapshot.files, restored)
    {
      var entry := manifest.files[i];
      assert (restored + [entry.path])[..|restored|] == restored;
      data.files := data.files[entry.path := snapshot.files[entry.path]];
      restored := restored + [entry.path];
    }
  }

  // The properties

  lemma {:induction false} NoFault(files: seq<Entry>, snapshot: Files, sha: Digest)
    ensures FirstFault(files, snapshot, sha).None? <==> forall e <- files :: Matches(e, snapshot, sha)
  {
    if files != [] {
      NoFault(files[1..], snapshot, sha);
      assert files[0] in files;
      assert forall e :: e in files <==> e == files[0] || e in files[1..];
    }
  }

  /** Verification accepts exactly the whole, unaltered snapshots of this format. */
  lemma {:induction false} VerifyAcceptsExactly(snapshot: Files, manifest: Option<Manifest>, sha: Digest)
    ensures Verified(snapshot, manifest, sha).Ok? <==>
              (manifest.Some? && manifest.value.formatVersion == FORMAT_VERSION
              && forall e <- manifest.value.files :: Inside(e.path) && Matches(e, snapshot, sha))
  {
    if manifest.Some? { NoFault(manifest.value.files, snapshot, sha); }
  }

  /** It accepts what was written, for any data dir whose files have real paths. */
  lemma {:induction false} VerifyAcceptsWritten(
    snapshot: Files, manifest: Manifest, data: Files, copy: DatabaseCopy, sha: Digest)
    requires Written(snapshot, manifest, data, copy, sha) && forall p <- data :: Inside(p)
    ensures Verified(snapshot, Some(manifest), sha) == Ok(manifest)
  {
    VerifyAcceptsExactly(snapshot, Some(manifest), sha);
  }

  /** Whatever is accepted under the manifest still has the contents that were written. */
  lemma {:induction false} AcceptedIsUnaltered(
    snapshot: Files, manifest: Manifest, data: Files, copy: DatabaseCopy, sha: Digest, later: Files)
    requires Written(snapshot, manifest, data, copy, sha)
    requires Verified(later, Some(manifest), sha).Ok?
    requires forall p, q | p in snapshot && q in later :: sha(snapshot[p]) == sha(later[q]) ==> snapshot[p] == later[q]
    ensures forall p <- snapshot :: p in later && later[p] == snapshot[p]
  {
    VerifyAcceptsExactly(later, Some(manifest), sha);
    forall p | p in snapshot ensures p in later && later[p] == snapshot[p] {
      var i :| 0 <= i < |manifest.files| && PathsOf(manifest.files)[i] == p;
      assert manifest.files[i] in manifest.files;
    }
  }

  /**
   * A restore is a rewind: over any data dir the state becomes the state at backup time, nothing stale is left,
   * the sidecars and a plain file in the place of the blobs are gone, and every other file stays as it was.
   */
  lemma {:induction false} RestoreIsARewind(
    snapshot: Files, manifest: Manifest, source: Files, copy: DatabaseCopy, sha: Digest, data: Files, p: Path)
    requires Written(snapshot, manifest, source, copy, sha)
    ensures var after := Copied(Kept(data), snapshot, PathsOf(manifest.files));
            && (IsState(p) ==> (p in after <==> p in source && IsState(p)))
            && (IsState(p) && p in after ==> after[p] == State(source, copy)[p])
            && (p in SIDECARS || p == ["blobs"] ==> p !in after)
            && (!IsState(p) && p !in SIDECARS && p != ["blobs"] ==> (p in after <==> p in data))
            && (!IsState(p) && p in after ==> p in data && after[p] == data[p])
  {
    CopiedIs(Kept(data), snapshot, PathsOf(manifest.files), p);
  }
}
