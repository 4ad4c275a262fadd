/** `class FileManager`, and why nothing outside the media root reaches a client. */
module FileManagers {
  import opened Wrappers
  import opened Text
  import opened Protocol
  import opened Sessions
  import opened Paths
  import opened Catalogues

  /** A regular file: its size unless asking for it fails, whether it opens, what reading it yields. */
  datatype DiskFile = DiskFile(size: Option<U64>, opens: bool, contents: Bytes)

  /** A fixed filesystem: where the server's file names lead (weakly_canonical of root / name, or no
      entry if that fails), the regular files, and the directories in iteration order. */
  datatype Disk = Disk(canonical: map<Bytes, Path>, regular: map<Path, DiskFile>, directories: map<Path, seq<DirEntry>>)

  function SafePath(root: Path, disk: Disk, name: Bytes): Option<Path> {
    ResolveSafePath(root, name, if name in disk.canonical then Some(disk.canonical[name]) else None)
  }

  /** get_file_size succeeds. */
  predicate Sized(root: Path, disk: Disk, name: Bytes) {
    match SafePath(root, disk, name)
    case None => false
    case Some(path) => path in disk.regular && disk.regular[path].size.Some?
  }

  function FileBehind(root: Path, disk: Disk, name: Bytes): MediaFile
    requires Sized(root, disk, name)
  {
    var file := disk.regular[SafePath(root, disk, name).value];
    MediaFile(file.size.value, file.opens, file.contents)
  }

  /** The library the sessions of a server with this root work on. */
  function LibraryOf(root: Path, disk: Disk): Library {
    Library(
      if root in disk.directories then Catalogue(disk.directories[root]) else [],
      map name | name in disk.canonical && Sized(root, disk, name) :: FileBehind(root, disk, name))
  }

  predicate ValidDisk(disk: Disk) { forall name | name in disk.canonical :: Normal(disk.canonical[name]) }

  /** The name is a relative one without NUL that leads to the root, or below it not through a component that
      begins with "..". */
  predicate Reachable(root: Path, disk: Disk, name: Bytes) {
    && name != [] && '\0' !in name && name[0] != '/' && name in disk.canonical
    && var path := disk.canonical[name];
    root <= path && (|path| > |root| ==> !(".." <= path[|root|]))
  }

  lemma SafeIsReachable(root: Path, disk: Disk, name: Bytes)
    requires AllNames(root) && ValidDisk(disk)
    ensures SafePath(root, disk, name).Some? <==> Reachable(root, disk, name)
    ensures Reachable(root, disk, name) ==> SafePath(root, disk, name) == Some(disk.canonical[name])
  {
    hide Inside, Relative;
    if name in disk.canonical {
      SafePathsAreContained(root, name, Some(disk.canonical[name]), disk.canonical[name]);
    }
  }

  /** The library: the names that lead to a regular file at or below the root whose size the filesystem
      tells, each with that size, whether it opens and what it yields; and the catalogue of the root. */
  lemma LibraryHolds(root: Path, disk: Disk, name: Bytes)
    requires AllNames(root) && ValidDisk(disk)
    ensures var lib := LibraryOf(root, disk);
      && (name in lib.files <==>
            Reachable(root, disk, name)
            && disk.canonical[name] in disk.regular && disk.regular[disk.canonical[name]].size.Some?)
      && (name in lib.files ==>
            var file := disk.regular[disk.canonical[name]];
            lib.files[name] == MediaFile(file.size.value, file.opens, file.contents))
      && lib.catalogue == if root in disk.directories then Catalogue(disk.directories[root]) else []
  {
    hide Reachable, SafePath;
    SafeIsReachable(root, disk, name);
    assert Reachable(root, disk, name) ==> name in disk.canonical by { ReachableIsThere(root, disk, name); }
  }

  lemma ReachableIsThere(root: Path, disk: Disk, name: Bytes)
    ensures Reachable(root, disk, name) ==> name in disk.canonical
  {
  }

  /** What the loop still collects. */
  function Rest(entries: seq<DirEntry>, failed: bool): seq<MediaFileInfo> { if failed then [] else Listed(entries) }

  lemma NothingLeft(entries: seq<DirEntry>, failed: bool)
    ensures failed || entries == [] ==> Rest(entries, failed) == []
  {
  }

  lemma RestStep(e: DirEntry, rest: seq<DirEntry>)
    ensures Rest([e] + rest, false) == Info(e) + Rest(rest, Breaks(e))
  {
    assert ([e] + rest)[1..] == rest;
  }

  /** The loop that fills the vector. `failed` is the error code, which the loop looks at only when
      it comes to the next entry. */
  method CollectFiles(entries: seq<DirEntry>) returns (files: seq<MediaFileInfo>)
    ensures files == Listed(entries)
  {
    hide Listed;
    files := [];
    var i, failed := 0, false;
    assert entries[0..] == entries;
    while i < |entries|
      invariant i <= |entries|
      invariant Listed(entries) == files + Rest(entries[i..], failed)
    {
      if failed {
        break;
      }
      var entry := entries[i];
      assert entries[i..] == [entry] + entries[i + 1..];
      RestStep(entry, entries[i + 1..]);
      i := i + 1;
      failed := entry.status.Unreadable?;
      if entry.status.Regular? {
        if entry.name != [] && entry.name[0] == '.' {
          continue;
        }
        match entry.status.size {
          case Some(size) => files := files + [MediaFileInfo(entry.name, size)];
          case None => failed := true;
        }
      }
    }
    NothingLeft(entries[i..], failed);
  }

  class FileManager {
    var canonicalRoot: Path
    const disk: Disk

    constructor (canonicalRoot: Path, disk: Disk)
      ensures this.canonicalRoot == canonicalRoot && this.disk == disk
    {
      this.canonicalRoot, this.disk := canonicalRoot, disk;
    }

    function View(): Library
      reads this
    {
      LibraryOf(canonicalRoot, disk)
    }

    method ResolvePath(filename: Bytes) returns (ok: bool, path: Path)
      ensures ok == SafePath(canonicalRoot, disk, filename).Some?
      ensures ok ==> SafePath(canonicalRoot, disk, filename) == Some(path)
      ensures ok ==> filename in disk.canonical && path == disk.canonical[filename]
      ensures AllNames(canonicalRoot) && ValidDisk(disk) ==> (ok <==> Reachable(canonicalRoot, disk, filename))
      ensures ok && AllNames(canonicalRoot) && Normal(path) ==> canonicalRoot <= path
    {
      if AllNames(canonicalRoot) && ValidDisk(disk) { SafeIsReachable(canonicalRoot, disk, filename); }
      path := [];
      if filename == [] || '\0' in filename || filename[0] == '/' {
        return false, path;
      }
      if filename !in disk.canonical {
        return false, path;
      }
      var weaklyCanonical := disk.canonical[filename];
      var rel := Relative(weaklyCanonical, canonicalRoot);
      if rel == [] || ".." <= Join(rel) || "/" <= Join(rel) {
        return false, path;
      }
      path := weaklyCanonical;
      if AllNames(canonicalRoot) && Normal(path) {
        InsideIsContainment(canonicalRoot, path);
      }
      return true, path;
    }

    /** The size is told exactly for the names of the library. */
    method GetFileSize(filename: Bytes) returns (size: Option<U64>)
      ensures size == if filename in View().files then Some(View().files[filename].size) else None
    {
      var ok, path := ResolvePath(filename);
      if !ok || path !in disk.regular {
        return None;
      }
      size := disk.regular[path].size;
    }

    /** A regular file opens exactly if its name is safe and it can be read; of the names whose size is
        told, those open that the library says open. */
    method OpenBinaryFile(filename: Bytes) returns (contents: Option<Bytes>)
      ensures contents.Some? <==>
        && SafePath(canonicalRoot, disk, filename).Some?
        && var path := SafePath(canonicalRoot, disk, filename).value;
        && path in disk.regular && disk.regular[path].opens
      ensures contents.Some? ==> contents.value == disk.regular[SafePath(canonicalRoot, disk, filename).value].contents
      ensures filename in View().files ==>
        contents == if View().files[filename].opens then Some(View().files[filename].contents) else None
    {
      var ok, path := ResolvePath(filename);
      if !ok || path !in disk.regular || !disk.regular[path].opens {
        return None;
      }
      contents := Some(disk.regular[path].contents);
    }

    method ListFiles() returns (files: seq<MediaFileInfo>)
      ensures files == View().catalogue
    {
      files := [];
      if canonicalRoot !in disk.directories {
        return;
      }
      files := CollectFiles(disk.directories[canonicalRoot]);
      files := Sort(files);
    }
  }

  // ---------------------------------------------------------------- nothing outside is served

  /** The name leads to the root or below it. */
  predicate LeadsInside(root: Path, disk: Disk, name: Bytes) {
    name in disk.canonical && root <= disk.canonical[name]
  }

  /** The two disks do not differ at or below the root, nor in which names lead there, and to what. */
  ghost predicate SameInside(root: Path, a: Disk, b: Disk) {
    && (forall name :: LeadsInside(root, a, name) <==> LeadsInside(root, b, name))
    && (forall name | LeadsInside(root, a, name) :: a.canonical[name] == b.canonical[name])
    && (forall p | p in a.regular && root <= p :: p in b.regular && a.regular[p] == b.regular[p])
    && (forall p | p in b.regular && root <= p :: p in a.regular)
    && (root in a.directories <==> root in b.directories)
    && (root in a.directories ==> a.directories[root] == b.directories[root])
  }

  lemma SafePathIsInside(root: Path, disk: Disk, name: Bytes)
    requires AllNames(root) && ValidDisk(disk) && SafePath(root, disk, name).Some?
    ensures LeadsInside(root, disk, name) && SafePath(root, disk, name) == Some(disk.canonical[name])
  {
    hide Inside, Relative;
    InsideIsContainment(root, disk.canonical[name]);
  }

  lemma SameSafePath(root: Path, a: Disk, b: Disk, name: Bytes)
    requires AllNames(root) && ValidDisk(a) && ValidDisk(b) && SameInside(root, a, b)
    ensures SafePath(root, a, name) == SafePath(root, b, name)
  {
    hide ResolveSafePath;
    assert LeadsInside(root, a, name) <==> LeadsInside(root, b, name);
    if !LeadsInside(root, a, name) {
      if SafePath(root, a, name).Some? { SafePathIsInside(root, a, name); }
      if SafePath(root, b, name).Some? { SafePathIsInside(root, b, name); }
    }
  }

  lemma SameFile(root: Path, a: Disk, b: Disk, name: Bytes)
    requires AllNames(root) && ValidDisk(a) && ValidDisk(b) && SameInside(root, a, b)
    ensures Sized(root, a, name) <==> Sized(root, b, name)
    ensures Sized(root, a, name) ==> name in a.canonical && name in b.canonical
    ensures Sized(root, a, name) ==> FileBehind(root, a, name) == FileBehind(root, b, name)
  {
    hide SafePath;
    SameSafePath(root, a, b, name);
    if SafePath(root, a, name).Some? {
      SafePathIsInside(root, a, name);
      SafePathIsInside(root, b, name);
    }
  }

  /** Whatever a session does, on any request stream and under any failures, it does the same when
      the filesystem outside the media root is different: no name leads a client out of it. */
  lemma OutsideIsInvisible(root: Path, a: Disk, b: Disk, x: Session, chunk: nat)
    requires AllNames(root) && ValidDisk(a) && ValidDisk(b) && SameInside(root, a, b) && chunk > 0
    ensures LibraryOf(root, a) == LibraryOf(root, b)
    ensures Run(x, LibraryOf(root, a), chunk) == Run(x, LibraryOf(root, b), chunk)
  {
    hide Sized, FileBehind, Run;
    forall name
      ensures Sized(root, a, name) <==> Sized(root, b, name)
      ensures Sized(root, a, name) ==> name in a.canonical && name in b.canonical
      ensures Sized(root, a, name) ==> FileBehind(root, a, name) == FileBehind(root, b, name)
    {
      SameFile(root, a, b, name);
    }
    assert LibraryOf(root, a).files == LibraryOf(root, b).files;
  }
}
