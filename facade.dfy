/** The filesystem facade: one driver, an optional root and an optional public URL base.
    Driver failures become `false`, a null-like sentinel, or a typed error, operation by operation. */
module Facade {
  import opened Wrappers
  import opened Errors
  import Paths
  import Filenames
  import opened Storage

  // ---------------------------------------------------------------------------
  // Listings: files() and directories()

  /** A value `array_filter` without a callback drops (the only falsy strings). */
  predicate Falsy(s: string) {
    s == "" || s == "0"
  }

  /** An entry that files() (`!dirs`) or directories() (`dirs`) keeps: of that kind, and not falsy. */
  predicate Kept(entry: Attr, dirs: bool) {
    entry.DirAttr? == dirs && !Falsy(entry.path)
  }

  /** `array_values(array_filter(array_map(fn => isDir/isFile ? path : null, $listing)))`:
      the non-falsy paths of the directory entries (`dirs`) or of the file entries (`!dirs`),
      in listing order, re-indexed from 0. */
  function PathsOfKind(listing: seq<Attr>, dirs: bool): (r: seq<string>)
    ensures |r| <= |listing|
    ensures forall i | 0 <= i < |r| :: !Falsy(r[i])
  {
    if listing == [] then []
    else
      var rest := PathsOfKind(listing[1..], dirs);
      if Kept(listing[0], dirs) then [listing[0].path] + rest else rest
  }

  /** A path is in the result exactly when some entry of the right kind carries it and it is not falsy. */
  lemma {:induction false} PathsOfKindMembers(listing: seq<Attr>, dirs: bool, p: string)
    ensures p in PathsOfKind(listing, dirs) <==>
      !Falsy(p) && exists i | 0 <= i < |listing| :: listing[i].DirAttr? == dirs && listing[i].path == p
  {
    if listing != [] {
      PathsOfKindMembers(listing[1..], dirs, p);
      if exists i | 0 <= i < |listing| :: listing[i].DirAttr? == dirs && listing[i].path == p {
        var i :| 0 <= i < |listing| && listing[i].DirAttr? == dirs && listing[i].path == p;
        if i > 0 {
          assert listing[1..][i - 1] == listing[i];
        }
      }
      if exists i | 0 <= i < |listing[1..]| :: listing[1..][i].DirAttr? == dirs && listing[1..][i].path == p {
        var i :| 0 <= i < |listing[1..]| && listing[1..][i].DirAttr? == dirs && listing[1..][i].path == p;
        assert listing[i + 1] == listing[1..][i];
      }
    }
  }

  /** `idx` enumerates, in increasing order, the positions of every kept entry of `listing`,
      and `r[j]` is the path at position `idx[j]`. */
  predicate Enumerates(listing: seq<Attr>, dirs: bool, idx: seq<nat>, r: seq<string>) {
    && |idx| == |r|
    && (forall j | 0 <= j < |idx| ::
         idx[j] < |listing| && Kept(listing[idx[j]], dirs) && r[j] == listing[idx[j]].path)
    && (forall j, j' | 0 <= j < j' < |idx| :: idx[j] < idx[j'])
    && (forall i | 0 <= i < |listing| && Kept(listing[i], dirs) :: i in idx)
  }

  /** The result is exactly the kept entries' paths in listing order, each kept entry once:
      `idx` enumerates the positions of every kept entry, increasing, and the result's
      `j`-th path is the path at position `idx[j]`. */
  lemma {:induction false} PathsOfKindSelects(listing: seq<Attr>, dirs: bool) returns (idx: seq<nat>)
    ensures Enumerates(listing, dirs, idx, PathsOfKind(listing, dirs))
  {
    if listing == [] {
      return [];
    }
    var n := |listing| - 1;
    var front := listing[..n];
    assert listing == front + [listing[n]];
    PathsOfKindConcat(front, [listing[n]], dirs);
    var before := PathsOfKindSelects(front, dirs);
    idx := EnumerationStep(front, listing[n], dirs, before, PathsOfKind(front, dirs));
  }

  /** One more entry at the end extends the enumeration by its position when it is kept. */
  lemma {:induction false} EnumerationStep(front: seq<Attr>, last: Attr, dirs: bool, before: seq<nat>, r: seq<string>)
    returns (idx: seq<nat>)
    requires Enumerates(front, dirs, before, r)
    ensures Enumerates(front + [last], dirs, idx, r + PathsOfKind([last], dirs))
  {
    var listing, n := front + [last], |front|;
    var r' := r + PathsOfKind([last], dirs);
    idx := if Kept(last, dirs) then before + [n] else before;
    forall j | 0 <= j < |idx|
      ensures idx[j] < |listing| && Kept(listing[idx[j]], dirs) && r'[j] == listing[idx[j]].path
    {
      if j < |before| {
        assert idx[j] == before[j] && r'[j] == r[j] && listing[before[j]] == front[before[j]];
      }
    }
    EnumerationCovers(front, last, dirs, before, idx);
  }

  /** Every kept position of the longer listing is in the extended enumeration. */
  lemma {:induction false} EnumerationCovers(front: seq<Attr>, last: Attr, dirs: bool, before: seq<nat>, idx: seq<nat>)
    requires forall i | 0 <= i < |front| && Kept(front[i], dirs) :: i in before
    requires idx == if Kept(last, dirs) then before + [|front|] else before
    ensures forall i | 0 <= i < |front + [last]| && Kept((front + [last])[i], dirs) :: i in idx
  {
    var listing := front + [last];
    forall i | 0 <= i < |listing| && Kept(listing[i], dirs)
      ensures i in idx
    {
      if i < |front| {
        assert front[i] == listing[i];
        assert i in before;
      } else {
        assert idx[|idx| - 1] == i;
      }
    }
  }

  /** The positions of the kept entries. */
  function KeptPositions(listing: seq<Attr>, dirs: bool): set<int> {
    set i | 0 <= i < |listing| && Kept(listing[i], dirs)
  }

  /** Listing the parts of a listing one after the other gives the whole listing's result. */
  lemma {:induction false} PathsOfKindConcat(a: seq<Attr>, b: seq<Attr>, dirs: bool)
    ensures PathsOfKind(a + b, dirs) == PathsOfKind(a, dirs) + PathsOfKind(b, dirs)
  {
    if a == [] {
      assert a + b == b;
    } else {
      assert (a + b)[0] == a[0] && (a + b)[1..] == a[1..] + b;
      PathsOfKindConcat(a[1..], b, dirs);
    }
  }

  /** The result has one path per kept entry. */
  lemma {:induction false} PathsOfKindCount(listing: seq<Attr>, dirs: bool)
    ensures |PathsOfKind(listing, dirs)| == |KeptPositions(listing, dirs)|
  {
    if listing != [] {
      var n := |listing| - 1;
      var front, last := listing[..n], listing[n];
      assert listing == front + [last];
      PathsOfKindConcat(front, [last], dirs);
      PathsOfKindCount(front, dirs);
      var all, earlier := KeptPositions(listing, dirs), KeptPositions(front, dirs);
      var tail: set<int> := if Kept(last, dirs) then {n} else {};
      forall i | i in all
        ensures i in earlier + tail
      {
        if i < n {
          assert front[i] == listing[i];
        }
      }
      forall i | i in earlier
        ensures i in all
      {
        assert front[i] == listing[i];
      }
      assert all == earlier + tail;
      assert n !in earlier;
    }
  }

  /** When no path is falsy, files() and directories() split the listing between them. */
  lemma {:induction false} FilesAndDirectoriesPartition(listing: seq<Attr>)
    requires forall i | 0 <= i < |listing| :: !Falsy(listing[i].path)
    ensures |PathsOfKind(listing, false)| + |PathsOfKind(listing, true)| == |listing|
  {
    if listing != [] {
      FilesAndDirectoriesPartition(listing[1..]);
    }
  }

  /** Because the filter has no callback, a file whose path is "0" is dropped from files(). */
  lemma ZeroNamedFileDropped()
    ensures PathsOfKind([FileAttr("0"), FileAttr("a.txt")], false) == ["a.txt"]
  {
  }

  // ---------------------------------------------------------------------------
  // delete()

  /** delete() takes one path or an array of paths. */
  datatype PathArg = One(path: string) | Many(paths: seq<string>) {
    /** `is_array($paths) ? $paths : [$paths]` */
    function AsList(): seq<string> {
      match this
      case One(p) => [p]
      case Many(ps) => ps
    }
  }

  /** How many paths of `paths` are deleted before the first one the driver fails on. */
  function FirstFailure(paths: seq<string>, failing: set<string>): (k: nat)
    ensures k <= |paths|
    ensures forall j | 0 <= j < k :: paths[j] !in failing
    ensures k < |paths| ==> paths[k] in failing
  {
    if paths == [] || paths[0] in failing then 0 else 1 + FirstFailure(paths[1..], failing)
  }

  /** Every path succeeds exactly when the first failure is past the end. */
  lemma AllDeletedIff(paths: seq<string>, failing: set<string>)
    ensures FirstFailure(paths, failing) == |paths| <==> forall j | 0 <= j < |paths| :: paths[j] !in failing
  {
  }

  // ---------------------------------------------------------------------------
  // The facade

  class Filesystem {
    const driver: Driver
    const root: string
    const url: Option<string>

    constructor (driver: Driver, root: string, url: Option<string>)
      ensures this.driver == driver && this.root == root && this.url == url
    {
      this.driver := driver;
      this.root := root;
      this.url := url;
    }

    method Exists(path: string) returns (b: bool)
      ensures b == (path in driver.files)
    {
      b := driver.FileExists(path);
    }

    method Get(path: string) returns (r: Result<string, FsError>)
      ensures r == if path in driver.files && path !in driver.unreadable
        then Ok(driver.files[path]) else Err(FileNotFound(path))
    {
      var read := driver.Read(path);
      match read
      case Some(contents) => r := Ok(contents);
      case None => r := Err(FileNotFound(path));
    }

    method ReadStream(path: string) returns (r: Result<Stream, FsError>)
      ensures r.Err? <==> !(path in driver.files && path !in driver.unreadable)
      ensures r.Err? ==> r.error == FileNotFound(path)
      ensures r.Ok? ==> fresh(r.value) && r.value.Ready() && r.value.data == driver.files[path]
    {
      var read := driver.ReadStream(path);
      match read
      case Some(s) => r := Ok(s);
      case None => r := Err(FileNotFound(path));
    }

    /** put(): true on success; a failed write raises FileWrite, never returns false. */
    method Put(path: string, contents: string) returns (r: Result<bool, FsError>)
      modifies driver
      ensures r == if path !in driver.unwritable then Ok(true) else Err(FileWrite(path))
      ensures driver.files == if r.Ok? then old(driver.files)[path := contents] else old(driver.files)
      ensures driver.dirs == old(driver.dirs)
    {
      var ok := driver.Write(path, contents);
      r := if ok then Ok(true) else Err(FileWrite(path));
    }

    /** putStream(): like put(), from the stream's current position; the caller keeps the stream. */
    method PutStream(path: string, resource: Stream) returns (r: Result<bool, FsError>)
      requires resource.Ready()
      modifies driver, resource
      ensures r == if path !in driver.unwritable then Ok(true) else Err(FileWrite(path))
      ensures driver.files == if r.Ok? then old(driver.files)[path := resource.data[old(resource.position)..]]
        else old(driver.files)
      ensures driver.dirs == old(driver.dirs)
      ensures resource.closes == old(resource.closes) + (if driver.closesStreams then 1 else 0)
    {
      var ok := driver.WriteStream(path, resource);
      r := if ok then Ok(true) else Err(FileWrite(path));
    }

    /** putFileAs(): None stands for `false`. Once detached, the stream is closed exactly
        once whichever way the write goes, and the whole upload is stored because the
        stream is rewound first. */
    method PutFileAs(path: string, file: UploadedFile, name: string) returns (r: Option<string>)
      requires file.stream != null ==> file.stream.Ready()
      modifies driver, file, file.stream
      ensures file.stream == null
      ensures driver.dirs == old(driver.dirs)
      ensures old(file.stream) == null ==> r == None && driver.files == old(driver.files)
      ensures old(file.stream) != null ==>
        var s, filePath := old(file.stream), Paths.Join(path, name);
        && !s.open && s.closes == old(file.stream.closes) + 1
        && (filePath in driver.unwritable ==> r == None && driver.files == old(driver.files))
        && (filePath !in driver.unwritable ==> r == Some(filePath) && driver.files == old(driver.files)[filePath := s.data])
    {
      var stream := file.Detach();
      if stream == null {
        return None;
      }
      var filePath := Paths.Join(path, name);
      stream.Rewind();
      var ok := driver.WriteStream(filePath, stream);
      r := if ok then Some(filePath) else None;
      // the `finally` block: close the handle unless the driver already did
      if stream.open {
        stream.Close();
      }
    }

    /** putFile(): putFileAs() under a generated name; `entropy` stands for `random_bytes(20)`. */
    method PutFile(path: string, file: UploadedFile, entropy: seq<Filenames.byte>) returns (r: Option<string>)
      requires |entropy| == 20
      requires file.stream != null ==> file.stream.Ready()
      modifies driver, file, file.stream
      ensures file.stream == null
      ensures driver.dirs == old(driver.dirs)
      ensures old(file.stream) == null ==> r == None && driver.files == old(driver.files)
      ensures old(file.stream) != null ==>
        var s := old(file.stream);
        var filePath := Paths.Join(path, Filenames.GenerateFilename(entropy, file.clientFilename));
        && !s.open && s.closes == old(file.stream.closes) + 1
        && (filePath in driver.unwritable ==> r == None && driver.files == old(driver.files))
        && (filePath !in driver.unwritable ==> r == Some(filePath) && driver.files == old(driver.files)[filePath := s.data])
    {
      var name := Filenames.GenerateFilename(entropy, file.clientFilename);
      r := PutFileAs(path, file, name);
    }

    /** prepend(): `data` before the current contents, or just `data` for a new file. */
    method Prepend(path: string, data: string) returns (r: Result<bool, FsError>)
      modifies driver
      ensures driver.dirs == old(driver.dirs)
      ensures path in old(driver.files) && path in driver.unreadable ==>
        r == Err(FileNotFound(path)) && driver.files == old(driver.files)
      ensures path in old(driver.files) && path !in driver.unreadable && path in driver.unwritable ==>
        r == Err(FileWrite(path)) && driver.files == old(driver.files)
      ensures path in old(driver.files) && path !in driver.unreadable && path !in driver.unwritable ==>
        r == Ok(true) && driver.files == old(driver.files)[path := data + old(driver.files)[path]]
      ensures path !in old(driver.files) && path in driver.unwritable ==>
        r == Err(FileWrite(path)) && driver.files == old(driver.files)
      ensures path !in old(driver.files) && path !in driver.unwritable ==>
        r == Ok(true) && driver.files == old(driver.files)[path := data]
    {
      var present := Exists(path);
      if present {
        var current :- Get(path);
        r := Put(path, data + current);
      } else {
        r := Put(path, data);
      }
    }

    /** append(): the current contents followed by `data`, or just `data` for a new file. */
    method Append(path: string, data: string) returns (r: Result<bool, FsError>)
      modifies driver
      ensures driver.dirs == old(driver.dirs)
      ensures path in old(driver.files) && path in driver.unreadable ==>
        r == Err(FileNotFound(path)) && driver.files == old(driver.files)
      ensures path in old(driver.files) && path !in driver.unreadable && path in driver.unwritable ==>
        r == Err(FileWrite(path)) && driver.files == old(driver.files)
      ensures path in old(driver.files) && path !in driver.unreadable && path !in driver.unwritable ==>
        r == Ok(true) && driver.files == old(driver.files)[path := old(driver.files)[path] + data]
      ensures path !in old(driver.files) && path in driver.unwritable ==>
        r == Err(FileWrite(path)) && driver.files == old(driver.files)
      ensures path !in old(driver.files) && path !in driver.unwritable ==>
        r == Ok(true) && driver.files == old(driver.files)[path := data]
    {
      var present := Exists(path);
      if present {
        var current :- Get(path);
        r := Put(path, current + data);
      } else {
        r := Put(path, data);
      }
    }

    /** delete(): deletes in order and stops at the first failure; the paths before it
        stay deleted and the ones after it are not attempted. */
    method Delete(paths: PathArg) returns (ok: bool)
      modifies driver
      ensures var ps := paths.AsList(); var k := FirstFailure(ps, driver.unwritable);
        && ok == (k == |ps|)
        && driver.files == old(driver.files) - (set p | p in ps[..k])
      ensures driver.dirs == old(driver.dirs)
    {
      var ps := paths.AsList();
      var i := 0;
      while i < |ps|
        invariant 0 <= i <= |ps|
        invariant forall j | 0 <= j < i :: ps[j] !in driver.unwritable
        invariant driver.files == old(driver.files) - (set p | p in ps[..i])
        invariant driver.dirs == old(driver.dirs)
      {
        var deleted := driver.Delete(ps[i]);
        if !deleted {
          return false;
        }
        assert ps[..i + 1] == ps[..i] + [ps[i]];
        i := i + 1;
      }
      assert ps[..i] == ps;
      return true;
    }

    method Copy(source: string, destination: string) returns (ok: bool)
      modifies driver
      ensures ok == (source in old(driver.files) && source !in driver.unreadable && destination !in driver.unwritable)
      ensures driver.files == if ok then old(driver.files)[destination := old(driver.files)[source]]
        else old(driver.files)
      ensures driver.dirs == old(driver.dirs)
    {
      ok := driver.Copy(source, destination);
    }

    method Move(source: string, destination: string) returns (ok: bool)
      modifies driver
      ensures ok == (source in old(driver.files) && source !in driver.unreadable && source !in driver.unwritable
        && destination !in driver.unwritable)
      ensures driver.files == if ok then (old(driver.files) - {source})[destination := old(driver.files)[source]]
        else old(driver.files)
      ensures driver.dirs == old(driver.dirs)
    {
      ok := driver.Move(source, destination);
    }

    /** mimeType(): None stands for `false`, returned on any failure. */
    method MimeType(path: string) returns (r: Option<string>)
      ensures r.Some? <==>
        && path in driver.files && path !in driver.unreadable
        && driver.mimeOf(path, driver.files[path]).Some?
      ensures r.Some? ==> r == driver.mimeOf(path, driver.files[path])
    {
      r := driver.MimeType(path);
    }

    method Files(directory: string, recursive: bool) returns (r: seq<string>)
      ensures r == PathsOfKind(driver.lister(driver.files, driver.dirs, directory, recursive), false)
    {
      var listing := driver.ListContents(directory, recursive);
      r := PathsOfKind(listing, false);
    }

    method Directories(directory: string, recursive: bool) returns (r: seq<string>)
      ensures r == PathsOfKind(driver.lister(driver.files, driver.dirs, directory, recursive), true)
    {
      var listing := driver.ListContents(directory, recursive);
      r := PathsOfKind(listing, true);
    }

    method MakeDirectory(path: string) returns (ok: bool)
      modifies driver
      ensures ok == (path !in driver.unwritable)
      ensures driver.dirs == if ok then old(driver.dirs) + {path} else old(driver.dirs)
      ensures driver.files == old(driver.files)
    {
      ok := driver.CreateDirectory(path);
    }

    method DeleteDirectory(directory: string) returns (ok: bool)
      modifies driver
      ensures ok == (directory !in driver.unwritable)
      ensures !ok ==> driver.dirs == old(driver.dirs) && driver.files == old(driver.files)
      ensures ok ==>
        && driver.dirs == set d | d in old(driver.dirs) && d != directory && !Under(d, directory)
        && directory !in driver.dirs
        && driver.files == (map f | f in old(driver.files) && !Under(f, directory) :: old(driver.files)[f])
        && (forall f | f in driver.files :: !Under(f, directory))
        && (forall f | f in old(driver.files) && !Under(f, directory) :: f in driver.files && driver.files[f] == old(driver.files)[f])
    {
      ok := driver.DeleteDirectory(directory);
    }

    /** url(): the base joined to the path with one '/', or the path itself when there is no base. */
    function Url(path: string): (r: string)
      ensures url.None? ==> r == path
      ensures url.Some? ==> r == Paths.Join(url.value, path)
    {
      if url.Some? then Paths.Join(url.value, path) else path
    }

    /** temporaryUrl(): the plain URL; the expiration is ignored. */
    function TemporaryUrl(path: string, expiration: string): (r: string)
      ensures r == Url(path)
    {
      Url(path)
    }

    /** path(): the root joined to the path with one '/', or the path itself when the root is ''. */
    function Path(path: string): (r: string)
      ensures root == "" ==> r == path
      ensures root != "" ==> r == Paths.Join(root, path)
    {
      if root != "" then Paths.Join(root, path) else path
    }
  }

  /** After a successful put(), get() returns what was written and exists() holds. */
  method PutThenGet(fs: Filesystem, path: string, contents: string)
    returns (put: Result<bool, FsError>, present: bool, got: Result<string, FsError>)
    modifies fs.driver
    ensures put == if path in fs.driver.unwritable then Err(FileWrite(path)) else Ok(true)
    ensures put.Ok? ==> present
    ensures put.Ok? ==> got == if path in fs.driver.unreadable then Err(FileNotFound(path)) else Ok(contents)
  {
    put := fs.Put(path, contents);
    present := fs.Exists(path);
    got := fs.Get(path);
  }

  /** A base with a trailing '/' does not produce a double slash. */
  lemma UrlExample(fs: Filesystem)
    requires fs.url == Some("https://cdn.example.com/")
    ensures fs.Url("a/b.txt") == "https://cdn.example.com/a/b.txt"
    ensures fs.TemporaryUrl("a/b.txt", "2030-01-01T00:00:00Z") == "https://cdn.example.com/a/b.txt"
  {
  }

  /** A local disk rooted at /tmp/store resolves paths under that root. */
  lemma PathExample(fs: Filesystem)
    requires fs.root == "/tmp/store"
    ensures fs.Path("reports/x.txt") == "/tmp/store/reports/x.txt"
  {
  }
}
