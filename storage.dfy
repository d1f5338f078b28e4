/** The storage driver the facade wraps, as an abstract in-memory store. The driver's
    own implementations are not modelled: what it stores, where it fails, which MIME
    type it detects and in which order it lists entries are fixed when it is built. */
module Storage {
  import opened Wrappers
  import Config

  /** One entry of a directory listing (`StorageAttributes`). */
  datatype Attr = FileAttr(path: string) | DirAttr(path: string)

  /** The S3 client's constructor arguments: credentials, region and API version. */
  datatype S3Client = S3Client(key: Config.Value, secret: Config.Value, region: Config.Value, version: string)

  /** Which adapter a driver was built on, with that adapter's constructor arguments. */
  datatype Adapter =
    | LocalAdapter(location: string)
    | S3Adapter(client: S3Client, bucket: string, prefix: string)

  /** What the backing medium holds when a driver is opened on it, and its oracles. */
  datatype Medium = Medium(
    files: map<string, string>,
    dirs: set<string>,
    /** reading (contents, stream, MIME type) fails on these paths */
    unreadable: set<string>,
    /** writing, deleting and creating or removing a directory fail on these paths */
    unwritable: set<string>,
    /** whether writing from a stream closes that stream (as some adapters do) */
    closesStreams: bool,
    /** MIME detection from path and contents; None when nothing can be detected */
    mimeOf: (string, string) -> Option<string>,
    /** the listing of a directory, in the order the driver yields it */
    lister: (map<string, string>, set<string>, string, bool) -> seq<Attr>)

  /** `q` lies strictly inside directory `p`. */
  predicate Under(q: string, p: string) {
    |p| < |q| && q[..|p|] == p && q[|p|] == '/'
  }

  /** A PHP stream resource over fixed data. `closes` counts the `fclose` calls it received. */
  class Stream {
    const data: string
    var position: nat
    var open: bool
    var closes: nat

    predicate Ready()
      reads this
    {
      open && position <= |data|
    }

    constructor (data: string)
      ensures this.data == data && position == 0 && open && closes == 0
    {
      this.data := data;
      position := 0;
      open := true;
      closes := 0;
    }

    /** `rewind($stream)`. */
    method Rewind()
      requires open
      modifies this
      ensures position == 0 && open && closes == old(closes)
    {
      position := 0;
    }

    /** `fclose($stream)`. */
    method Close()
      requires open
      modifies this
      ensures !open && closes == old(closes) + 1 && position == old(position)
    {
      open := false;
      closes := closes + 1;
    }
  }

  /** An uploaded file: its client-supplied name and the stream that `detach` hands out once. */
  class UploadedFile {
    const clientFilename: Option<string>
    var stream: Stream?

    constructor (clientFilename: Option<string>, stream: Stream?)
      ensures this.clientFilename == clientFilename && this.stream == stream
    {
      this.clientFilename := clientFilename;
      this.stream := stream;
    }

    /** `getStream()->detach()`: the underlying resource, or null once it has been detached. */
    method Detach() returns (s: Stream?)
      modifies this
      ensures s == old(stream) && stream == null
    {
      s := stream;
      stream := null;
    }
  }

  /** The driver (`FilesystemOperator`): a map from path to contents and a set of directories. */
  class Driver {
    const adapter: Adapter
    const unreadable: set<string>
    const unwritable: set<string>
    const closesStreams: bool
    const mimeOf: (string, string) -> Option<string>
    const lister: (map<string, string>, set<string>, string, bool) -> seq<Attr>
    var files: map<string, string>
    var dirs: set<string>

    constructor (adapter: Adapter, medium: Medium)
      ensures this.adapter == adapter && files == medium.files && dirs == medium.dirs
      ensures unreadable == medium.unreadable && unwritable == medium.unwritable
      ensures closesStreams == medium.closesStreams
      ensures mimeOf == medium.mimeOf && lister == medium.lister
    {
      this.adapter := adapter;
      unreadable := medium.unreadable;
      unwritable := medium.unwritable;
      closesStreams := medium.closesStreams;
      mimeOf := medium.mimeOf;
      lister := medium.lister;
      files := medium.files;
      dirs := medium.dirs;
    }

    method FileExists(path: string) returns (b: bool)
      ensures b == (path in files)
    {
      b := path in files;
    }

    /** `read`: None stands for UnableToReadFile. */
    method Read(path: string) returns (r: Option<string>)
      ensures r == if path in files && path !in unreadable then Some(files[path]) else None
    {
      r := if path in files && path !in unreadable then Some(files[path]) else None;
    }

    /** `readStream`: a fresh open stream over the contents, or None for UnableToReadFile. */
    method ReadStream(path: string) returns (r: Option<Stream>)
      ensures r.Some? <==> path in files && path !in unreadable
      ensures r.Some? ==>
        && fresh(r.value) && r.value.Ready() && r.value.data == files[path]
        && r.value.position == 0 && r.value.closes == 0
    {
      if path in files && path !in unreadable {
        var s := new Stream(files[path]);
        r := Some(s);
      } else {
        r := None;
      }
    }

    /** `write`: false stands for UnableToWriteFile. */
    method Write(path: string, contents: string) returns (ok: bool)
      modifies this
      ensures ok == (path !in unwritable)
      ensures files == if ok then old(files)[path := contents] else old(files)
      ensures dirs == old(dirs)
    {
      ok := path !in unwritable;
      if ok {
        files := files[path := contents];
      }
    }

    /** `writeStream`: stores what is left of the stream from its position on. */
    method WriteStream(path: string, s: Stream) returns (ok: bool)
      requires s.Ready()
      modifies this, s
      ensures ok == (path !in unwritable)
      ensures files == if ok then old(files)[path := s.data[old(s.position)..]] else old(files)
      ensures dirs == old(dirs)
      ensures s.open == !closesStreams
      ensures s.closes == old(s.closes) + (if closesStreams then 1 else 0)
    {
      ok := path !in unwritable;
      if ok {
        files := files[path := s.data[s.position..]];
        s.position := |s.data|;
      }
      if closesStreams {
        s.Close();
      }
    }

    /** `delete`: removing a missing file succeeds; an unwritable path fails. */
    method Delete(path: string) returns (ok: bool)
      modifies this
      ensures ok == (path !in unwritable)
      ensures files == if ok then old(files) - {path} else old(files)
      ensures dirs == old(dirs)
    {
      ok := path !in unwritable;
      if ok {
        files := files - {path};
      }
    }

    /** `copy`: reads the source and writes the destination. */
    method Copy(source: string, destination: string) returns (ok: bool)
      modifies this
      ensures ok == (source in old(files) && source !in unreadable && destination !in unwritable)
      ensures files == if ok then old(files)[destination := old(files)[source]] else old(files)
      ensures dirs == old(dirs)
    {
      ok := source in files && source !in unreadable && destination !in unwritable;
      if ok {
        files := files[destination := files[source]];
      }
    }

    /** `move`: reads and removes the source and writes the destination. */
    method Move(source: string, destination: string) returns (ok: bool)
      modifies this
      ensures ok == (source in old(files) && source !in unreadable && source !in unwritable && destination !in unwritable)
      ensures files == if ok then (old(files) - {source})[destination := old(files)[source]] else old(files)
      ensures dirs == old(dirs)
    {
      ok := source in files && source !in unreadable && source !in unwritable && destination !in unwritable;
      if ok {
        files := (files - {source})[destination := files[source]];
      }
    }

    /** `mimeType`: None stands for UnableToRetrieveMetadata. */
    method MimeType(path: string) returns (r: Option<string>)
      ensures r == if path in files && path !in unreadable then mimeOf(path, files[path]) else None
    {
      r := if path in files && path !in unreadable then mimeOf(path, files[path]) else None;
    }

    method ListContents(directory: string, deep: bool) returns (listing: seq<Attr>)
      ensures listing == lister(files, dirs, directory, deep)
    {
      listing := lister(files, dirs, directory, deep);
    }

    method CreateDirectory(path: string) returns (ok: bool)
      modifies this
      ensures ok == (path !in unwritable)
      ensures dirs == if ok then old(dirs) + {path} else old(dirs)
      ensures files == old(files)
    {
      ok := path !in unwritable;
      if ok {
        dirs := dirs + {path};
      }
    }

    /** `deleteDirectory`: removes the directory and everything under it. */
    method DeleteDirectory(path: string) returns (ok: bool)
      modifies this
      ensures ok == (path !in unwritable)
      ensures dirs == if ok then set d | d in old(dirs) && d != path && !Under(d, path) else old(dirs)
      ensures files == if ok then map f | f in old(files) && !Under(f, path) :: old(files)[f] else old(files)
    {
      ok := path !in unwritable;
      if ok {
        dirs := set d | d in dirs && d != path && !Under(d, path);
        files := map f | f in files && !Under(f, path) :: files[f];
      }
    }
  }
}
