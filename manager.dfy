/** The disk manager: resolves a disk name into a facade from configuration, once per name. */
module Manager {
  import opened Wrappers
  import opened Errors
  import opened Config
  import opened Storage
  import Facade

  /** What resolution decides for a disk: the adapter to build, and the root and URL base
      the facade is constructed with. */
  datatype DiskSpec = DiskSpec(adapter: Adapter, root: string, url: Option<string>)

  /** The resolution a facade was built from. */
  function Describe(fs: Facade.Filesystem): DiskSpec {
    DiskSpec(fs.driver.adapter, fs.root, fs.url)
  }

  const DefaultDiskKey := "filesystems.default"

  function DiskKey(name: string): string {
    "filesystems.disks." + name
  }

  /** Configuration entry `key` is set (not null) but would be a TypeError for a `string` parameter. */
  predicate NotAString(entries: map<string, Value>, key: string) {
    Lookup(entries, key).Some? && !Lookup(entries, key).value.Str?
  }

  /** A value passed to a `string` parameter under strict types. */
  function AsString(v: Value, key: string): Result<string, FsError> {
    if v.Str? then Ok(v.s) else Err(ConfigType(key))
  }

  /** `$entries[$key] ?? null` passed to a `?string` parameter. */
  function OptionalString(entries: map<string, Value>, key: string): Result<Option<string>, FsError> {
    match Lookup(entries, key)
    case None => Ok(None)
    case Some(v) => if v.Str? then Ok(Some(v.s)) else Err(ConfigType(key))
  }

  /** createLocalDriver(): root from the disk, else the injected default root, else
      `getcwd() . '/storage/app'`; the URL base only when configured. */
  function LocalSpec(entries: map<string, Value>, defaultLocalRoot: Option<string>, cwd: string): (r: Result<DiskSpec, FsError>)
    ensures r.Err? <==> NotAString(entries, "root") || NotAString(entries, "url")
    ensures r.Err? ==> r.error == if NotAString(entries, "root") then ConfigType("root") else ConfigType("url")
    ensures r.Ok? ==> r.value.adapter == LocalAdapter(r.value.root)
    ensures r.Ok? ==> r.value.root == match Lookup(entries, "root")
      case Some(v) => v.s
      case None => defaultLocalRoot.GetOr(cwd + "/storage/app")
    ensures r.Ok? ==> r.value.url == match Lookup(entries, "url")
      case Some(v) => Some(v.s)
      case None => None
  {
    var root :- AsString(LookupOr(entries, "root", Str(defaultLocalRoot.GetOr(cwd + "/storage/app"))), "root");
    var url :- OptionalString(entries, "url");
    Ok(DiskSpec(LocalAdapter(root), root, url))
  }

  /** createS3Driver(): refuses before building anything when the adapter is not installed;
      otherwise region defaults to us-east-1, credentials, bucket and prefix to '', the
      facade root is '' and the URL base defaults to the bucket's public endpoint. */
  function S3Spec(entries: map<string, Value>, s3AdapterInstalled: bool): (r: Result<DiskSpec, FsError>)
    ensures !s3AdapterInstalled ==> r == Err(MissingS3Adapter)
    ensures s3AdapterInstalled ==>
      (r.Err? <==> NotAString(entries, "bucket") || NotAString(entries, "prefix") || NotAString(entries, "url"))
    ensures r.Ok? ==> r.value.root == "" && r.value.url.Some? && r.value.adapter.S3Adapter?
    ensures r.Ok? ==>
      var a := r.value.adapter;
      && a.client == S3Client(LookupOr(entries, "key", Str("")), LookupOr(entries, "secret", Str("")),
                              LookupOr(entries, "region", Str("us-east-1")), "latest")
      && a.bucket == LookupOr(entries, "bucket", Str("")).s
      && a.prefix == LookupOr(entries, "prefix", Str("")).s
      && r.value.url.value == match Lookup(entries, "url")
        case Some(v) => v.s
        case None => "https://" + a.bucket + ".s3.amazonaws.com"
  {
    if !s3AdapterInstalled then Err(MissingS3Adapter)
    else
      var client := S3Client(LookupOr(entries, "key", Str("")), LookupOr(entries, "secret", Str("")),
                             LookupOr(entries, "region", Str("us-east-1")), "latest");
      var bucket :- AsString(LookupOr(entries, "bucket", Str("")), "bucket");
      var prefix :- AsString(LookupOr(entries, "prefix", Str("")), "prefix");
      var url :- AsString(LookupOr(entries, "url", Str("https://" + bucket + ".s3.amazonaws.com")), "url");
      Ok(DiskSpec(S3Adapter(client, bucket, prefix), "", Some(url)))
  }

  class FilesystemManager {
    const config: Repository
    const defaultLocalRoot: Option<string>
    /** `getcwd()`, with "" standing for its `false` (which concatenates as "") */
    const cwd: string
    /** `class_exists(AwsS3V3Adapter::class)` */
    const s3AdapterInstalled: bool
    /** what a driver built on an adapter finds on its backing medium */
    const media: Adapter -> Medium
    var disks: map<string, Facade.Filesystem>

    /** Every cached facade is what resolving its name gives, and no two names share
        a facade or a driver. */
    ghost predicate Valid()
      reads this
    {
      && (forall n | n in disks :: Resolution(n).Ok? && Describe(disks[n]) == Resolution(n).value)
      && (forall a, b | a in disks && b in disks && a != b ::
            disks[a] != disks[b] && disks[a].driver != disks[b].driver)
    }

    constructor (config: Repository, defaultLocalRoot: Option<string>, cwd: string,
                 s3AdapterInstalled: bool, media: Adapter -> Medium)
      ensures this.config == config && this.defaultLocalRoot == defaultLocalRoot && this.cwd == cwd
      ensures this.s3AdapterInstalled == s3AdapterInstalled && this.media == media
      ensures disks == map[] && Valid()
    {
      this.config := config;
      this.defaultLocalRoot := defaultLocalRoot;
      this.cwd := cwd;
      this.s3AdapterInstalled := s3AdapterInstalled;
      this.media := media;
      disks := map[];
    }

    /** getDefaultDisk(): `(string)` of `filesystems.default`, "local" when absent. */
    function DefaultDisk(): (name: string)
      ensures DefaultDiskKey !in config ==> name == "local"
      ensures DefaultDiskKey in config && config[DefaultDiskKey].Str? ==> name == config[DefaultDiskKey].s
      ensures DefaultDiskKey in config && config[DefaultDiskKey] == Null ==> name == ""
    {
      CastString(Get(config, DefaultDiskKey, Str("local")))
    }

    /** getDiskConfig(): the disk's entry when it is an array, otherwise nothing. */
    function DiskConfig(name: string): (r: Option<map<string, Value>>)
      ensures r.Some? <==> DiskKey(name) in config && config[DiskKey(name)].Arr?
      ensures r.Some? ==> r.value == config[DiskKey(name)].entries
    {
      var v := Get(config, DiskKey(name), Null);
      if v.Arr? then Some(v.entries) else None
    }

    /** resolve(): InvalidDisk for a missing or non-array configuration and for an unknown
        driver kind; "local" when no kind is given. */
    function Resolution(name: string): (r: Result<DiskSpec, FsError>)
      ensures DiskConfig(name).None? ==> r == Err(InvalidDisk(name))
      ensures DiskConfig(name).Some? ==>
        var entries := DiskConfig(name).value;
        var kind := LookupOr(entries, "driver", Str("local"));
        && (kind == Str("local") ==> r == LocalSpec(entries, defaultLocalRoot, cwd))
        && (kind == Str("s3") ==> r == S3Spec(entries, s3AdapterInstalled))
        && (kind != Str("local") && kind != Str("s3") ==> r == Err(InvalidDisk(name)))
      ensures r.Ok? && r.value.adapter.LocalAdapter? ==> r.value.root == r.value.adapter.location
      ensures r.Ok? && r.value.adapter.S3Adapter? ==> r.value.root == "" && r.value.url.Some?
      ensures r.Err? && r.error.InvalidDisk? ==> r.error.disk == name
    {
      match DiskConfig(name)
      case None => Err(InvalidDisk(name))
      case Some(entries) =>
        var kind := LookupOr(entries, "driver", Str("local"));
        if kind == Str("local") then LocalSpec(entries, defaultLocalRoot, cwd)
        else if kind == Str("s3") then S3Spec(entries, s3AdapterInstalled)
        else Err(InvalidDisk(name))
    }

    /** resolve() with its allocations: on success a fresh driver and a fresh facade. */
    method Resolve(name: string) returns (r: Result<Facade.Filesystem, FsError>)
      ensures Resolution(name).Err? ==> r == Err(Resolution(name).error)
      ensures Resolution(name).Ok? ==>
        && r.Ok? && fresh(r.value) && fresh(r.value.driver)
        && Describe(r.value) == Resolution(name).value
        && r.value.driver.files == media(r.value.driver.adapter).files
        && r.value.driver.dirs == media(r.value.driver.adapter).dirs
    {
      match Resolution(name)
      case Err(e) =>
        r := Err(e);
      case Ok(spec) =>
        var driver := new Driver(spec.adapter, media(spec.adapter));
        var fs := new Facade.Filesystem(driver, spec.root, spec.url);
        r := Ok(fs);
    }

    /** disk(): `$this->disks[$name] ??= $this->resolve($name)` after defaulting the name. */
    method Disk(name: Option<string>) returns (r: Result<Facade.Filesystem, FsError>)
      requires Valid()
      modifies this
      ensures Valid()
      ensures var n := name.GetOr(DefaultDisk());
        if n in old(disks) then
          r == Ok(old(disks)[n]) && disks == old(disks)
        else if Resolution(n).Err? then
          r == Err(Resolution(n).error) && disks == old(disks)
        else
          && r.Ok? && fresh(r.value) && fresh(r.value.driver)
          && Describe(r.value) == Resolution(n).value
          && disks == old(disks)[n := r.value]
      ensures old(disks).Keys <= disks.Keys
      ensures forall m | m in old(disks) :: disks[m] == old(disks)[m]
    {
      var n := if name.Some? then name.value else DefaultDisk();
      if n in disks {
        return Ok(disks[n]);
      }
      r := Resolve(n);
      if r.Ok? {
        disks := disks[n := r.value];
      }
    }
  }

  /** Asking twice for the same disk gives the identical facade, or the same error. */
  method DiskTwice(manager: FilesystemManager, name: Option<string>) returns (first: Result<Facade.Filesystem, FsError>, second: Result<Facade.Filesystem, FsError>)
    requires manager.Valid()
    modifies manager
    ensures manager.Valid()
    ensures second == first
    ensures first.Err? ==> manager.disks == old(manager.disks)
  {
    first := manager.Disk(name);
    second := manager.Disk(name);
  }
}
