# Filesystem facade and disk manager, modelled in Dafny

The repository is a thin storage facade over the Flysystem library. A `Filesystem`
wraps one storage driver, an optional root and an optional public URL base. It maps
driver failures to `false`, to a sentinel, or to the typed errors `FileNotFound` and
`FileWrite`. It also adds `append`/`prepend`, URL and path resolution, and upload
storage. A `FilesystemManager` resolves a named disk from configuration into a
facade. It supports a local or an S3 driver, and it caches the facade under the
disk's name.

The model keeps the facade's own logic and replaces the driver by an abstract
in-memory store.

- `Paths` (paths.dfy): `rtrim`/`ltrim` on '/' and the join used by `url`, `path` and `putFileAs`.
- `Filenames` (filenames.dfy): `bin2hex`, the `pathinfo` extension and `generateFilename`.
- `Storage` (storage.dfy): the driver. It is a class holding a map from path to contents and
  a set of directories. Two fixed sets of paths decide which primitive calls fail. Reads
  (contents, stream, MIME type) fail on the unreadable paths. Writes, deletes and directory
  changes fail on the unwritable paths.
  Oracles fixed at construction give MIME detection, listing order and whether writing
  from a stream closes that stream. The module also holds a stream handle with an
  open flag and a count of `fclose` calls, and an uploaded file whose stream can be detached once.
- `Facade` (facade.dfy): the `Filesystem` class. It has one method per operation, plus the
  pure listing filter and the helper that says where `delete` stops.
- `Config` and `Manager` (config.dfy, manager.dfy): PHP configuration values, `??`, the
  `(string)` cast, the pure resolution (`getDiskConfig`, `resolve`, the two driver
  constructors), and the `FilesystemManager` class with its `disks` cache.
- `Wrappers`, `Errors`: `Option`, `Result` and the error values.

PHP exceptions are modelled as `Err` values. The `false` returned by `putFileAs` and
`mimeType` is modelled as `None`. Calls into the environment become parameters or
constructor arguments:

- `random_bytes(20)` becomes `entropy`.
- `getcwd()` becomes `cwd`.
- `class_exists` for the S3 adapter becomes `s3AdapterInstalled`.
- What a newly built driver finds on its medium is `media`.
- The `DateTimeInterface` expiration is a string.

`FilesystemManager.php` declares strict types. So a configured `root`, `url`,
`bucket` or `prefix` that is not a string raises a TypeError when it is passed on to
a `string` parameter. The model returns `ConfigType(key)` for that case.

## Model

| member | source | states |
|---|---|---|
| Paths.RTrim | src/Filesystem/Filesystem.php:224 | `rtrim(s,'/')` is a prefix of `s`, only '/' was removed, and the result does not end in '/' |
| Paths.LTrim | src/Filesystem/Filesystem.php:224 | `ltrim(s,'/')` is a suffix of `s`, only '/' was removed, and the result does not start with '/' |
| Paths.Join | src/Filesystem/Filesystem.php:83 | exactly one '/' at the join; the left part is a prefix of `a` minus trailing slashes only; the right part is a suffix of `b` minus leading slashes only |
| Paths.RTrimPadded | src/Filesystem/Filesystem.php:239 | trimming `x + slashes` gives back `x` when `x` does not end in '/' |
| Paths.LTrimPadded | src/Filesystem/Filesystem.php:239 | trimming `slashes + y` gives back `y` when `y` does not start with '/' |
| Paths.JoinUnique | src/Filesystem/Filesystem.php:83 | for any slash padding of either half, the join is the unpadded halves with one '/' between them |
| Paths.JoinAbsorbsSlashes | src/Filesystem/Filesystem.php:224 | an extra '/' at the end of the base or the start of the path never changes the join |
| Filenames.Hex | src/Filesystem/Filesystem.php:249 | `bin2hex` gives two lower-case hex digits per byte |
| Filenames.UnhexHex | src/Filesystem/Filesystem.php:249 | decoding the hex digits gives back the bytes, so no entropy is lost |
| Filenames.Extension | src/Filesystem/Filesystem.php:248 | the extension contains no '.' or '/'; when non-empty, it is what follows the basename's last '.'; it is empty iff the basename has no '.' or ends in one |
| Filenames.BasenameIsLastComponent | src/Filesystem/Filesystem.php:248 | the basename is the part after the last '/' of the path without its trailing slashes |
| Filenames.GenerateFilename | src/Filesystem/Filesystem.php:246-252 | 40 lower-case hex characters that decode to the 20 random bytes, followed by `"." + ext` iff the client extension is non-empty |
| Facade.PathsOfKind | src/Filesystem/Filesystem.php:179-184 | the listing filter returns at most one path per entry and never a falsy path (`""` or `"0"`) |
| Facade.PathsOfKindMembers | src/Filesystem/Filesystem.php:179-184 | a path is returned iff some entry of the requested kind carries it and it is not falsy |
| Facade.PathsOfKindSelects | src/Filesystem/Filesystem.php:179-184 | the result is exactly the kept entries' paths (requested kind, not falsy) in listing order: there is an increasing enumeration of every kept position whose `j`-th path is the result's `j`-th element |
| Facade.PathsOfKindCount | src/Filesystem/Filesystem.php:179-184 | the result has exactly as many paths as there are kept entries, duplicates included |
| Facade.PathsOfKindConcat | src/Filesystem/Filesystem.php:179-184 | filtering a concatenated listing gives the concatenation of the filtered parts |
| Facade.FilesAndDirectoriesPartition | src/Filesystem/Filesystem.php:173-199 | without falsy paths, the lengths of the `files` and `directories` results add up to the listing's length |
| Facade.ZeroNamedFileDropped | src/Filesystem/Filesystem.php:179 | a file whose path is `"0"` is left out of `files` |
| Facade.FirstFailure | src/Filesystem/Filesystem.php:123-129 | gives the number of paths deleted before the first failing one: every earlier path succeeds and the path at that index fails |
| Facade.AllDeletedIff | src/Filesystem/Filesystem.php:119-132 | the loop runs past the end iff no path fails |
| Facade.Filesystem.constructor | src/Filesystem/Filesystem.php:20-25 | the facade binds the given driver, root and URL base |
| Facade.Filesystem.Exists | src/Filesystem/Filesystem.php:27-30 | true iff the driver holds the path |
| Facade.Filesystem.Get | src/Filesystem/Filesystem.php:32-39 | the stored contents, or `FileNotFound(path)` exactly when the read fails |
| Facade.Filesystem.ReadStream | src/Filesystem/Filesystem.php:41-48 | a fresh open stream over the contents, or `FileNotFound(path)` exactly when the read fails |
| Facade.Filesystem.Put | src/Filesystem/Filesystem.php:50-58 | `Ok(true)` with the path now holding the contents, or `FileWrite(path)` with nothing changed; never `false` |
| Facade.Filesystem.PutStream | src/Filesystem/Filesystem.php:60-68 | like `Put`, storing the stream from its current position; the facade itself never closes the stream |
| Facade.Filesystem.PutFileAs | src/Filesystem/Filesystem.php:76-98 | no stream: `None` and nothing written; otherwise the stream ends closed after exactly one close, with `Some(rtrim(path)/ltrim(name))` and the whole upload stored, or `None` with nothing stored |
| Facade.Filesystem.PutFile | src/Filesystem/Filesystem.php:70-74 | `PutFileAs` under the generated name |
| Facade.Filesystem.Prepend | src/Filesystem/Filesystem.php:100-106 | an existing file holding `C` becomes `d + C`, an absent one `d`, with `Ok(true)`; an existing unreadable file gives `FileNotFound` before any write; an existing readable file that cannot be written, or an absent one that cannot, gives `FileWrite`; failures change nothing |
| Facade.Filesystem.Append | src/Filesystem/Filesystem.php:108-114 | an existing file holding `C` becomes `C + d`, an absent one `d`, with `Ok(true)`; an existing unreadable file gives `FileNotFound` before any write; an existing readable file that cannot be written, or an absent one that cannot, gives `FileWrite`; failures change nothing |
| Facade.Filesystem.Delete | src/Filesystem/Filesystem.php:119-132 | one path is a one-element list; the paths before the first failure are deleted, later ones are untouched; the result is true iff none failed |
| Facade.Filesystem.Copy | src/Filesystem/Filesystem.php:134-142 | true iff the source exists and is readable and the destination writable, with the destination then holding the source's contents; false with nothing changed |
| Facade.Filesystem.Move | src/Filesystem/Filesystem.php:144-152 | true iff the source exists and is readable and removable and the destination writable, with the contents moved; false with nothing changed |
| Facade.Filesystem.MimeType | src/Filesystem/Filesystem.php:164-171 | the detected type, or `None` (false) on any failure |
| Facade.Filesystem.Files | src/Filesystem/Filesystem.php:173-185 | the file paths of the driver's listing, passed through the listing filter |
| Facade.Filesystem.Directories | src/Filesystem/Filesystem.php:187-199 | the directory paths of the driver's listing, passed through the listing filter |
| Facade.Filesystem.MakeDirectory | src/Filesystem/Filesystem.php:201-209 | true with the directory added, or false with nothing changed |
| Facade.Filesystem.DeleteDirectory | src/Filesystem/Filesystem.php:211-219 | true with the directories being exactly the old ones minus the directory and everything under it, and the files exactly the old ones minus those under it; false with nothing changed |
| Facade.Filesystem.Url | src/Filesystem/Filesystem.php:221-228 | with a base: the one-separator join of base and path; without one: the path unchanged |
| Facade.Filesystem.TemporaryUrl | src/Filesystem/Filesystem.php:230-234 | the same as `Url`, whatever the expiration |
| Facade.Filesystem.Path | src/Filesystem/Filesystem.php:236-241 | root `''`: the path unchanged; otherwise the one-separator join of root and path |
| Facade.PutThenGet | src/Filesystem/Filesystem.php:32-58 | `put` succeeds iff the path is writable; after a successful `put`, `exists` holds and `get` returns what was written, or `FileNotFound` when the path is unreadable |
| Facade.UrlExample | src/Filesystem/Filesystem.php:221-228 | base `https://cdn.example.com/` and path `a/b.txt` give `https://cdn.example.com/a/b.txt` |
| Facade.PathExample | src/Filesystem/Filesystem.php:236-241 | root `/tmp/store` and `reports/x.txt` give `/tmp/store/reports/x.txt` |
| Manager.LocalSpec | src/Filesystem/FilesystemManager.php:80-89 | root is the disk's `root`, else the injected default, else `cwd + "/storage/app"`; the adapter and the facade get the same root; the url is the configured one or none; non-string values are errors |
| Manager.S3Spec | src/Filesystem/FilesystemManager.php:96-123 | fails first when the adapter is not installed; region defaults to `us-east-1`; key, secret, bucket and prefix default to `''`; root is `''`; url is the configured one or `https://<bucket>.s3.amazonaws.com` |
| Manager.FilesystemManager.constructor | src/Filesystem/FilesystemManager.php:18-24 | a new manager has an empty cache |
| Manager.FilesystemManager.DefaultDisk | src/Filesystem/FilesystemManager.php:39-42 | `"local"` when `filesystems.default` is absent, and the configured string otherwise |
| Manager.FilesystemManager.DiskConfig | src/Filesystem/FilesystemManager.php:69-73 | a disk configuration exists iff its entry is an array |
| Manager.FilesystemManager.Resolution | src/Filesystem/FilesystemManager.php:47-62 | `InvalidDisk(name)` for no array configuration or an unknown driver kind; the kind defaults to `local`; `local` and `s3` go to their constructors |
| Manager.FilesystemManager.Resolve | src/Filesystem/FilesystemManager.php:47-62 | on success, a fresh driver and a fresh facade built exactly as resolution decided; on failure, the same error and no facade |
| Manager.FilesystemManager.Disk | src/Filesystem/FilesystemManager.php:29-34 | a null name means the default disk; a cached name returns the identical facade and leaves the cache alone; a failed resolution leaves the cache unchanged; otherwise exactly that name is added; the cache only grows; every cached facade matches its resolution, and no two names share a facade or a driver |
| Manager.DiskTwice | src/Filesystem/FilesystemManager.php:33 | a second `disk(n)` returns exactly what the first returned, the same instance or the same error |

## Left out

- `size` and `lastModified` pass straight through to the driver, so there is nothing to state about them.
- `FilesystemManager::__call` forwards any method dynamically to `disk()`. Dafny has no reflective dispatch, so callers use `Disk(None)` and then the facade's method.
- The `$options` arrays of `put`, `putStream`, `putFile` and `putFileAs` are passed to the driver unread, so they are not modelled.
- The driver's own behaviour (Flysystem, its local and S3 adapters, the S3 client) is not modelled. It is an abstract store whose failures come from two fixed sets of paths, one failing reads and one failing writes. `fileExists` never fails in the model, so its `UnableToCheckExistence` error is not modelled.
- Drivers do not share storage in the model. Every resolved disk gets its own `Storage.Driver` with its own copy of what `media` gives for its adapter. So two disks configured on the same local root or the same bucket, or the same disk resolved by two managers, do not see each other's writes. In the source, their adapters work on the same directory or bucket (src/Filesystem/FilesystemManager.php:85, 117). Aliasing between drivers is not modelled.
- Listing order, MIME detection and whether a write closes the caller's stream are oracles fixed when the driver is built. The model does not say how the real adapters decide them.
- Only `UnableToReadFile` and `UnableToWriteFile` come out of reads and writes. Other driver exceptions are not modelled, although the facade would let them propagate.
- The configuration repository is a flat map from dotted key to value. Nested lookup, and disk names that contain '.', are not modelled. Float and integer-keyed configuration values are not modelled either.
- `Filenames.Extension` stands in for `pathinfo(..., PATHINFO_EXTENSION)`. It takes the last '.'-segment of the basename after trailing slashes are dropped. Locale handling in `basename` is not modelled.
- `Storage.Stream.Rewind` always succeeds. PHP's `rewind()` returns false on a stream that cannot seek, and `putFileAs` (src/Filesystem/Filesystem.php:87) ignores that result, so a non-seekable upload would be stored from wherever it stood. Non-seekable streams are not modelled.
- `Storage.Driver.WriteStream` stores a stream from its current position to its end. That is how the driver behaves in the model, not something `putStream` itself fixes, so `Facade.Filesystem.PutStream` inherits it.
- `Facade.Filesystem.PutFileAs` and `Facade.Filesystem.PutFile` require an attached upload stream to be open. In PHP, an attached stream that is already closed reaches `rewind($stream)` (src/Filesystem/Filesystem.php:87), which throws a TypeError. `is_resource` is then false, so the `finally` closes nothing, and the exception leaves `putFileAs`. That error path is not modelled.
- `getStream()` can throw when an upload has no stream. That exception is not modelled, and an absent stream is treated like one that is already detached.
- `UploadedFile` holds its resource directly. The PSR-7 stream wrapper object between them is not modelled.
- Exception messages, such as `"Disk [name] is not configured."`, are not modelled. Only the error kind and its path or disk name are kept.
- Concurrency is not modelled. `append`/`prepend` is a separate read and write with no locking, and simultaneous `disk()` calls can race on the cache.
- `FilesystemServiceProvider.php` (container registration) and `FilesystemInterface.php` (signatures only) are not part of this model.
