/** `WP_Filesystem_S3`: WordPress's filesystem interface served from the S3
    bucket W3 Total Cache is configured with.

    Each operation is a function from the adapter's world to its successor
    and its PHP return value. Calls to the S3 service that change the bucket
    (`putObject`, `copyObject`, `deleteObject`) take the service's verdict as
    a parameter `accepted`; reads are answered from the bucket contents. */
module S3Filesystem {
  import opened Wrappers
  import opened W3
  import opened Perms
  import opened Paths

  type Bytes = seq<bv8>

  /** A stored object: its bytes, canned ACL and last-modified time. */
  datatype Obj = Obj(data: Bytes, acl: Acl, time: int)

  /** The adapter's world: W3 Total Cache's configuration (`None` when
      `w3_instance` yields nothing), whether `$this->s3Obj` holds a client,
      the objects of the configured bucket by key, and the local files. */
  datatype Fs = Fs(config: Option<Config>, connected: bool, store: map<string, Obj>, local: set<string>)

  /** A successor world and the operation's return value. */
  datatype Step<R> = Step(fs: Fs, reply: R)

  /** The configuration exists and names engine `s3` or `cf`: the branch
      every guarded operation takes. */
  predicate Engaged(fs: Fs) {
    fs.config.Some? && UsesS3(fs.config.value)
  }

  /** A client only exists once `connect` saw a supported engine. */
  predicate Valid(fs: Fs) {
    fs.connected ==> Engaged(fs)
  }

  /** `exists` and `delete` call the client without checking that it was
      created, which PHP answers with a fatal error; callers of those two
      (and of everything built on them) must have connected first. */
  predicate ClientReady(fs: Fs) {
    Engaged(fs) ==> fs.connected
  }

  /** Engaged with a client: the branch that reaches the S3 service. */
  predicate Online(fs: Fs) {
    Engaged(fs) && fs.connected
  }

  function Bucket(fs: Fs): string
    requires Engaged(fs)
  {
    Active(fs.config.value).bucket
  }

  /** `k` is bound to the same object in both stores, or in neither. */
  predicate SameAt(m: map<string, Obj>, m': map<string, Obj>, k: string) {
    (k in m <==> k in m') && (k in m ==> m[k] == m'[k])
  }

  /** `connect`: creates the client when the engine is `s3` or `cf`. */
  function Connect(fs: Fs): (r: Step<bool>)
    ensures r.reply <==> Engaged(fs)
    ensures r.reply ==> Online(r.fs) && r.fs == fs.(connected := true)
    ensures !r.reply ==> r.fs == fs
  {
    if Engaged(fs) then Step(fs.(connected := true), true) else Step(fs, false)
  }

  /** `get_contents`: the object at the path's key, or `false`. */
  function GetContents(fs: Fs, file: string): (r: Option<Bytes>)
    ensures r.Some? <==> Online(fs) && S3Uri(file) in fs.store
    ensures r.Some? ==> r.value == fs.store[S3Uri(file)].data
  {
    if Online(fs) && S3Uri(file) in fs.store then Some(fs.store[S3Uri(file)].data) else None
  }

  /** `put_contents($file, $contents, $mode)`. On the online branch it
      uploads under the path's key with the ACL `_get_s3_perms($mode)` and
      removes the local file whatever the service answered; it returns the
      service's answer. Off that branch `$result` is never assigned and the
      method returns `null` (`None`). The content type sent along is
      `_get_mime_type($file)`, which is `false`; it is not stored. */
  function PutContents(fs: Fs, file: string, contents: Bytes, mode: Option<int>, now: int, accepted: bool): (r: Step<Option<bool>>)
    ensures r.reply.Some? <==> Online(fs)
    ensures r.reply.Some? ==> r.reply.value == accepted
    ensures r.fs.config == fs.config && r.fs.connected == fs.connected
    ensures r.fs.local == if Online(fs) then fs.local - {file} else fs.local
    ensures r.reply == Some(true) ==> S3Uri(file) in r.fs.store && r.fs.store[S3Uri(file)] == Obj(contents, S3Perms(mode), now)
    ensures r.reply != Some(true) ==> r.fs.store == fs.store
    ensures forall k :: k != S3Uri(file) ==> SameAt(fs.store, r.fs.store, k)
  {
    if Online(fs) then
      var key := S3Uri(file);
      var store := if accepted then fs.store[key := Obj(contents, S3Perms(mode), now)] else fs.store;
      Step(fs.(store := store, local := fs.local - {file}), Some(accepted))
    else
      Step(fs, None)
  }

  /** The branch of `copy` in which the object reaches the destination: a
      client, a write the service accepts, and a source key that exists. */
  predicate CopyLands(fs: Fs, source: string, accepted: bool) {
    Online(fs) && accepted && S3Uri(source) in fs.store
  }

  /** `copy($source, $destination)`: a server-side copy between the two
      keys with the ACL `_get_s3_perms($this->getchmod(...))`. The service
      refuses when the source key is absent. Returns nothing. */
  function Copy(fs: Fs, source: string, destination: string, now: int, accepted: bool): (r: Fs)
    ensures r.config == fs.config && r.connected == fs.connected && r.local == fs.local
    ensures forall k :: k != S3Uri(destination) ==> SameAt(fs.store, r.store, k)
    ensures Online(fs) && accepted && S3Uri(source) in fs.store ==>
      S3Uri(destination) in r.store &&
      r.store[S3Uri(destination)] == Obj(fs.store[S3Uri(source)].data, PublicReadWrite, now)
    ensures !CopyLands(fs, source, accepted) ==> r == fs
  {
    var srcKey, destKey := S3Uri(source), S3Uri(destination);
    if CopyLands(fs, source, accepted) then
      fs.(store := fs.store[destKey := Obj(fs.store[srcKey].data, S3Perms(Some(GetChmod(srcKey))), now)])
    else
      fs
  }

  /** `exists`: whether fetching the path's key succeeds. */
  function Exists(fs: Fs, file: string): (r: bool)
    requires ClientReady(fs)
    ensures r <==> GetContents(fs, file).Some?
  {
    Engaged(fs) && S3Uri(file) in fs.store
  }

  /** `delete($file)`: when the path does not exist, retries with it joined
      to the upload directory (`uploadPath` stands for
      `path_join(wp_upload_dir()['basedir'], ·)`); fails when neither exists,
      else deletes the key of the path found. */
  function Delete(fs: Fs, file: string, uploadPath: string -> string, accepted: bool): (r: Step<bool>)
    requires ClientReady(fs)
    ensures !Exists(fs, file) && !Exists(fs, uploadPath(file)) ==> r == Step(fs, false)
    ensures r.reply <==> accepted && (Exists(fs, file) || Exists(fs, uploadPath(file)))
    ensures r.reply ==> r.fs == fs.(store := fs.store - {S3Uri(if Exists(fs, file) then file else uploadPath(file))})
    ensures !r.reply ==> r.fs == fs
  {
    if !Engaged(fs) then Step(fs, false)
    else
      var target := if Exists(fs, file) then file else uploadPath(file);
      if !Exists(fs, target) then Step(fs, false)
      else if accepted then Step(fs.(store := fs.store - {S3Uri(target)}), true)
      else Step(fs, false)
  }

  /** `move`: `copy` then `delete` of the source, with no return value and
      no rollback. */
  function Move(fs: Fs, source: string, destination: string, now: int, uploadPath: string -> string,
                copyAccepted: bool, deleteAccepted: bool): (r: Fs)
    requires ClientReady(fs)
    ensures r.config == fs.config && r.connected == fs.connected && r.local == fs.local
    ensures Online(fs) && copyAccepted && deleteAccepted && S3Uri(source) in fs.store && S3Uri(source) != S3Uri(destination) ==>
      r.store == fs.store[S3Uri(destination) := Obj(fs.store[S3Uri(source)].data, PublicReadWrite, now)] - {S3Uri(source)}
  {
    var copied := Copy(fs, source, destination, now, copyAccepted);
    Delete(copied, source, uploadPath, deleteAccepted).fs
  }

  /** `is_file` is `exists`. */
  function IsFile(fs: Fs, file: string): (r: bool)
    requires ClientReady(fs)
    ensures r <==> Online(fs) && S3Uri(file) in fs.store
  {
    Exists(fs, file)
  }

  /** `is_dir`: everything that is not a file counts as a directory. */
  function IsDir(fs: Fs, path: string): (r: bool)
    requires ClientReady(fs)
    ensures r <==> !IsFile(fs, path)
  {
    !IsFile(fs, path)
  }

  /** `is_writable` is `is_file`. */
  function IsWritable(fs: Fs, file: string): (r: bool)
    requires ClientReady(fs)
    ensures r <==> Exists(fs, file)
  {
    IsFile(fs, file)
  }

  /** `is_readable`: the ACL for the constant `getchmod` mode, a non-empty
      (so truthy) string whatever the file. */
  function IsReadable(file: string): (r: Acl)
    ensures r == PublicReadWrite && r.Name() == "public-read-write"
  {
    S3Perms(Some(GetChmod(file)))
  }

  /** `_get_info($remote_file)`: the service's metadata for the key given,
      which the callers pass the raw path, not `_get_s3_uri` of it. */
  function Info(fs: Fs, remote: string): (r: Option<Obj>)
    ensures r.Some? <==> Online(fs) && remote in fs.store
    ensures r.Some? ==> r.value == fs.store[remote]
  {
    if Online(fs) && remote in fs.store then Some(fs.store[remote]) else None
  }

  /** `size`: `false` for a missing file; else the size from `_get_info`,
      or 0 when that lookup fails. */
  function Size(fs: Fs, file: string): (r: Option<int>)
    requires ClientReady(fs)
    ensures r.None? <==> !Exists(fs, file)
    ensures r.Some? ==> r.value == if file in fs.store then |fs.store[file].data| else 0
  {
    if !Exists(fs, file) then None
    else match Info(fs, file)
      case Some(o) => Some(|o.data|)
      case None => Some(0)
  }

  /** `mtime`: `false` for a missing file; else the time from `_get_info`,
      or `time()` (here `now`) when that lookup fails. */
  function Mtime(fs: Fs, file: string, now: int): (r: Option<int>)
    requires ClientReady(fs)
    ensures r.None? <==> !Exists(fs, file)
    ensures r.Some? ==> r.value == if file in fs.store then fs.store[file].time else now
  {
    if !Exists(fs, file) then None
    else match Info(fs, file)
      case Some(o) => Some(o.time)
      case None => Some(now)
  }

  /** `atime` has the same body as `mtime`: S3 keeps no access time. */
  function Atime(fs: Fs, file: string, now: int): (r: Option<int>)
    requires ClientReady(fs)
    ensures r == Mtime(fs, file, now)
  {
    if !Exists(fs, file) then None
    else match Info(fs, file)
      case Some(o) => Some(o.time)
      case None => Some(now)
  }

  /** `touch`, `mkdir` and `rmdir` report success and do nothing. */
  function Touch(fs: Fs, file: string): (r: Step<bool>)
    ensures r.fs == fs && r.reply
  {
    Step(fs, true)
  }

  function Mkdir(fs: Fs, path: string): (r: Step<bool>)
    ensures r.fs == fs && r.reply
  {
    Step(fs, true)
  }

  function Rmdir(fs: Fs, path: string): (r: Step<bool>)
    ensures r.fs == fs && r.reply
  {
    Step(fs, true)
  }

  /** `dirlist`: the bucket name in place of a listing; `null` when the
      engine is not `s3`/`cf`, since `$bucket` is then never assigned. */
  function Dirlist(fs: Fs, path: string): (r: Option<string>)
    ensures r.Some? <==> Engaged(fs)
    ensures r.Some? ==> r.value == Bucket(fs)
  {
    if Engaged(fs) then Some(Bucket(fs)) else None
  }

  /** `_get_info` applied to the path's key, as every other operation does. */
  function InfoIntended(fs: Fs, file: string): (r: Option<Obj>)
    ensures r.Some? <==> GetContents(fs, file).Some?
    ensures r.Some? ==> r.value.data == GetContents(fs, file).value
  {
    Info(fs, S3Uri(file))
  }

  /** `size` over the intended `_get_info`: an existing file reports the
      length of its contents. */
  function SizeIntended(fs: Fs, file: string): (r: Option<int>)
    requires ClientReady(fs)
    ensures r.None? <==> !Exists(fs, file)
    ensures r.Some? ==> r.value == |GetContents(fs, file).value|
  {
    if !Exists(fs, file) then None
    else match InfoIntended(fs, file)
      case Some(o) => Some(|o.data|)
      case None => Some(0)
  }

  /** `move` that deletes the source only once its copy has landed under a
      different key: a same-key move, a refused copy and a source with no
      object of its own all leave the store alone. */
  function MoveIntended(fs: Fs, source: string, destination: string, now: int, uploadPath: string -> string,
                        copyAccepted: bool, deleteAccepted: bool): (r: Fs)
    requires ClientReady(fs)
    ensures r.config == fs.config && r.connected == fs.connected && r.local == fs.local
    ensures S3Uri(source) !in fs.store || !copyAccepted ==> r == fs
  {
    if S3Uri(source) == S3Uri(destination) || !CopyLands(fs, source, copyAccepted) then fs
    else Move(fs, source, destination, now, uploadPath, copyAccepted, deleteAccepted)
  }
}
