/** Properties of the S3 filesystem adapter that relate several operations. */
module S3FilesystemProps {
  import opened Wrappers
  import opened Text
  import opened W3
  import opened Perms
  import opened Paths
  import opened S3Filesystem

  /** Every operation keeps "a client exists only for a supported engine",
      and `connect` makes the adapter ready for `exists` and `delete`. */
  lemma ValidPreserved(fs: Fs, file: string, other: string, contents: Bytes, mode: Option<int>, now: int,
                       uploadPath: string -> string, a: bool, b: bool)
    requires Valid(fs)
    ensures Valid(Connect(fs).fs) && ClientReady(Connect(fs).fs)
    ensures Valid(PutContents(fs, file, contents, mode, now, a).fs)
    ensures Valid(Copy(fs, file, other, now, a))
    ensures ClientReady(fs) ==> Valid(Delete(fs, file, uploadPath, a).fs)
    ensures ClientReady(fs) ==> Valid(Move(fs, file, other, now, uploadPath, a, b))
  {
  }

  /** With no configuration, or an engine other than `s3`/`cf`, every
      guarded operation answers false or null and changes nothing. */
  lemma UnengagedIsInert(fs: Fs, file: string, other: string, contents: Bytes, mode: Option<int>, now: int,
                         uploadPath: string -> string, a: bool, b: bool)
    requires !Engaged(fs)
    ensures Connect(fs) == Step(fs, false)
    ensures GetContents(fs, file) == None
    ensures PutContents(fs, file, contents, mode, now, a) == Step(fs, None)
    ensures Copy(fs, file, other, now, a) == fs
    ensures Delete(fs, file, uploadPath, a) == Step(fs, false)
    ensures Move(fs, file, other, now, uploadPath, a, b) == fs
    ensures !Exists(fs, file) && Size(fs, file).None? && Mtime(fs, file, now).None? && Atime(fs, file, now).None?
    ensures Dirlist(fs, file).None?
  {
  }

  /** A successful `put_contents` followed by `get_contents` of the same
      path, of any path with the same key, or of the key itself, reads back
      what was written; the local copy is gone. */
  lemma PutThenGet(fs: Fs, file: string, alias: string, contents: Bytes, mode: Option<int>, now: int)
    requires Online(fs)
    requires S3Uri(alias) == S3Uri(file)
    ensures var after := PutContents(fs, file, contents, mode, now, true).fs;
      && GetContents(after, file) == Some(contents)
      && GetContents(after, alias) == Some(contents)
      && GetContents(after, S3Uri(file)) == Some(contents)
      && Exists(after, file)
      && file !in after.local
  {
    S3UriIdempotent(file);
  }

  /** A `put_contents` the service refused still removes the local file,
      so the data is then held nowhere. */
  lemma RefusedPutLosesLocalCopy(fs: Fs, file: string, contents: Bytes, mode: Option<int>, now: int)
    requires Online(fs) && file in fs.local && S3Uri(file) !in fs.store
    ensures var r := PutContents(fs, file, contents, mode, now, false);
      r.reply == Some(false) && file !in r.fs.local && GetContents(r.fs, file).None?
  {
  }

  /** `put_contents` then `delete` of the same path removes the object. */
  lemma PutThenDelete(fs: Fs, file: string, contents: Bytes, mode: Option<int>, now: int, uploadPath: string -> string)
    requires Online(fs)
    ensures var r := Delete(PutContents(fs, file, contents, mode, now, true).fs, file, uploadPath, true);
      r.reply && !Exists(r.fs, file)
  {
  }

  /** `delete` issues no store delete when neither the path nor its upload
      path exists; otherwise it removes exactly one key, the first found. */
  lemma DeleteRemovesOneKey(fs: Fs, file: string, uploadPath: string -> string)
    requires ClientReady(fs)
    ensures var r := Delete(fs, file, uploadPath, true);
      && (!Exists(fs, file) && !Exists(fs, uploadPath(file)) ==> r.fs.store == fs.store && !r.reply)
      && (Exists(fs, file) ==> r.reply && r.fs.store.Keys == fs.store.Keys - {S3Uri(file)} && S3Uri(file) in fs.store)
      && (!Exists(fs, file) && Exists(fs, uploadPath(file)) ==>
            r.reply && r.fs.store.Keys == fs.store.Keys - {S3Uri(uploadPath(file))})
  {
  }

  /** `copy` ignores the source's ACL: the copy is always
      public-read-write, because `getchmod` reports 644. */
  lemma CopyIsPublicReadWrite(fs: Fs, source: string, destination: string, now: int)
    requires Online(fs) && S3Uri(source) in fs.store
    ensures var r := Copy(fs, source, destination, now, true);
      r.store[S3Uri(destination)].acl == PublicReadWrite &&
      GetContents(r, destination) == GetContents(fs, source)
  {
  }

  /** `move` is not atomic: when the copy lands and the delete is refused,
      source and destination both exist. */
  lemma MoveNotAtomic(fs: Fs, source: string, destination: string, now: int, uploadPath: string -> string)
    requires Online(fs) && S3Uri(source) in fs.store
    ensures var r := Move(fs, source, destination, now, uploadPath, true, false);
      Exists(r, source) && Exists(r, destination) &&
      GetContents(r, destination) == GetContents(fs, source)
  {
    var copied := Copy(fs, source, destination, now, true);
    assert Delete(copied, source, uploadPath, false).fs == copied;
  }

  /** As written, `move` deletes even when the copy was refused: the source
      is gone and nothing reached the destination. */
  lemma MoveRefusedCopyLosesFile(fs: Fs, source: string, destination: string, now: int, uploadPath: string -> string)
    requires Online(fs) && S3Uri(source) in fs.store && S3Uri(destination) !in fs.store
    ensures var r := Move(fs, source, destination, now, uploadPath, false, true);
      !Exists(r, source) && !Exists(r, destination)
  {
    assert Copy(fs, source, destination, now, false) == fs;
    assert Exists(fs, source);
  }

  /** As written, `move` of a path with no object of its own copies
      nothing (`copy` has no upload-directory fallback) but `delete` falls
      back to the upload path and removes that object. */
  lemma MoveWithoutSourceDeletesUploadObject(fs: Fs, source: string, destination: string, now: int,
                                                                uploadPath: string -> string, copyAccepted: bool)
    requires Online(fs) && S3Uri(source) !in fs.store && S3Uri(uploadPath(source)) in fs.store
    ensures var r := Move(fs, source, destination, now, uploadPath, copyAccepted, true);
      r.store == fs.store - {S3Uri(uploadPath(source))} && !Exists(r, uploadPath(source))
  {
    assert Copy(fs, source, destination, now, copyAccepted) == fs;
    assert !Exists(fs, source) && Exists(fs, uploadPath(source));
  }

  /** The intended `move` never loses an object: whatever the service
      accepts, the source's contents are still readable at the source or
      at the destination, and an upload-path object is never touched by a
      source that has no object of its own. */
  lemma MoveIntendedNeverLoses(fs: Fs, source: string, destination: string, now: int,
                                                  uploadPath: string -> string, copyAccepted: bool, deleteAccepted: bool)
    requires Online(fs)
    ensures var r := MoveIntended(fs, source, destination, now, uploadPath, copyAccepted, deleteAccepted);
      && (S3Uri(source) in fs.store ==>
            GetContents(r, source) == GetContents(fs, source) || GetContents(r, destination) == GetContents(fs, source))
      && (S3Uri(source) !in fs.store ==> r.store == fs.store)
  {
    if S3Uri(source) in fs.store && S3Uri(source) != S3Uri(destination) && copyAccepted {
      var copied := Copy(fs, source, destination, now, true);
      assert Exists(copied, source);
    }
  }

  /** When both steps succeed and the keys differ, `move` relocates the
      contents: the destination reads what the source held and the source
      is gone. */
  lemma MoveRelocates(fs: Fs, source: string, destination: string, now: int, uploadPath: string -> string)
    requires Online(fs) && S3Uri(source) in fs.store && S3Uri(source) != S3Uri(destination)
    ensures var r := Move(fs, source, destination, now, uploadPath, true, true);
      !Exists(r, source) && GetContents(r, destination) == GetContents(fs, source)
  {
  }

  /** As written, moving a file onto a path with the same key copies it
      onto itself and then deletes it: the file is lost. */
  lemma MoveOntoSameKeyLosesFile(fs: Fs, source: string, destination: string, now: int, uploadPath: string -> string)
    requires Online(fs) && S3Uri(source) in fs.store && S3Uri(source) == S3Uri(destination)
    ensures !Exists(Move(fs, source, destination, now, uploadPath, true, true), destination)
  {
    var copied := Copy(fs, source, destination, now, true);
    assert Exists(copied, source);
  }

  /** The intended `move` never loses the source's contents when the copy
      lands: the destination reads them afterwards, whichever keys the two
      paths have. */
  lemma MoveIntendedKeepsContents(fs: Fs, source: string, destination: string, now: int,
                                                     uploadPath: string -> string, deleteAccepted: bool)
    requires Online(fs) && S3Uri(source) in fs.store
    ensures GetContents(MoveIntended(fs, source, destination, now, uploadPath, true, deleteAccepted), destination)
         == GetContents(fs, source)
  {
    if S3Uri(source) != S3Uri(destination) {
      var copied := Copy(fs, source, destination, now, true);
      assert Exists(copied, source);
    }
  }

  /** Directories are a fiction: a path is a directory exactly when it is
      not a file, `mkdir` succeeds even on a file, and it makes nothing. */
  lemma DirectoryFiction(fs: Fs, path: string)
    requires ClientReady(fs)
    ensures IsDir(fs, path) <==> !Exists(fs, path)
    ensures Mkdir(fs, path).reply && Rmdir(fs, path).reply && Touch(fs, path).reply
    ensures IsDir(Mkdir(fs, path).fs, path) == IsDir(fs, path)
  {
  }

  /** `size`, `mtime` and `atime` look metadata up under the raw path: an
      existing file whose path is not itself a key reports size 0 and the
      current time, while the intended lookup reports its real size. */
  lemma InfoLooksUpRawPath(fs: Fs, file: string, now: int)
    requires Online(fs) && S3Uri(file) in fs.store && file !in fs.store
    ensures Exists(fs, file)
    ensures Size(fs, file) == Some(0)
    ensures Mtime(fs, file, now) == Some(now) && Atime(fs, file, now) == Some(now)
    ensures SizeIntended(fs, file) == Some(|fs.store[S3Uri(file)].data|)
  {
  }

  /** The defect on a concrete upload: the object `wp-content/a` of three
      bytes exists for the path `/wp-content/a`, whose size reads as 0. */
  lemma InfoDefectExample(fs: Fs, o: Obj)
    requires Online(fs) && fs.store == map[ContentDir + "/a" := o] && |o.data| == 3
    ensures Exists(fs, "/" + ContentDir + "/a")
    ensures Size(fs, "/" + ContentDir + "/a") == Some(0)
    ensures SizeIntended(fs, "/" + ContentDir + "/a") == Some(3)
  {
    NoMarkerInRoot("/", "/a");
    assert NoNewline("/") && NoNewline("/a");
    S3UriBelowRoot("/", "/a");
    assert ("/" + ContentDir + "/a")[0] != (ContentDir + "/a")[0];
  }

  /** For an existing file whose path is its key, size and mtime report the
      stored object's length and time. */
  lemma StatOfKey(fs: Fs, key: string, now: int)
    requires Online(fs) && key in fs.store && S3Uri(key) == key
    ensures Size(fs, key) == Some(|fs.store[key].data|)
    ensures Mtime(fs, key, now) == Some(fs.store[key].time)
  {
  }
}
