# CDN Only Media — a Dafny model

CDN Only Media is a WordPress plugin that keeps media files on Amazon S3
(through W3 Total Cache's S3 or CloudFront configuration) instead of the local
disk. It has two parts, both modelled here:

- `WP_Filesystem_S3` (class-wp-filesystem-s3.php) implements WordPress's
  filesystem interface over one S3 bucket. Local paths become object keys (the
  tail from `wp-content`). Unix modes become canned ACLs. `connect`, `get_contents`,
  `put_contents`, `copy`, `delete`, `exists` and `dirlist` check themselves
  that W3 Total Cache is configured with engine `s3` or `cf`. `move`,
  `is_file`, `is_dir`, `is_writable`, `size`, `mtime` and `atime` are
  guarded only through the calls they make. `touch`, `mkdir`, `rmdir`,
  `is_readable` and `getchmod` have no guard at all.
- `CDNOnlyMedia` (cdn-only-media.php) rewrites attachment URLs onto the CDN
  domain. It also installs the filters that make WordPress pick
  `WP_Filesystem_S3`.

The model is functional. The adapter's world is a value
`Fs(config, connected, store, local)`:

- `config` is the W3 Total Cache configuration, or `None`.
- `connected` says whether `$this->s3Obj` holds a client.
- `store` maps the keys of the configured bucket to objects (bytes, ACL, time).
- `local` is the set of local files.

Each operation is a function from an `Fs` to its successor and its PHP return
value. `false` and `null` are modelled as `None`, or as a `Step` reply of
`false`.

The S3 client and the host are not part of this model; they become parameters:

- The service's verdict on a write (`putObject`, `copyObject`,
  `deleteObject`) is the parameter `accepted`.
- `time()` is the parameter `now`.
- `path_join(wp_upload_dir()['basedir'], ·)` is the function parameter
  `uploadPath`.
- `get_option('home')` is the parameter `home`.
- `WP_PLUGIN_DIR` is the parameter `pluginDir`.

Both files use `preg_match("#(marker.*$)#")`. The module `Text` gives it
PCRE's meaning:

- `.` stops at a newline.
- `$` matches at the end of the subject or before a final newline.

So paths containing newlines are handled as PHP handles them. The familiar
statement "the key is the suffix from the first `wp-content`" is proved for
single-line paths.

Modules:

- `Text` holds the string vocabulary and the regex semantics.
- `W3` holds the configuration.
- `Paths` models `_get_s3_uri`.
- `Perms` models `_get_s3_perms`, `_get_file_perms` and `getchmod`.
- `Mime` models `_get_mime_type`.
- `S3Filesystem` holds the adapter operations.
- `S3FilesystemProps` holds the properties that relate several operations.
- `CdnOnlyMedia` holds the URL rewriting and dispatch filters.

Some behaviour of the code differs from what a reader of the interface would
expect. The model follows the code:

- An omitted mode maps to public-read, not private.
- The local file is removed after `put_contents` even when the upload fails.
- `copy` does not keep the source's ACL. It always applies the ACL for
  `getchmod`'s constant 644, which is public-read-write.
- `is_readable` ignores the object. It always returns the string
  `public-read-write`.
- Mode 644 does not round-trip: it maps to public-read-write, and that maps back
  to 666.
- No operation checks that the bucket name is non-empty.
- `move` deletes the source whatever `copy` did. A refused copy, or a source
  found only under the upload directory, loses the object.

## Model

| member | source | states |
|---|---|---|
| `W3.Active` | cdn-only-media.php:74-82 | the settings read through `cdn.{$engine}.…` are those of the active engine, `s3` or `cf` |
| `Text.FindTail` | class-wp-filesystem-s3.php:637 | the regex engine's start offset is the leftmost offset where `(marker.*$)` can match, and no earlier offset matches |
| `Text.TailGroup` | class-wp-filesystem-s3.php:637 | capture group 1 starts with the marker and has no newline after it; the group is unset exactly when no offset matches |
| `Text.TailGroupOfLine` | class-wp-filesystem-s3.php:637 | on a single line, the group is the suffix from the first occurrence of the marker |
| `Text.TailGroupAbsent` | class-wp-filesystem-s3.php:637 | on a single line without the marker, the group is unset |
| `Text.TailGroupIdempotent` | class-wp-filesystem-s3.php:637 | matching the group again yields the group itself |
| `Text.TailGroupIsSuffix` | class-wp-filesystem-s3.php:637 | the group is a suffix of the subject without its final newline |
| `Paths.S3Uri` | class-wp-filesystem-s3.php:635-642 | the key is the path itself, or starts with `wp-content` |
| `Paths.S3UriFromMarker` | class-wp-filesystem-s3.php:635-642 | a single-line path maps to its suffix from the first `wp-content` |
| `Paths.S3UriWithoutMarker` | class-wp-filesystem-s3.php:635-642 | a single-line path without `wp-content` is its own key |
| `Paths.S3UriIsSuffix` | class-wp-filesystem-s3.php:635-642 | the key is always a suffix of the path (of the path minus a final newline) |
| `Paths.S3UriIdempotent` | class-wp-filesystem-s3.php:635-642 | translating a key again leaves it unchanged, for every path |
| `Paths.S3UriBelowRoot` | class-wp-filesystem-s3.php:635-642 | `root + "wp-content" + rest` maps to `"wp-content" + rest` when the root holds no earlier marker |
| `Perms.S3Perms` | class-wp-filesystem-s3.php:645-657 | an omitted mode gives public-read; the result is private exactly for non-zero multiples of 100, and public-read-write exactly when the units digit is non-zero |
| `Perms.FilePerms` | class-wp-filesystem-s3.php:660-668 | private is reported as 600, public-read as 644 and public-read-write as 666 (each both ways); private and public-read-write map back to themselves |
| `Perms.GetChmod` | class-wp-filesystem-s3.php:251-254 | every file reports mode 644, which `_get_s3_perms` turns into public-read-write |
| `Perms.ModeRoundTrip` | class-wp-filesystem-s3.php:645-668 | mode → ACL → mode returns the mode exactly for 600 and 666 |
| `Perms.AclRoundTrip` | class-wp-filesystem-s3.php:645-668 | ACL → mode → ACL is the identity exactly on private and public-read-write; public-read comes back public-read-write |
| `Perms.OctalModes` | class-wp-filesystem-s3.php:645-657 | 0644 (420) gives public-read, 0600 (384) gives public-read-write, 600 gives private, 0 and an omitted mode give public-read |
| `Perms.S3PermsIntended` | class-wp-filesystem-s3.php:645-657 | corrected classification: public-read-write only when the units digit has the write bit; private exactly as written |
| `Perms.IntendedInvertsFilePerms` | class-wp-filesystem-s3.php:645-668 | the corrected classification inverts `_get_file_perms` on every ACL, and differs from the written one exactly on modes whose units digit is non-zero without the write bit |
| `Mime.MimeOfExtension` | class-wp-filesystem-s3.php:627-631 | a truthy extension with a truthy table entry yields that entry, anything else `false` |
| `Mime.ExtensionAsWritten` | class-wp-filesystem-s3.php:484-485 | the extension is always unset, since `preg_replace` never assigns `$matches` |
| `Mime.MimeTypeAsWritten` | class-wp-filesystem-s3.php:482-632 | `_get_mime_type` returns `false` for every file |
| `Mime.Extension` | class-wp-filesystem-s3.php:484 | the intended extension match holds no dot, and is absent exactly when the name has no dot |
| `Mime.MimeType` | class-wp-filesystem-s3.php:482-632 | the intended lookup only returns types from the table |
| `Mime.MimeTypeOfName` | class-wp-filesystem-s3.php:482-632 | `stem.ext` has extension `ext`; the intended lookup finds its entry while the written one returns `false` |
| `Mime.JpegDefect` | class-wp-filesystem-s3.php:484 | `photo.jpg` should be `image/jpeg` but gets `false` |
| `S3Filesystem.Connect` | class-wp-filesystem-s3.php:48-65 | `connect` returns true exactly when the engine is `s3` or `cf`, and then holds a client; otherwise nothing changes |
| `S3Filesystem.GetContents` | class-wp-filesystem-s3.php:73-92 | the contents are returned exactly when the adapter is online and the path's key is stored |
| `S3Filesystem.PutContents` | class-wp-filesystem-s3.php:140-164 | online: the reply is the service's verdict, the local file is gone either way, and an accepted put binds the key to (contents, `_get_s3_perms(mode)`, now); offline: `null`; no other key changes |
| `S3Filesystem.Copy` | class-wp-filesystem-s3.php:261-281 | an accepted copy of an existing source binds the destination key to the source's bytes with public-read-write; nothing else changes; no return value |
| `S3Filesystem.Exists` | class-wp-filesystem-s3.php:318-337 | `exists` is true exactly when fetching the path's contents succeeds |
| `S3Filesystem.Delete` | class-wp-filesystem-s3.php:290-316 | when neither the path nor its upload path exists, false and nothing changes; otherwise an accepted delete removes the key of the path found first |
| `S3Filesystem.Move` | class-wp-filesystem-s3.php:283-288 | with both steps accepted and distinct keys, the destination key gets the source's bytes (public-read-write) and the source key is removed; no return value |
| `S3Filesystem.IsFile` | class-wp-filesystem-s3.php:339-342 | a path is a file exactly when the adapter is online and the path's key is stored |
| `S3Filesystem.IsDir` | class-wp-filesystem-s3.php:344-351 | a path is a directory exactly when it is not a file |
| `S3Filesystem.IsWritable` | class-wp-filesystem-s3.php:359-364 | a path is writable exactly when it exists |
| `S3Filesystem.IsReadable` | class-wp-filesystem-s3.php:353-357 | every file answers the ACL public-read-write, whose non-empty name `"public-read-write"` is truthy |
| `S3Filesystem.Info` | class-wp-filesystem-s3.php:671-688 | metadata is found exactly when online and the raw path is itself a key |
| `S3Filesystem.Size` | class-wp-filesystem-s3.php:394-406 | `false` exactly when the file does not exist; else the size stored under the raw path, or 0 |
| `S3Filesystem.Mtime` | class-wp-filesystem-s3.php:380-392 | `false` exactly when the file does not exist; else the time stored under the raw path, or now |
| `S3Filesystem.Atime` | class-wp-filesystem-s3.php:366-378 | `atime` answers what `mtime` answers |
| `S3Filesystem.Touch` | class-wp-filesystem-s3.php:409-412 | reports success and changes nothing |
| `S3Filesystem.Mkdir` | class-wp-filesystem-s3.php:424-427 | reports success and changes nothing |
| `S3Filesystem.Rmdir` | class-wp-filesystem-s3.php:429-432 | reports success and changes nothing |
| `S3Filesystem.Dirlist` | class-wp-filesystem-s3.php:434-445 | the bucket name exactly when the engine is `s3`/`cf`, `null` otherwise |
| `S3Filesystem.InfoIntended` | class-wp-filesystem-s3.php:671-688 | corrected lookup: metadata is found exactly when the contents are, and describes them |
| `S3Filesystem.SizeIntended` | class-wp-filesystem-s3.php:394-406 | corrected `size`: an existing file reports the length of its contents |
| `S3Filesystem.MoveIntended` | class-wp-filesystem-s3.php:283-288 | corrected `move`: configuration, client and local files are untouched, and a refused copy or a source with no object leaves the store unchanged |
| `S3FilesystemProps.ValidPreserved` | class-wp-filesystem-s3.php:48-65 | no operation creates a client for an unsupported engine; `connect` makes `exists`/`delete` safe to call |
| `S3FilesystemProps.UnengagedIsInert` | class-wp-filesystem-s3.php:48-446 | without a configuration, or with an engine other than `s3`/`cf`, `connect`, `get_contents`, `put_contents`, `copy`, `delete`, `move`, `exists`, `size`, `mtime`, `atime` and `dirlist` answer false/null and change nothing |
| `S3FilesystemProps.PutThenGet` | class-wp-filesystem-s3.php:140-164 | after an accepted put, reading the path, any path with the same key, or the key itself returns the contents; the local file is gone |
| `S3FilesystemProps.RefusedPutLosesLocalCopy` | class-wp-filesystem-s3.php:152-158 | a refused put of a new file still unlinks the local copy |
| `S3FilesystemProps.PutThenDelete` | class-wp-filesystem-s3.php:290-316 | deleting a path just put succeeds and leaves it absent |
| `S3FilesystemProps.DeleteRemovesOneKey` | class-wp-filesystem-s3.php:299-311 | no delete is issued when neither path exists; otherwise exactly one key goes: the path's, else the upload path's |
| `S3FilesystemProps.CopyIsPublicReadWrite` | class-wp-filesystem-s3.php:251-281 | a copy is always public-read-write and reads as its source |
| `S3FilesystemProps.MoveNotAtomic` | class-wp-filesystem-s3.php:283-288 | when the copy lands and the delete is refused, both source and destination exist |
| `S3FilesystemProps.MoveRefusedCopyLosesFile` | class-wp-filesystem-s3.php:283-288 | when the copy is refused and the delete accepted, the source is gone and the destination still absent |
| `S3FilesystemProps.MoveWithoutSourceDeletesUploadObject` | class-wp-filesystem-s3.php:283-305 | when the source has no object but its upload-directory path does, nothing is copied and that object is deleted |
| `S3FilesystemProps.MoveIntendedNeverLoses` | class-wp-filesystem-s3.php:283-288 | under the corrected move, for every service verdict the source's contents remain readable at the source or at the destination, and a source without an object deletes nothing |
| `S3FilesystemProps.MoveRelocates` | class-wp-filesystem-s3.php:283-288 | with distinct keys and both steps accepted, the destination reads the source's contents and the source is gone |
| `S3FilesystemProps.MoveOntoSameKeyLosesFile` | class-wp-filesystem-s3.php:283-288 | moving a file onto a path with the same key deletes it |
| `S3FilesystemProps.MoveIntendedKeepsContents` | class-wp-filesystem-s3.php:283-288 | the corrected move never loses the source's contents when the copy lands |
| `S3FilesystemProps.DirectoryFiction` | class-wp-filesystem-s3.php:344-432 | a path is a directory exactly when it does not exist as a file; `mkdir`, `rmdir` and `touch` succeed without changing anything |
| `S3FilesystemProps.InfoLooksUpRawPath` | class-wp-filesystem-s3.php:671-688 | an existing file whose path is not itself a key reports size 0 and the current time; the corrected size is its real size |
| `S3FilesystemProps.InfoDefectExample` | class-wp-filesystem-s3.php:682 | the 3-byte object `wp-content/a` exists for path `/wp-content/a`, yet its size reads 0 |
| `S3FilesystemProps.StatOfKey` | class-wp-filesystem-s3.php:380-406 | for a path that is its own key, size and mtime report the stored object's length and time |
| `CdnOnlyMedia.GetDomain` | cdn-only-media.php:70-87 | the first CNAME over http, else `https://<bucket>.s3.amazonaws.com`, when the engine is `s3`/`cf`; the home URL otherwise |
| `CdnOnlyMedia.ModifyUrl` | cdn-only-media.php:52-64 | the URL unchanged when home is the domain; else the domain followed by nothing or by a tail starting with `/wp-content` |
| `CdnOnlyMedia.ModifyUrlFromMarker` | cdn-only-media.php:57-61 | on a single-line URL the rewrite is the domain followed by the URL from its first `/wp-content` |
| `CdnOnlyMedia.ModifyUrlWithoutMarker` | cdn-only-media.php:57-61 | on a single-line URL with no `/wp-content` the rewrite is the bare domain (the unset group adds nothing) |
| `CdnOnlyMedia.UrlTailIsSlashKey` | cdn-only-media.php:57-61 | when the first `wp-content` follows a slash, the tail kept is a slash followed by the object key the adapter derives from the same path |
| `CdnOnlyMedia.ModifyUrlAddressesObjectKey` | cdn-only-media.php:57-61 | when the first `wp-content` follows a slash, the rewritten URL is domain + `/` + the key the adapter stores the path under |
| `CdnOnlyMedia.ReplacePrefix` | cdn-only-media.php:100 | the anchored literal pattern replaces a leading `from` by `to` and keeps the rest verbatim; other subjects are unchanged |
| `CdnOnlyMedia.ReplaceDomain` | cdn-only-media.php:94-103 | unchanged when home is the domain or the URL does not start with home; else the domain followed by the rest of the URL |
| `CdnOnlyMedia.ReplaceDomainReversible` | cdn-only-media.php:94-103 | replacing the domain back by home restores the original URL |
| `CdnOnlyMedia.UsingS3` | cdn-only-media.php:116-121 | true exactly when the engine is `s3` or `cf` |
| `CdnOnlyMedia.GetFilesystemMethod` | cdn-only-media.php:133-139 | `s3` exactly when the engine is `s3`/`cf` or WordPress chose `s3`; otherwise WordPress's choice |
| `CdnOnlyMedia.GetFilesystemMethodFile` | cdn-only-media.php:141-147 | the plugin's class file for method `s3`, the given file otherwise |
| `CdnOnlyMedia.DomainIsAdapterBucket` | cdn-only-media.php:70-87 | without a CNAME, the domain is the virtual-host URL of the bucket the adapter uses (the one `dirlist` reports) |
| `CdnOnlyMedia.DispatchAgreesWithConnect` | cdn-only-media.php:133-147 | WordPress is routed to the plugin's class file exactly when the adapter's `connect` succeeds with the same configuration or WordPress already chose `s3`; otherwise the file WordPress chose is kept |

## Left out

- The S3 client is not modelled: request signing, HTTP and its response objects are abstracted. `getObject` answers the stored bytes or `false`. `getObjectInfo` answers the stored object's length and time. The verdict on a write is a parameter.
- Transport failures of reads are not modelled. A read answers from the bucket contents.
- `get_contents_array` and `_get_file` are not modelled. They stage the object in a temporary file under `/tmp`, using `uniqid`, `file()` and `unlink`, which is local I/O.
- Only 14 rows of the extension table in `_get_mime_type` are included. The table is static data, and the written code never reaches it.
- The content type sent with `putObject` and `copyObject` is not stored in the model. It is always `false`, so what S3 does with it is up to the client library.
- `cwd`, `chdir`, `chgrp`, `chmod`, `chown`, `owner` and `group` are not modelled. They return the constants `/tmp`, `true` or `amazon` and touch nothing.
- Hook registration, the constructors, `w3tc_installed` and `_get_w3_config`/`get_w3_config` are not modelled. This is WordPress plumbing. The configuration they fetch is a parameter.
- The ignored arguments are dropped: `$overwrite`, `$recursive`, `$include_hidden`, `$postID`, `$args`, and the times and modes of `touch`/`mkdir`.
- `ClientReady` is a precondition of `Exists`, `Delete`, `Move`, `IsFile`, `IsDir`, `IsWritable`, `Size`, `Mtime` and `Atime`. The PHP calls the client without checking that it exists, which is a fatal error.
- `UsingS3`/`GetFilesystemMethod` take a configuration rather than an optional one. The PHP calls `get_string` on the configuration without checking it, which is a fatal error when it is absent.
- CdnOnlyMedia.ReplaceDomain: the domain is inserted literally. `preg_replace` would expand `$n` or `\n` back-references in it, but bucket names and CNAMEs cannot contain `$` or `\`.
- CdnOnlyMedia.ModifyUrl: compares home and domain with string equality. PHP's `!=` compares two numeric strings as numbers, which URLs never are.
- Perms.S3Perms: takes an integer or nothing. Modes passed as strings or booleans, which PHP would convert, are not modelled.

## Findings

The adapter keeps the code's behaviour as written. Each corrected member stands beside it, with its intended property proved.

| source | as written | input that shows it | evidently intended | confidence | as-written member | corrected member |
|---|---|---|---|---|---|---|
| class-wp-filesystem-s3.php:484 | `preg_replace` gets the file as the replacement and the unset `$matches` as the subject, so `$matches[1]` is never set and `_get_mime_type` always returns `false` | `photo.jpg` | `image/jpeg`, the table entry for the extension after the last dot | high (not executed) | `Mime.JpegDefect` | `Mime.MimeTypeOfName` |
| class-wp-filesystem-s3.php:682 | `_get_info` asks for the raw path, not `_get_s3_uri` of it, so `size`/`mtime`/`atime` fall back to 0 or now for existing files | object `wp-content/a` of 3 bytes, `size('/wp-content/a')` | 3 | high (not executed) | `S3FilesystemProps.InfoDefectExample` | `S3Filesystem.SizeIntended` |
| class-wp-filesystem-s3.php:651 | any non-zero units digit gives public-read-write, so 644, the mode `getchmod` reports for public-read, maps to public-read-write, and every `copy` makes its object publicly writable | mode 644 | public-read (the inverse of `_get_file_perms`) | medium (not executed) | `Perms.AclRoundTrip` | `Perms.IntendedInvertsFilePerms` |
| class-wp-filesystem-s3.php:283-288 | `move` copies then deletes the source, so a destination with the source's key ends up deleted | `move(p, p)` of an existing file | the file stays in place | medium (not executed) | `S3FilesystemProps.MoveOntoSameKeyLosesFile` | `S3FilesystemProps.MoveIntendedKeepsContents` |
| class-wp-filesystem-s3.php:286-287 | `move` ignores whether `copy` did anything and always runs `delete($source)` | existing source, missing destination, copy refused by the service, delete accepted | the source is kept when the copy did not land | medium (not executed) | `S3FilesystemProps.MoveRefusedCopyLosesFile` | `S3FilesystemProps.MoveIntendedNeverLoses` |
| class-wp-filesystem-s3.php:274-305 | `copy` reads only `_get_s3_uri($source)` while `delete` falls back to the upload-directory path, so `move` deletes an object it never copied | source with no object whose upload-directory path has one | nothing is deleted, as nothing was copied | medium (not executed) | `S3FilesystemProps.MoveWithoutSourceDeletesUploadObject` | `S3FilesystemProps.MoveIntendedNeverLoses` |
