/** Content-type lookup by file extension. */
module Mime {
  import opened Wrappers
  import opened Text

  /** Some rows of the extension table; the full table is static data. */
  const MimeTable: map<string, string> := map[
    "pdf" := "application/pdf",
    "js" := "application/x-javascript",
    "zip" := "application/zip",
    "mp3" := "audio/mpeg",
    "gif" := "image/gif",
    "jpeg" := "image/jpeg",
    "jpg" := "image/jpeg",
    "jpe" := "image/jpeg",
    "png" := "image/png",
    "css" := "text/css",
    "html" := "text/html",
    "htm" := "text/html",
    "txt" := "text/plain",
    "xml" := "text/xml"
  ]

  /** The lookup that follows the extension match: a truthy extension with
      a truthy table entry gives that entry, anything else gives `false`. */
  function MimeOfExtension(ext: Option<string>): (r: Option<string>)
    ensures r.Some? <==> ext.Some? && Truthy(ext.value) && ext.value in MimeTable && Truthy(MimeTable[ext.value])
    ensures r.Some? ==> r.value == MimeTable[ext.value]
  {
    if ext.Some? && Truthy(ext.value) && ext.value in MimeTable && Truthy(MimeTable[ext.value])
    then Some(MimeTable[ext.value])
    else None
  }

  /** The extension `_get_mime_type` obtains. The call hands `$file` to
      `preg_replace` as the replacement and the unset `$matches` as the
      subject; `preg_replace` never assigns its subject, so `$matches[1]`
      stays unset whatever the file is. */
  function ExtensionAsWritten(file: string): (ext: Option<string>)
    ensures ext.None?
  {
    None
  }

  /** `_get_mime_type` as written: always `false`. */
  function MimeTypeAsWritten(file: string): (r: Option<string>)
    ensures r.None?
  {
    MimeOfExtension(ExtensionAsWritten(file))
  }

  /** The offset of the last `c` in `s`. */
  function LastIndexOf(c: char, s: string): (r: Option<nat>)
    ensures r.Some? ==> r.value < |s| && s[r.value] == c
    ensures forall k :: (if r.Some? then r.value + 1 else 0) <= k < |s| ==> s[k] != c
  {
    if |s| == 0 then None
    else if s[|s| - 1] == c then Some(|s| - 1)
    else LastIndexOf(c, s[..|s| - 1])
  }

  /** Group 1 of `preg_match('#\.([^\.]*?)$#', $file)`: the text after the
      last dot, up to where `$` matches. */
  function Extension(file: string): (ext: Option<string>)
    ensures ext.Some? ==> forall k :: 0 <= k < |ext.value| ==> ext.value[k] != '.'
    ensures ext.None? <==> forall k :: 0 <= k < |file| ==> file[k] != '.'
  {
    match LastIndexOf('.', file)
    case Some(i) =>
      assert i + 1 <= LineEnd(file);
      var ext := file[i + 1..LineEnd(file)];
      assert forall k :: 0 <= k < |ext| ==> ext[k] == file[i + 1 + k];
      Some(ext)
    case None => None
  }

  /** The evidently intended `_get_mime_type`. */
  function MimeType(file: string): (r: Option<string>)
    ensures r.Some? ==> r.value in MimeTable.Values
  {
    MimeOfExtension(Extension(file))
  }

  /** A name `stem.ext` has extension `ext`, so the intended lookup finds the
      table entry for `ext` while the written one finds nothing. */
  lemma MimeTypeOfName(stem: string, ext: string)
    requires forall k :: 0 <= k < |ext| ==> ext[k] != '.' && ext[k] != '\n'
    ensures Extension(stem + "." + ext) == Some(ext)
    ensures MimeType(stem + "." + ext) == MimeOfExtension(Some(ext))
    ensures MimeTypeAsWritten(stem + "." + ext) == None
  {
    var f := stem + "." + ext;
    var i := LastIndexOf('.', f);
    assert f[|stem|] == '.';
    forall k | |stem| < k < |f| ensures f[k] != '.' {
      assert f[k] == ext[k - |stem| - 1];
    }
    assert i == Some(|stem|);
    assert LineEnd(f) == |f| by {
      if |ext| > 0 {
        assert f[|f| - 1] == ext[|ext| - 1];
      }
    }
    assert f[|stem| + 1..] == ext;
    assert f[|stem| + 1..LineEnd(f)] == ext;
    assert Extension(f) == Some(f[|stem| + 1..LineEnd(f)]);
  }

  /** The defect on a `photo.jpg` upload: a JPEG gets no
      content type. */
  lemma JpegDefect()
    ensures MimeType("photo" + "." + "jpg") == Some("image/jpeg")
    ensures MimeTypeAsWritten("photo" + "." + "jpg") == None
  {
    MimeTypeOfName("photo", "jpg");
  }
}
