/** Translation of a local WordPress path into the S3 object key. */
module Paths {
  import opened Wrappers
  import opened Text

  /** The asset-tree marker the key starts at. */
  const ContentDir: string := "wp-content"

  /** `_get_s3_uri`: the group of `(wp-content.*$)` when it matched and is
      truthy, else the path itself. */
  function S3Uri(file: string): (key: string)
    ensures key == file || IsPrefix(ContentDir, key)
  {
    match TailGroup(ContentDir, file)
    case Some(g) => if Truthy(g) then g else file
    case None => file
  }

  lemma ContentDirIsMarker()
    ensures Marker(ContentDir)
  {
  }

  /** A path holding the marker maps to its suffix from the first marker. */
  lemma S3UriFromMarker(file: string, i: nat)
    requires NoNewline(file)
    requires OccursAt(ContentDir, file, i)
    requires forall j :: 0 <= j < i ==> !OccursAt(ContentDir, file, j)
    ensures S3Uri(file) == file[i..]
  {
    TailGroupOfLine(ContentDir, file, i);
    assert file[i..][..|ContentDir|] == ContentDir;
  }

  /** A path without the marker is used verbatim as the key. */
  lemma S3UriWithoutMarker(file: string)
    requires NoNewline(file)
    requires forall j :: !OccursAt(ContentDir, file, j)
    ensures S3Uri(file) == file
  {
    TailGroupAbsent(ContentDir, file);
  }

  /** The key is always a tail of the path (of the path without its final
      newline, when it has one and the marker matched). */
  lemma S3UriIsSuffix(file: string)
    ensures S3Uri(file) == file || IsSuffix(S3Uri(file), file[..LineEnd(file)])
    ensures NoNewline(file) ==> IsSuffix(S3Uri(file), file)
  {
    if TailGroup(ContentDir, file).Some? {
      TailGroupIsSuffix(ContentDir, file);
    }
    if S3Uri(file) == file {
      assert file[|file| - |file|..] == file;
    }
  }

  /** Translating a key again leaves it unchanged. */
  lemma S3UriIdempotent(file: string)
    ensures S3Uri(S3Uri(file)) == S3Uri(file)
  {
    var g := TailGroup(ContentDir, file);
    if g.Some? {
      ContentDirIsMarker();
      TailGroupIdempotent(ContentDir, file);
      assert Truthy(g.value) by {
        assert g.value[0] == 'w';
      }
    }
  }

  lemma NoNewlineJoin(a: string, b: string)
    requires NoNewline(a) && NoNewline(b)
    ensures NoNewline(a + b)
  {
    forall k | 0 <= k < |a + b| ensures (a + b)[k] != '\n' {
      if k >= |a| {
        assert (a + b)[k] == b[k - |a|];
      }
    }
  }

  /** A path `root + "wp-content" + rest` whose root holds no earlier marker
      maps to `"wp-content" + rest`. */
  lemma S3UriBelowRoot(root: string, rest: string)
    requires NoNewline(root) && NoNewline(rest)
    requires forall j :: 0 <= j < |root| ==> !OccursAt(ContentDir, root + ContentDir + rest, j)
    ensures S3Uri(root + ContentDir + rest) == ContentDir + rest
  {
    var p := root + ContentDir + rest;
    NoNewlineJoin(root, ContentDir);
    NoNewlineJoin(root + ContentDir, rest);
    assert p[|root|..|root| + |ContentDir|] == ContentDir;
    S3UriFromMarker(p, |root|);
    assert p[|root|..] == ContentDir + rest;
  }

  /** A root with no `p` after its first character cannot hold a marker
      that starts inside it. */
  lemma NoMarkerInRoot(root: string, rest: string)
    requires forall k :: 1 <= k < |root| ==> root[k] != 'p'
    ensures forall j :: 0 <= j < |root| ==> !OccursAt(ContentDir, root + ContentDir + rest, j)
  {
    var p := root + ContentDir + rest;
    forall j | 0 <= j < |root| ensures !OccursAt(ContentDir, p, j) {
      if j + 1 < |root| {
        assert p[j + 1] == root[j + 1];
      } else {
        assert p[j + 1] == ContentDir[0];
      }
      if j + |ContentDir| <= |p| {
        assert p[j..j + |ContentDir|][1] == p[j + 1] != ContentDir[1];
      }
    }
  }
}
