/** `CDNOnlyMedia`: rewriting attachment URLs onto the CDN domain, and the
    filters that send WordPress's filesystem calls to `WP_Filesystem_S3`.
    The `home` option and W3 Total Cache's configuration are parameters. */
module CdnOnlyMedia {
  import opened Wrappers
  import opened Text
  import opened W3
  import Paths
  import S3Filesystem

  /** The marker `modify_url` keeps the URL from: note the leading slash. */
  const UrlMarker: string := "/wp-content"

  /** The plugin's class file, relative to `WP_PLUGIN_DIR`. */
  const ClassFile: string := "/cdn-only-media/class-wp-filesystem-s3.php"

  /** `get_domain`: the first CNAME over plain http, else the bucket's
      virtual-host URL over https, else the home URL. */
  function GetDomain(cfg: Option<Config>, home: string): (d: string)
    ensures cfg.None? || !UsesS3(cfg.value) ==> d == home
    ensures cfg.Some? && UsesS3(cfg.value) ==>
      if |Active(cfg.value).cname| > 0 then d == "http://" + Active(cfg.value).cname[0]
      else d == "https://" + Active(cfg.value).bucket + ".s3.amazonaws.com"
  {
    if cfg.Some? && UsesS3(cfg.value) then
      var cnames := Active(cfg.value).cname;
      if |cnames| > 0 then "http://" + cnames[0]
      else "https://" + Active(cfg.value).bucket + ".s3.amazonaws.com"
    else
      home
  }

  /** `modify_url($url)`: when the domain differs from home, the domain
      followed by the URL's tail from `/wp-content`; an unmatched tail is an
      unset `$matches[1]`, which concatenates as the empty string. */
  function ModifyUrl(cfg: Option<Config>, home: string, url: string): (r: string)
    ensures home == GetDomain(cfg, home) ==> r == url
    ensures home != GetDomain(cfg, home) ==>
      IsPrefix(GetDomain(cfg, home), r) &&
      (r == GetDomain(cfg, home) || IsPrefix(UrlMarker, r[|GetDomain(cfg, home)|..]))
  {
    var s3Url := GetDomain(cfg, home);
    var urlPath := TailGroup(UrlMarker, url).GetOr("");
    if home != s3Url then
      assert (GetDomain(cfg, home) + urlPath)[|GetDomain(cfg, home)|..] == urlPath;
      GetDomain(cfg, home) + urlPath
    else url
  }

  /** `preg_replace('#^' . preg_quote($from, '#') . '#', $to, $subject)`:
      the quoted pattern is the literal `$from` anchored at the start. */
  function ReplacePrefix(from: string, to: string, subject: string): (r: string)
    ensures IsPrefix(from, subject) ==> IsPrefix(to, r) && r[|to|..] == subject[|from|..]
    ensures !IsPrefix(from, subject) ==> r == subject
  {
    if IsPrefix(from, subject) then to + subject[|from|..] else subject
  }

  /** `replace_domain($url)`: swaps a leading home URL for the domain. */
  function ReplaceDomain(cfg: Option<Config>, home: string, url: string): (r: string)
    ensures home == GetDomain(cfg, home) || !IsPrefix(home, url) ==> r == url
    ensures home != GetDomain(cfg, home) && IsPrefix(home, url) ==> r == GetDomain(cfg, home) + url[|home|..]
  {
    var s3Url := GetDomain(cfg, home);
    if home != s3Url then ReplacePrefix(home, s3Url, url) else url
  }

  /** `using_s3`; the source reads the configuration without checking that
      it exists, so this takes one. */
  function UsingS3(cfg: Config): (r: bool)
    ensures r <==> cfg.engine in {"s3", "cf"}
  {
    UsesS3(cfg)
  }

  /** The `filesystem_method` filter: `s3` while W3 Total Cache serves S3 or
      CloudFront, else the method WordPress chose. */
  function GetFilesystemMethod(cfg: Config, fsMethod: string): (r: string)
    ensures r == "s3" <==> UsesS3(cfg) || fsMethod == "s3"
    ensures r != "s3" ==> r == fsMethod
  {
    if UsingS3(cfg) then "s3" else fsMethod
  }

  /** The `filesystem_method_file` filter: the plugin's class file for the
      `s3` method, else the file WordPress chose. */
  function GetFilesystemMethodFile(pluginDir: string, file: string, fsMethod: string): (r: string)
    ensures fsMethod == "s3" ==> r == pluginDir + ClassFile
    ensures fsMethod != "s3" ==> r == file
  {
    if fsMethod == "s3" then pluginDir + ClassFile else file
  }

  /** On a single-line URL the rewrite keeps the tail from the first
      `/wp-content`. */
  lemma ModifyUrlFromMarker(cfg: Option<Config>, home: string, url: string, i: nat)
    requires home != GetDomain(cfg, home) && NoNewline(url)
    requires OccursAt(UrlMarker, url, i)
    requires forall j :: 0 <= j < i ==> !OccursAt(UrlMarker, url, j)
    ensures ModifyUrl(cfg, home, url) == GetDomain(cfg, home) + url[i..]
  {
    TailGroupOfLine(UrlMarker, url, i);
  }

  /** On a single-line URL without `/wp-content` the rewrite is the bare
      domain. */
  lemma ModifyUrlWithoutMarker(cfg: Option<Config>, home: string, url: string)
    requires home != GetDomain(cfg, home) && NoNewline(url)
    requires forall j :: !OccursAt(UrlMarker, url, j)
    ensures ModifyUrl(cfg, home, url) == GetDomain(cfg, home)
  {
    TailGroupAbsent(UrlMarker, url);
  }

  /** `/wp-content` at `j` is a slash followed by `wp-content` at `j + 1`. */
  lemma UrlMarkerIsSlashContentDir(url: string, j: int)
    requires OccursAt(UrlMarker, url, j)
    ensures url[j] == '/' && OccursAt(Paths.ContentDir, url, j + 1)
  {
    assert url[j] == url[j..j + |UrlMarker|][0];
    assert url[j + 1..j + 1 + |Paths.ContentDir|] == url[j..j + |UrlMarker|][1..];
  }

  /** No `/wp-content` starts before the first `wp-content` does. */
  lemma NoEarlierUrlMarker(url: string, i: nat)
    requires forall j :: 0 <= j <= i ==> !OccursAt(Paths.ContentDir, url, j)
    ensures forall j :: 0 <= j < i ==> !OccursAt(UrlMarker, url, j)
  {
    forall j | 0 <= j < i ensures !OccursAt(UrlMarker, url, j) {
      if OccursAt(UrlMarker, url, j) {
        UrlMarkerIsSlashContentDir(url, j);
      }
    }
  }

  /** When the URL's first `wp-content` follows a slash, the tail
      `modify_url` keeps is a slash followed by the path's object key. */
  lemma UrlTailIsSlashKey(url: string, i: nat)
    requires NoNewline(url)
    requires OccursAt(UrlMarker, url, i)
    requires forall j :: 0 <= j <= i ==> !OccursAt(Paths.ContentDir, url, j)
    ensures TailGroup(UrlMarker, url) == Some("/" + Paths.S3Uri(url))
  {
    UrlMarkerIsSlashContentDir(url, i);
    NoEarlierUrlMarker(url, i);
    TailGroupOfLine(UrlMarker, url, i);
    assert TailGroup(UrlMarker, url) == Some(url[i..]);
    Paths.S3UriFromMarker(url, i + 1);
    SlashThenRest(url, i);
  }

  /** A suffix that starts with a slash is that slash and the rest. */
  lemma SlashThenRest(url: string, i: nat)
    requires i < |url| && url[i] == '/'
    ensures url[i..] == "/" + url[i + 1..]
  {
    assert url[i..] == [url[i]] + url[i + 1..];
  }

  /** When the URL's first `wp-content` follows a slash, the rewritten URL
      is the domain, a slash, and the very object key `WP_Filesystem_S3`
      stores that path under. */
  lemma ModifyUrlAddressesObjectKey(cfg: Option<Config>, home: string, url: string, i: nat)
    requires home != GetDomain(cfg, home) && NoNewline(url)
    requires OccursAt(UrlMarker, url, i)
    requires forall j :: 0 <= j <= i ==> !OccursAt(Paths.ContentDir, url, j)
    ensures ModifyUrl(cfg, home, url) == GetDomain(cfg, home) + "/" + Paths.S3Uri(url)
  {
    UrlTailIsSlashKey(url, i);
    var d, k := GetDomain(cfg, home), Paths.S3Uri(url);
    ModifyUrlOfTail(cfg, home, url, "/" + k);
    assert d + ("/" + k) == d + "/" + k;
  }

  /** With the domain in effect, the rewrite is the domain and the tail. */
  lemma ModifyUrlOfTail(cfg: Option<Config>, home: string, url: string, tail: string)
    requires home != GetDomain(cfg, home) && TailGroup(UrlMarker, url) == Some(tail)
    ensures ModifyUrl(cfg, home, url) == GetDomain(cfg, home) + tail
  {
  }

  /** Replacing the domain back by home undoes `replace_domain`. */
  lemma ReplaceDomainReversible(cfg: Option<Config>, home: string, url: string)
    requires home != GetDomain(cfg, home) && IsPrefix(home, url)
    ensures ReplacePrefix(GetDomain(cfg, home), home, ReplaceDomain(cfg, home, url)) == url
  {
    var d := GetDomain(cfg, home);
    var r := ReplaceDomain(cfg, home, url);
    assert IsPrefix(d, r);
    assert home + r[|d|..] == url;
  }

  /** Without a CNAME the domain is the virtual-host URL of the bucket the
      adapter reads and writes, the one `dirlist` reports. */
  lemma DomainIsAdapterBucket(fs: S3Filesystem.Fs, home: string)
    requires S3Filesystem.Engaged(fs) && |Active(fs.config.value).cname| == 0
    ensures GetDomain(fs.config, home) == "https://" + S3Filesystem.Dirlist(fs, "/").value + ".s3.amazonaws.com"
  {
  }

  /** The dispatch filters route WordPress to this plugin's class file
      exactly when the adapter can connect with the same configuration (or
      WordPress already chose `s3`). */
  lemma DispatchAgreesWithConnect(fs: S3Filesystem.Fs, pluginDir: string, file: string, fsMethod: string)
    requires fs.config.Some?
    ensures var chosen := GetFilesystemMethod(fs.config.value, fsMethod);
      && (chosen == "s3" <==> S3Filesystem.Connect(fs).reply || fsMethod == "s3")
      && (S3Filesystem.Connect(fs).reply ==> GetFilesystemMethodFile(pluginDir, file, chosen) == pluginDir + ClassFile)
      && (!S3Filesystem.Connect(fs).reply && fsMethod != "s3" ==> GetFilesystemMethodFile(pluginDir, file, chosen) == file)
  {
  }
}
