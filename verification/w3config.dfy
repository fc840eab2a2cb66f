/** The slice of W3 Total Cache's configuration the plugin reads: the CDN
    engine name and, per engine, the credentials, bucket and CNAME list
    (`cdn.<engine>.key`, `.secret`, `.bucket`, `.cname`). */
module W3 {

  datatype CdnSettings = CdnSettings(key: string, secret: string, bucket: string, cname: seq<string>)

  datatype Config = Config(engine: string, s3: CdnSettings, cf: CdnSettings)

  /** The engine is Amazon S3 or CloudFront, the two the plugin serves. */
  predicate UsesS3(c: Config) {
    c.engine == "s3" || c.engine == "cf"
  }

  /** The settings read through `"cdn.{$engine}...."` for the active engine. */
  function Active(c: Config): (a: CdnSettings)
    requires UsesS3(c)
    ensures c.engine == "s3" ==> a == c.s3
    ensures c.engine == "cf" ==> a == c.cf
  {
    if c.engine == "s3" then c.s3 else c.cf
  }
}
