/** Translation between Unix file modes and the three S3 canned ACLs the
    adapter uses. */
module Perms {
  import opened Wrappers

  /** The canned ACLs `S3::ACL_PRIVATE`, `S3::ACL_PUBLIC_READ` and
      `S3::ACL_PUBLIC_READ_WRITE`. */
  datatype Acl = Private | PublicRead | PublicReadWrite {

    /** The header value the S3 client sends. */
    function Name(): (n: string)
      ensures |n| > 0
    {
      match this
      case Private => "private"
      case PublicRead => "public-read"
      case PublicReadWrite => "public-read-write"
    }
  }

  /** `_get_s3_perms($mode = false)`: `None` is the omitted argument (PHP
      `false`). The tests use PHP truthiness of `$mode` and of `$mode % 10`
      / `$mode % 100` on the decimal value. PHP's `%` truncates toward zero
      while Dafny's is Euclidean, but the two agree on whether the remainder
      is zero, which is all the tests look at. */
  function S3Perms(mode: Option<int>): (acl: Acl)
    ensures mode.None? ==> acl == PublicRead
    ensures acl == Private <==> mode.Some? && mode.value != 0 && mode.value % 100 == 0
    ensures acl == PublicReadWrite <==> mode.Some? && mode.value % 10 != 0
  {
    var m := mode.GetOr(0);
    if m != 0 && m % 100 == 0 then Private
    else if m != 0 && m % 10 == 0 then PublicRead
    else if m != 0 && m % 10 != 0 then PublicReadWrite
    else PublicRead
  }

  /** `_get_file_perms`: the mode reported for an ACL, written as decimal
      digits. */
  function FilePerms(acl: Acl): (mode: int)
    ensures acl == Private <==> mode == 600
    ensures acl == PublicRead <==> mode == 644
    ensures acl == PublicReadWrite <==> mode == 666
    ensures acl != PublicRead ==> S3Perms(Some(mode)) == acl
  {
    match acl
    case Private => 600
    case PublicRead => 644
    case PublicReadWrite => 666
  }

  /** `getchmod`: ignores the file and reports the mode of a public-read
      object. */
  function GetChmod(file: string): (mode: int)
    ensures mode == 644
    ensures S3Perms(Some(mode)) == PublicReadWrite
  {
    FilePerms(PublicRead)
  }

  /** Going mode -> ACL -> mode lands on one of the three reported modes, and
      only 600 and 666 come back as themselves. */
  lemma ModeRoundTrip(mode: int)
    ensures FilePerms(S3Perms(Some(mode))) == mode <==> mode == 600 || mode == 666
  {
  }

  /** Going ACL -> mode -> ACL is the identity except on public-read, which
      comes back as public-read-write. */
  lemma AclRoundTrip(acl: Acl)
    ensures S3Perms(Some(FilePerms(acl))) == acl <==> acl != PublicRead
    ensures S3Perms(Some(FilePerms(PublicRead))) == PublicReadWrite
  {
  }

  /** WordPress passes octal literals; the decimal tests then read the
      decimal digits of the value: 0644 (420) and 0 give public-read, 0600
      (384) gives public-read-write, decimal 600 gives private. */
  lemma OctalModes()
    ensures S3Perms(Some(0x1A4)) == PublicRead        // 0644
    ensures S3Perms(Some(0x180)) == PublicReadWrite   // 0600
    ensures S3Perms(Some(600)) == Private
    ensures S3Perms(Some(0)) == PublicRead
    ensures S3Perms(None) == PublicRead
  {
  }

  /** The write bit of a permission digit. */
  predicate WriteBit(digit: int) {
    (digit / 2) % 2 == 1
  }

  /** The classification with its last branch split on the write bit of the
      units ("others") digit: a unit digit without write access gives
      public-read, so that 644, the mode `_get_file_perms` reports for
      public-read, maps back to public-read. */
  function S3PermsIntended(mode: Option<int>): (acl: Acl)
    ensures acl == PublicReadWrite <==> mode.Some? && mode.value % 10 != 0 && WriteBit(mode.value % 10)
    ensures acl == Private <==> S3Perms(mode) == Private
  {
    var m := mode.GetOr(0);
    if m != 0 && m % 100 == 0 then Private
    else if m != 0 && m % 10 == 0 then PublicRead
    else if m != 0 && WriteBit(m % 10) then PublicReadWrite
    else PublicRead
  }

  /** The intended classification inverts `_get_file_perms` on every ACL,
      and differs from the written one exactly on modes whose units digit is
      non-zero without the write bit. */
  lemma IntendedInvertsFilePerms(acl: Acl, mode: int)
    ensures S3PermsIntended(Some(FilePerms(acl))) == acl
    ensures S3PermsIntended(Some(mode)) != S3Perms(Some(mode)) <==> mode % 10 != 0 && !WriteBit(mode % 10)
  {
  }
}
