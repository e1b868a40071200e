/** The string functions of the storage bucket wrapper (`S3Bucket` in
    s3.js): the key layout and the download URL derived from a signed
    upload URL. The clock reading (`moment`) and the random identifier
    (`uuid.v4`) are parameters. */
module S3Bucket {
  import opened JsStrings

  /** `generateKey()`: `"<year>-<week>/<uuid>"`. */
  function GenerateKey(year: nat, week: nat, uuid: string): (key: string)
    ensures '/' !in uuid ==>
      Split(key, '/') == [NatToString(year) + "-" + NatToString(week), uuid]
  {
    var period := NatToString(year) + "-" + NatToString(week);
    KeySegments(period, uuid);
    period + "/" + uuid
  }

  /** The time bucket of a key never contains `/`, so the key splits into
      exactly that bucket and the identifier. */
  lemma KeySegments(period: string, uuid: string)
    requires forall i :: 0 <= i < |period| ==> period[i] != '/'
    ensures '/' !in uuid ==> Split(period + "/" + uuid, '/') == [period, uuid]
  {
    if '/' !in uuid {
      assert period + "/" + uuid == period + ['/'] + uuid;
      SplitAround(period, uuid, '/');
      SplitWithoutSeparator(period, '/');
      SplitWithoutSeparator(uuid, '/');
    }
  }

  /** `getDownloadURL(signedUrl)`: `signedUrl.split("?", 2)[0]`, the URL
      with its query (the signature) removed. The result is the part of the
      input before its first `?`, or all of it when it has none. */
  function GetDownloadURL(signedUrl: string): (url: string)
    ensures '?' !in url
    ensures url <= signedUrl
    ensures url == signedUrl || (|url| < |signedUrl| && signedUrl[|url|] == '?')
  {
    SplitHead(signedUrl, '?');
    Split(signedUrl, '?')[0]
  }

  /** A URL without a query is its own download URL. */
  lemma DownloadURLWithoutQuery(u: string)
    requires '?' !in u
    ensures GetDownloadURL(u) == u
  {
  }

  /** Stripping the query twice is stripping it once. */
  lemma DownloadURLIdempotent(u: string)
    ensures GetDownloadURL(GetDownloadURL(u)) == GetDownloadURL(u)
  {
    DownloadURLWithoutQuery(GetDownloadURL(u));
  }

  /** The download URL of `base + "?" + query` is `base` whenever `base`
      itself has no query. */
  lemma DownloadURLOfSigned(base: string, query: string)
    requires '?' !in base
    ensures GetDownloadURL(base + "?" + query) == base
  {
    var s := base + "?" + query;
    var u := GetDownloadURL(s);
    assert s[|base|] == '?';
    assert base == s[..|base|];
  }
}
