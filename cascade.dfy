/** The deletion cascade (`deleteFiles` in resize.js): when a file record
    is deleted, its primary object and every produced derivative are
    deleted from storage, each on its own, best effort. */
module Cascade {
  import opened Wrappers
  import opened JsStrings
  import opened Assets

  /** `s3Bucket.deleteObject(bucket, key, …)`. `bucket == None` is the
      `undefined` that `path[path.length - 3]` gives for a URL with fewer
      than three `/`-segments. */
  datatype DeleteCall = DeleteCall(bucket: Option<string>, key: string)

  /** `urls`: `[doc.url]`, followed by each spec's `url` when the record
      has a `resizes` list (without one, `doc.resizes.map` throws and the
      `catch` keeps `[doc.url]`). */
  function DeleteTargets(doc: Asset): (urls: seq<UrlField>)
    ensures |urls| >= 1 && urls[0] == doc.url
    ensures doc.resizes.None? ==> urls == [doc.url]
    ensures doc.resizes.Some? ==>
      |urls| == 1 + |doc.resizes.value| &&
      forall i :: 0 <= i < |doc.resizes.value| ==> urls[i + 1] == doc.resizes.value[i].url
  {
    match doc.resizes
    case None => [doc.url]
    case Some(specs) => [doc.url] + seq(|specs|, i requires 0 <= i < |specs| => specs[i].url)
  }

  /** The segment `deleteFiles` looks for before stripping the bucket. */
  const S3Host := ".s3.amazonaws.com"

  /** `path.slice(-2)`. */
  function LastTwo(path: seq<string>): seq<string>
  {
    if |path| >= 2 then path[|path| - 2..] else path
  }

  /** The body of the `forEach` callback for one URL: the call it issues,
      or `None` when it throws before issuing one. An absent or `null` URL
      throws at `url.split`; an empty string does not. The bucket is
      `path[path.length - 3]`, `undefined` for fewer than three segments.
      `path.indexOf(".s3.amazonaws.com")` compares whole segments, and
      `bucket.replace(…)` discards its result, so a bucket that exists is
      used as it stands; the branch only matters when the bucket is
      `undefined`, where `replace` throws. The key is `path.slice(-2)`
      joined by `/`. */
  function CallFor(url: UrlField): (r: Option<DeleteCall>)
    ensures !url.UrlText? ==> r.None?
  {
    match url
    case UrlText(u) =>
      var path := Split(u, '/');
      if |path| >= 3 then Some(DeleteCall(Some(path[|path| - 3]), Join(LastTwo(path), '/')))
      // `bucket` is `undefined`: `bucket.replace` throws when the host segment is present
      else if S3Host in path then None
      else Some(DeleteCall(None, Join(LastTwo(path), '/')))
    case _ => None
  }

  /** The calls issued for `urls`, in order: one for each URL whose
      callback issues one, and no other. */
  function CallsFor(urls: seq<UrlField>): (calls: seq<DeleteCall>)
    ensures |calls| <= |urls|
    decreases |urls|
  {
    if |urls| == 0 then []
    else
      var n := |urls| - 1;
      match CallFor(urls[n])
      case None => CallsFor(urls[..n])
      case Some(call) => CallsFor(urls[..n]) + [call]
  }

  /** `deleteFiles(doc, s3Bucket)`: the delete calls it issues. */
  method DeleteFiles(doc: Asset) returns (calls: seq<DeleteCall>)
    ensures calls == CallsFor(DeleteTargets(doc))
  {
    var urls := [doc.url];
    if doc.resizes.Some? {
      var specs := doc.resizes.value;
      urls := urls + seq(|specs|, i requires 0 <= i < |specs| => specs[i].url);
    }
    assert urls == DeleteTargets(doc);
    calls := [];
    var i := 0;
    while i < |urls|
      invariant 0 <= i <= |urls|
      invariant calls == CallsFor(urls[..i])
    {
      assert urls[..i + 1][..i] == urls[..i];
      var call := CallFor(urls[i]);
      if call.Some? {
        calls := calls + [call.value];
      }
      i := i + 1;
    }
    assert urls[..|urls|] == urls;
  }
}

/** What the deletion cascade promises. */
module CascadeProperties {
  import opened Wrappers
  import opened JsStrings
  import opened Assets
  import opened S3Bucket
  import opened Cascade

  /** The call for a string URL: with three or more `/`-segments, the
      bucket is the third-to-last segment as it stands and the key the
      last two joined by `/`; with fewer, the bucket is `undefined`, the
      key is the whole URL, and nothing is issued only when a segment is
      exactly `.s3.amazonaws.com`. */
  lemma CallForShape(u: string)
    ensures var path := Split(u, '/');
      var n := |path|;
      (n >= 3 ==> CallFor(UrlText(u)) == Some(DeleteCall(Some(path[n - 3]), path[n - 2] + "/" + path[n - 1]))) &&
      (n < 3 ==> (CallFor(UrlText(u)).None? <==> S3Host in path) &&
                 (CallFor(UrlText(u)).Some? ==> CallFor(UrlText(u)) == Some(DeleteCall(None, u))))
  {
    var path := Split(u, '/');
    var n := |path|;
    JoinSplit(u, '/');
    if n < 3 {
      assert LastTwo(path) == path;
      assert Join(LastTwo(path), '/') == u;
    }
    if n >= 3 {
      var last := LastTwo(path);
      assert last == [path[n - 2], path[n - 1]];
      assert last[1..] == [path[n - 1]];
      assert Join(last, '/') == path[n - 2] + "/" + path[n - 1];
    }
  }

  /** Every call issued comes from one of the URLs, and every URL whose
      callback issues a call has that call issued. */
  lemma {:induction false} CallsForMembership(urls: seq<UrlField>)
    ensures forall c :: c in CallsFor(urls) ==> exists i :: 0 <= i < |urls| && CallFor(urls[i]) == Some(c)
    ensures forall i :: 0 <= i < |urls| && CallFor(urls[i]).Some? ==> CallFor(urls[i]).value in CallsFor(urls)
    decreases |urls|
  {
    if |urls| > 0 {
      var n := |urls| - 1;
      assert forall i :: 0 <= i < n ==> urls[..n][i] == urls[i];
      CallsForMembership(urls[..n]);
    }
  }

  /** A URL the cascade can always parse: a string with at least three
      `/`-segments, when it is a string at all. */
  predicate Parsable(url: UrlField)
  {
    url.UrlText? ==> |Split(url.text, '/')| >= 3
  }

  /** The number of string URLs in `urls`. */
  function Present(urls: seq<UrlField>): nat
    decreases |urls|
  {
    if |urls| == 0 then 0
    else Present(urls[..|urls| - 1]) + (if urls[|urls| - 1].UrlText? then 1 else 0)
  }

  /** One call per parsable string URL, none for an absent or `null` one. */
  lemma {:induction false} CallsCountPresent(urls: seq<UrlField>)
    requires forall i :: 0 <= i < |urls| ==> Parsable(urls[i])
    ensures |CallsFor(urls)| == Present(urls)
    decreases |urls|
  {
    if |urls| > 0 {
      var n := |urls| - 1;
      assert forall i :: 0 <= i < n ==> urls[..n][i] == urls[i];
      CallsCountPresent(urls[..n]);
    }
  }

  lemma {:induction false} PresentAppend(a: seq<UrlField>, b: seq<UrlField>)
    ensures Present(a + b) == Present(a) + Present(b)
    decreases |b|
  {
    if |b| == 0 {
      assert a + b == a;
    } else {
      var n := |b| - 1;
      assert (a + b)[..|a + b| - 1] == a + b[..n];
      PresentAppend(a, b[..n]);
    }
  }

  /** The number of specs whose `url` is a string. */
  function ResolvedCount(specs: seq<DerivativeSpec>): nat
    decreases |specs|
  {
    if |specs| == 0 then 0
    else ResolvedCount(specs[..|specs| - 1]) + (if specs[|specs| - 1].url.UrlText? then 1 else 0)
  }

  lemma {:induction false} PresentSpecUrls(specs: seq<DerivativeSpec>)
    ensures Present(seq(|specs|, i requires 0 <= i < |specs| => specs[i].url)) == ResolvedCount(specs)
    decreases |specs|
  {
    if |specs| > 0 {
      var n := |specs| - 1;
      var urls := seq(|specs|, i requires 0 <= i < |specs| => specs[i].url);
      assert urls[..n] == seq(n, i requires 0 <= i < n => specs[..n][i].url);
      PresentSpecUrls(specs[..n]);
    }
  }

  /** Cascade completeness: deleting a record whose URLs are all parsable
      issues one delete for the primary object and one per derivative whose
      URL is a string; a spec without one, or with a `null` one, issues none. */
  lemma CascadeCount(doc: Asset)
    requires doc.url.UrlText? && Parsable(doc.url)
    requires doc.resizes.Some? ==>
      forall i :: 0 <= i < |doc.resizes.value| ==> Parsable(doc.resizes.value[i].url)
    ensures |CallsFor(DeleteTargets(doc))|
         == 1 + (if doc.resizes.Some? then ResolvedCount(doc.resizes.value) else 0)
  {
    var urls := DeleteTargets(doc);
    CallsCountPresent(urls);
    assert Present([doc.url]) == 1 by {
      assert [doc.url][..0] == [];
    }
    if doc.resizes.Some? {
      var specs := doc.resizes.value;
      var rest := seq(|specs|, i requires 0 <= i < |specs| => specs[i].url);
      assert urls == [doc.url] + rest;
      PresentAppend([doc.url], rest);
      PresentSpecUrls(specs);
    }
  }

  /** A URL laid out as `<origin>/<bucket>/<period>/<id>`, where the last
      three parts have no `/`, is deleted from `bucket` under the key
      `<period>/<id>`. */
  lemma LayoutRecovered(origin: string, bucket: string, period: string, id: string)
    requires '/' !in bucket && '/' !in period && '/' !in id
    ensures CallFor(UrlText(origin + "/" + bucket + "/" + period + "/" + id))
         == Some(DeleteCall(Some(bucket), period + "/" + id))
  {
    var u := origin + "/" + bucket + "/" + period + "/" + id;
    var path := Split(origin, '/') + [bucket] + [period] + [id];
    assert Split(u, '/') == path by {
      assert u == origin + ['/'] + (bucket + ['/'] + (period + ['/'] + id));
      SplitAround(origin, bucket + ['/'] + (period + ['/'] + id), '/');
      SplitAround(bucket, period + ['/'] + id, '/');
      SplitAround(period, id, '/');
      SplitWithoutSeparator(bucket, '/');
      SplitWithoutSeparator(period, '/');
      SplitWithoutSeparator(id, '/');
    }
    var n := |path|;
    assert path[n - 3] == bucket && path[n - 2] == period && path[n - 1] == id;
    CallForShape(u);
  }

  /** The URL of a stored object, `<origin>/<bucket>/<year>-<week>/<uuid>`,
      is deleted from that bucket under exactly the key `generateKey`
      produced for it. */
  lemma GeneratedKeyRecovered(origin: string, bucket: string, year: nat, week: nat, uuid: string)
    requires '/' !in bucket && '/' !in uuid
    ensures CallFor(UrlText(origin + "/" + bucket + "/" + GenerateKey(year, week, uuid)))
         == Some(DeleteCall(Some(bucket), GenerateKey(year, week, uuid)))
  {
    var period := NatToString(year) + "-" + NatToString(week);
    assert '/' !in period;
    assert GenerateKey(year, week, uuid) == period + "/" + uuid;
    LayoutRecovered(origin, bucket, period, uuid);
    assert origin + "/" + bucket + "/" + (period + "/" + uuid)
        == origin + "/" + bucket + "/" + period + "/" + uuid;
  }

  /** End to end: a derivative stored under a generated key at a signed
      URL `<origin>/<bucket>/<key>?<signature>` is recorded by the resize
      pass with the query stripped, and the cascade later deletes it from
      `bucket` under exactly `key`. */
  lemma SignedUploadRecovered(origin: string, bucket: string, year: nat, week: nat, uuid: string, signature: string)
    requires '/' !in bucket && '/' !in uuid
    requires '?' !in origin && '?' !in bucket && '?' !in uuid
    ensures var key := GenerateKey(year, week, uuid);
      CallFor(UrlText(GetDownloadURL(origin + "/" + bucket + "/" + key + "?" + signature)))
        == Some(DeleteCall(Some(bucket), key))
  {
    var key := GenerateKey(year, week, uuid);
    var period := NatToString(year) + "-" + NatToString(week);
    assert key == period + "/" + uuid;
    assert '?' !in period;
    var base := origin + "/" + bucket + "/" + key;
    assert '?' !in base;
    DownloadURLOfSigned(base, signature);
    GeneratedKeyRecovered(origin, bucket, year, week, uuid);
  }

  /** Appending a URL appends its call, if it issues one. */
  lemma CallsForAppend(urls: seq<UrlField>, url: UrlField)
    ensures CallsFor(urls + [url])
         == CallsFor(urls) + (if CallFor(url).Some? then [CallFor(url).value] else [])
  {
    assert (urls + [url])[..|urls|] == urls;
  }

  /** A `null` URL anywhere in the list issues nothing, and the URLs
      after it are still processed, in order. */
  lemma {:induction false} NullUrlSkipped(before: seq<UrlField>, after: seq<UrlField>)
    ensures CallsFor(before + [NullUrl] + after) == CallsFor(before + after)
    decreases |after|
  {
    if |after| == 0 {
      assert before + [NullUrl] + after == before + [NullUrl];
      assert before + after == before;
      CallsForAppend(before, NullUrl);
    } else {
      var init, last := after[..|after| - 1], after[|after| - 1];
      assert before + [NullUrl] + after == (before + [NullUrl] + init) + [last];
      assert before + after == (before + init) + [last];
      NullUrlSkipped(before, init);
      CallsForAppend(before + [NullUrl] + init, last);
      CallsForAppend(before + init, last);
    }
  }

  /** A record whose second derivative has a `null` URL is deleted as
      its primary object and first derivative alone. */
  lemma NullDerivativeSkipped(doc: Asset, first: DerivativeSpec, second: DerivativeSpec)
    requires second.url == NullUrl && doc.resizes == Some([first, second])
    ensures CallsFor(DeleteTargets(doc)) == CallsFor([doc.url, first.url])
  {
    assert DeleteTargets(doc) == [doc.url, first.url] + [NullUrl] + [] by {
      var targets := DeleteTargets(doc);
      assert |targets| == 3 && targets[0] == doc.url && targets[1] == first.url && targets[2] == NullUrl;
    }
    NullUrlSkipped([doc.url, first.url], []);
    assert [doc.url, first.url] + [] == [doc.url, first.url];
  }

  /** Two URLs that each issue a call issue both, in order. */
  lemma CallsForPair(u1: UrlField, u2: UrlField, c1: DeleteCall, c2: DeleteCall)
    requires CallFor(u1) == Some(c1) && CallFor(u2) == Some(c2)
    ensures CallsFor([u1, u2]) == [c1, c2]
  {
    CallsForAppend([], u1);
    assert [] + [u1] == [u1];
    CallsForAppend([u1], u2);
    assert [u1] + [u2] == [u1, u2];
  }

  /** Two URLs laid out under the same bucket and period are deleted in
      order, each under its own key. */
  lemma LayoutPairRecovered(origin: string, bucket: string, period: string, id1: string, id2: string)
    requires '/' !in bucket && '/' !in period && '/' !in id1 && '/' !in id2
    ensures CallsFor([UrlText(origin + "/" + bucket + "/" + period + "/" + id1),
                      UrlText(origin + "/" + bucket + "/" + period + "/" + id2)])
         == [DeleteCall(Some(bucket), period + "/" + id1), DeleteCall(Some(bucket), period + "/" + id2)]
  {
    LayoutRecovered(origin, bucket, period, id1);
    LayoutRecovered(origin, bucket, period, id2);
    CallsForPair(
      UrlText(origin + "/" + bucket + "/" + period + "/" + id1),
      UrlText(origin + "/" + bucket + "/" + period + "/" + id2),
      DeleteCall(Some(bucket), period + "/" + id1), DeleteCall(Some(bucket), period + "/" + id2));
  }

  /** A record stored at `<origin>/<bucket>/<period>/<id1>`, with one
      derivative at `<origin>/<bucket>/<period>/<id2>` and one whose `url`
      is `null`, is deleted as exactly two objects of `bucket`, the
      primary first. */
  lemma RecordDeleted(
    doc: Asset, first: DerivativeSpec, second: DerivativeSpec,
    origin: string, bucket: string, period: string, id1: string, id2: string)
    requires '/' !in bucket && '/' !in period && '/' !in id1 && '/' !in id2
    requires doc.url == UrlText(origin + "/" + bucket + "/" + period + "/" + id1)
    requires first.url == UrlText(origin + "/" + bucket + "/" + period + "/" + id2)
    requires second.url == NullUrl && doc.resizes == Some([first, second])
    ensures CallsFor(DeleteTargets(doc))
         == [DeleteCall(Some(bucket), period + "/" + id1), DeleteCall(Some(bucket), period + "/" + id2)]
  {
    NullDerivativeSkipped(doc, first, second);
    LayoutPairRecovered(origin, bucket, period, id1, id2);
  }

  /** The deletion scenario: a record stored at `https://store/b/2024-10/k1`
      with one derivative at `https://store/b/2024-10/k2` and one whose
      `url` is `null` is deleted as exactly two objects of bucket `b`. */
  lemma DeleteScenario()
    ensures var doc := Asset("f1", UrlText("https://store/b/2024-10/k1"),
        Some([DerivativeSpec(Dimensions(100, 100), UrlText("https://store/b/2024-10/k2")),
              DerivativeSpec(Dimensions(50, 50), NullUrl)]));
      CallsFor(DeleteTargets(doc))
        == [DeleteCall(Some("b"), "2024-10/k1"), DeleteCall(Some("b"), "2024-10/k2")]
  {
    assert "https://store/b/2024-10/k1" == "https://store" + "/" + "b" + "/" + "2024-10" + "/" + "k1";
    assert "https://store/b/2024-10/k2" == "https://store" + "/" + "b" + "/" + "2024-10" + "/" + "k2";
    assert "2024-10/k1" == "2024-10" + "/" + "k1";
    assert "2024-10/k2" == "2024-10" + "/" + "k2";
    var first := DerivativeSpec(Dimensions(100, 100), UrlText("https://store/b/2024-10/k2"));
    var second := DerivativeSpec(Dimensions(50, 50), NullUrl);
    RecordDeleted(
      Asset("f1", UrlText("https://store/b/2024-10/k1"), Some([first, second])),
      first, second, "https://store", "b", "2024-10", "k1", "k2");
  }
}
