/** The resize pass (`resizeImage` in resize.js). For a file whose
    `resizes` list has a spec without a URL, it fetches the origin image
    once, produces every missing derivative, and then writes
    `{dimensions, resizes}` back in one update, or nothing at all.

    The image fetch, the crop-resize, the upload signing and the storage
    write are external; their outcomes are parameters:
    - `fetched`: whether `gm(request(doc.url)).toBuffer` delivered the
      origin;
    - `outcomes[i]`: what became of the derivative job for `resizes[i]`
      (the signed upload URL it obtained, or a failure in signing,
      transforming or uploading); it is consulted only for specs that need
      a derivative;
    - `size`: the origin's intrinsic size from `gm(origin).size`, or `None`
      when that read fails. */
module Derivatives {
  import opened Wrappers
  import opened Assets
  import opened S3Bucket

  datatype DerivativeOutcome = Uploaded(signedUrl: string) | Failed

  /** `updateObject(doc.id, {dimensions, resizes})`. */
  datatype Update = Update(id: string, dimensions: Dimensions, resizes: seq<DerivativeSpec>)

  /** What one pass does: whether it started fetching the origin, for which indices
      of `resizes` it started a derivative job (a fresh key, a signed
      upload URL, a crop-resize and a storage write), and the one metadata
      update it issued, if any. */
  datatype PassEffects = PassEffects(fetchStarted: bool, jobs: seq<nat>, update: Option<Update>)

  /** The body of the `map` callback: a spec with a truthy URL is returned
      as it is; any other spec gets the download URL of its signed upload
      URL, or fails the pass. */
  function Derive(spec: DerivativeSpec, outcome: DerivativeOutcome): (r: Option<DerivativeSpec>)
    ensures r.None? <==> !HasUrl(spec) && outcome.Failed?
    ensures HasUrl(spec) ==> r == Some(spec)
    ensures r.Some? ==> r.value.dimensions == spec.dimensions && HasUrlKey(r.value)
    ensures r.Some? && !HasUrl(spec) ==> r.value.url.UrlText? && '?' !in r.value.url.text
  {
    if HasUrl(spec) then Some(spec)
    else
      match outcome
      case Uploaded(signedUrl) => Some(spec.(url := UrlText(GetDownloadURL(signedUrl))))
      case Failed => None
  }

  /** `Promise.all(resizes)`: every spec derived, or `None` as soon as one
      job fails. */
  function DeriveAll(specs: seq<DerivativeSpec>, outcomes: seq<DerivativeOutcome>): (r: Option<seq<DerivativeSpec>>)
    requires |outcomes| == |specs|
    ensures r.Some? ==> |r.value| == |specs|
    decreases |specs|
  {
    if |specs| == 0 then Some([])
    else
      var n := |specs| - 1;
      match DeriveAll(specs[..n], outcomes[..n])
      case None => None
      case Some(init) =>
        match Derive(specs[n], outcomes[n])
        case None => None
        case Some(last) => Some(init + [last])
  }

  /** The indices whose spec needs a derivative (falsy `url`), in order. */
  function PendingIndices(specs: seq<DerivativeSpec>): (jobs: seq<nat>)
    ensures forall k :: 0 <= k < |jobs| ==> jobs[k] < |specs| && !HasUrl(specs[jobs[k]])
    ensures forall i :: 0 <= i < |specs| && !HasUrl(specs[i]) ==> i in jobs
    ensures forall k, l :: 0 <= k < l < |jobs| ==> jobs[k] < jobs[l]
    decreases |specs|
  {
    if |specs| == 0 then []
    else
      var n := |specs| - 1;
      var init := PendingIndices(specs[..n]);
      if HasUrl(specs[n]) then init else init + [n]
  }

  /** One run of `resizeImage` on `doc`. */
  function ResizePass(doc: Asset, fetched: bool, outcomes: seq<DerivativeOutcome>, size: Option<Dimensions>): (effects: PassEffects)
    requires doc.resizes.Some? && |outcomes| == |doc.resizes.value|
    ensures AllResolved(doc.resizes.value) <==> !effects.fetchStarted
    ensures !effects.fetchStarted ==> effects.jobs == [] && effects.update.None?
    ensures effects.update.Some? ==> effects.update.value.id == doc.id
    ensures effects.update.Some? ==> |effects.update.value.resizes| == |doc.resizes.value|
  {
    var specs := doc.resizes.value;
    if AllResolved(specs) then PassEffects(false, [], None)
    else if !fetched then PassEffects(true, [], None)
    else
      var jobs := PendingIndices(specs);
      match DeriveAll(specs, outcomes)
      case None => PassEffects(true, jobs, None)
      case Some(resizes) =>
        match size
        case None => PassEffects(true, jobs, None)
        case Some(dimensions) => PassEffects(true, jobs, Some(Update(doc.id, dimensions, resizes)))
  }

  /** The `map` over `doc.resizes`: specs with a URL pass through, every
      other spec starts a job and, once it is uploaded, has its URL written
      into it. `failed` is `Promise.all` rejecting. */
  method DeriveSpecs(specs: seq<DerivativeSpec>, outcomes: seq<DerivativeOutcome>)
    returns (resizes: seq<DerivativeSpec>, jobs: seq<nat>, failed: bool)
    requires |outcomes| == |specs|
    ensures jobs == PendingIndices(specs)
    ensures failed <==> DeriveAll(specs, outcomes).None?
    ensures !failed ==> DeriveAll(specs, outcomes) == Some(resizes)
  {
    resizes, jobs, failed := [], [], false;
    var i := 0;
    while i < |specs|
      invariant 0 <= i <= |specs|
      invariant jobs == PendingIndices(specs[..i])
      invariant failed <==> DeriveAll(specs[..i], outcomes[..i]).None?
      invariant !failed ==> DeriveAll(specs[..i], outcomes[..i]) == Some(resizes)
    {
      assert specs[..i + 1][..i] == specs[..i];
      assert outcomes[..i + 1][..i] == outcomes[..i];
      var spec := specs[i];
      if HasUrl(spec) {
        resizes := resizes + [spec];
      } else {
        jobs := jobs + [i];
        match outcomes[i] {
          case Uploaded(signedUrl) =>
            spec := spec.(url := UrlText(GetDownloadURL(signedUrl)));
            resizes := resizes + [spec];
          case Failed =>
            failed := true;
        }
      }
      i := i + 1;
    }
    assert specs[..|specs|] == specs;
    assert outcomes[..|outcomes|] == outcomes;
  }

  /** `resizeImage(clientData, s3Bucket, doc)`, with the derivative jobs
      run one after another. */
  method ResizeImage(doc: Asset, fetched: bool, outcomes: seq<DerivativeOutcome>, size: Option<Dimensions>)
    returns (effects: PassEffects)
    requires doc.resizes.Some? && |outcomes| == |doc.resizes.value|
    ensures effects == ResizePass(doc, fetched, outcomes, size)
  {
    var specs := doc.resizes.value;
    if AllResolved(specs) {
      return PassEffects(false, [], None);
    }
    if !fetched {
      return PassEffects(true, [], None);
    }
    var resizes, jobs, failed := DeriveSpecs(specs, outcomes);
    if failed || size.None? {
      return PassEffects(true, jobs, None);
    }
    effects := PassEffects(true, jobs, Some(Update(doc.id, size.value, resizes)));
  }
}

/** What the resize pass promises. */
module DerivativeProperties {
  import opened Wrappers
  import opened Assets
  import opened S3Bucket
  import opened Derivatives

  /** `Promise.all` resolves exactly when every spec that needed a
      derivative got one. */
  lemma {:induction false} DeriveAllSucceedsIff(specs: seq<DerivativeSpec>, outcomes: seq<DerivativeOutcome>)
    requires |outcomes| == |specs|
    ensures DeriveAll(specs, outcomes).Some?
        <==> forall i :: 0 <= i < |specs| && !HasUrl(specs[i]) ==> outcomes[i].Uploaded?
    decreases |specs|
  {
    if |specs| > 0 {
      var n := |specs| - 1;
      DeriveAllSucceedsIff(specs[..n], outcomes[..n]);
      assert forall i :: 0 <= i < n ==> specs[..n][i] == specs[i] && outcomes[..n][i] == outcomes[i];
    }
  }

  /** A derived list keeps the length and order of `resizes`: a spec with
      a URL comes back unchanged, and every other spec keeps its box and
      gains the download URL (the query-stripped signed upload URL) of its
      own job. */
  lemma {:induction false} DeriveAllShape(specs: seq<DerivativeSpec>, outcomes: seq<DerivativeOutcome>)
    requires |outcomes| == |specs| && DeriveAll(specs, outcomes).Some?
    ensures var rs := DeriveAll(specs, outcomes).value;
      |rs| == |specs| &&
      forall i :: 0 <= i < |specs| ==>
        rs[i].dimensions == specs[i].dimensions &&
        (HasUrl(specs[i]) ==> rs[i] == specs[i]) &&
        (!HasUrl(specs[i]) ==>
           outcomes[i].Uploaded? && rs[i].url == UrlText(GetDownloadURL(outcomes[i].signedUrl)))
    decreases |specs|
  {
    if |specs| > 0 {
      var n := |specs| - 1;
      DeriveAllShape(specs[..n], outcomes[..n]);
      assert forall i :: 0 <= i < n ==> specs[..n][i] == specs[i] && outcomes[..n][i] == outcomes[i];
    }
  }

  /** An empty `resizes` list counts as resolved: a file created without a
      kind is never fetched nor resized. */
  lemma EmptyResizesNeverResized(doc: Asset, fetched: bool, size: Option<Dimensions>)
    requires doc.resizes == Some([])
    ensures ResizePass(doc, fetched, [], size) == PassEffects(false, [], None)
  {
  }

  /** All-or-nothing: the update is issued exactly when there was work to
      do, the origin was fetched, every pending derivative was produced and
      the origin size was read. */
  lemma PassPersistsIff(doc: Asset, fetched: bool, outcomes: seq<DerivativeOutcome>, size: Option<Dimensions>)
    requires doc.resizes.Some? && |outcomes| == |doc.resizes.value|
    ensures var specs := doc.resizes.value;
      (ResizePass(doc, fetched, outcomes, size).update.Some? <==>
       !AllResolved(specs) && fetched && size.Some? &&
       forall i :: 0 <= i < |specs| && !HasUrl(specs[i]) ==> outcomes[i].Uploaded?)
  {
    DeriveAllSucceedsIff(doc.resizes.value, outcomes);
  }

  /** A successful pass issues one update keyed by the file's id, holding
      the origin size and a complete `resizes` list of the same length and
      order; derivative jobs ran for exactly the specs without a URL. */
  lemma PersistedPassIsComplete(doc: Asset, fetched: bool, outcomes: seq<DerivativeOutcome>, size: Option<Dimensions>)
    requires doc.resizes.Some? && |outcomes| == |doc.resizes.value|
    requires ResizePass(doc, fetched, outcomes, size).update.Some?
    ensures var effects := ResizePass(doc, fetched, outcomes, size);
      var u := effects.update.value;
      var specs := doc.resizes.value;
      u.id == doc.id && Some(u.dimensions) == size &&
      |u.resizes| == |specs| && AllResolved(u.resizes) &&
      (forall i :: 0 <= i < |specs| ==>
         u.resizes[i].dimensions == specs[i].dimensions &&
         (HasUrl(specs[i]) ==> u.resizes[i] == specs[i]) &&
         (!HasUrl(specs[i]) ==>
            outcomes[i].Uploaded? && u.resizes[i].url == UrlText(GetDownloadURL(outcomes[i].signedUrl)))) &&
      (forall i: nat :: i in effects.jobs <==> i < |specs| && !HasUrl(specs[i]))
  {
    DeriveAllShape(doc.resizes.value, outcomes);
  }

  /** Idempotence under redelivery: once a pass has persisted, a pass over
      the updated record does nothing, whatever its inputs. */
  lemma RedeliveryAfterSuccessSkips(
    doc: Asset, fetched: bool, outcomes: seq<DerivativeOutcome>, size: Option<Dimensions>,
    fetched': bool, outcomes': seq<DerivativeOutcome>, size': Option<Dimensions>)
    requires doc.resizes.Some? && |outcomes| == |doc.resizes.value|
    requires ResizePass(doc, fetched, outcomes, size).update.Some?
    requires |outcomes'| == |doc.resizes.value|
    ensures var u := ResizePass(doc, fetched, outcomes, size).update.value;
      ResizePass(doc.(resizes := Some(u.resizes)), fetched', outcomes', size')
        == PassEffects(false, [], None)
  {
    PersistedPassIsComplete(doc, fetched, outcomes, size);
  }
}
