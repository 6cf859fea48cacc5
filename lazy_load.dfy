/** Lazy image loading (`setupLazyLoading`, script.js:342-361). The page's
    images are an array of records; an intersection entry names an image by
    its index. */
module LazyLoad {
  import opened Wrappers

  /** An `<img>`: its `src`, its `data-src` attribute (`None` once removed or
      when never present) and whether the image observer watches it. */
  datatype Image = Image(src: string, dataSrc: Option<string>, observed: bool)

  /** One `IntersectionObserverEntry`: the target image and `isIntersecting`. */
  datatype Entry = Entry(target: nat, isIntersecting: bool)

  /** `img.dataset.src` is truthy: the attribute is present and not empty. */
  predicate HasDeferredSource(img: Image)
  {
    img.dataSrc.Some? && img.dataSrc.value != ""
  }

  /** The callback body of script.js:346-352 for one entry. */
  function OnEntry(img: Image, isIntersecting: bool): Image
  {
    if isIntersecting && HasDeferredSource(img) then
      Image(img.dataSrc.value, None, false)
    else img
  }

  /** The loading effect of one entry, stated against the image before it: an
      intersecting image with a deferred source takes that source, loses the
      attribute and is no longer observed; every other entry leaves the image
      unchanged. Once an intersection has been handled, no later entry for the
      same image changes it again. */
  lemma OnEntryIsOneShot(img: Image, isIntersecting: bool)
    ensures isIntersecting && HasDeferredSource(img) ==>
      var after := OnEntry(img, isIntersecting);
      after.src == img.dataSrc.value && after.dataSrc == None && !after.observed
    ensures !(isIntersecting && HasDeferredSource(img)) ==> OnEntry(img, isIntersecting) == img
    ensures forall again: bool :: OnEntry(OnEntry(img, true), again) == OnEntry(img, true)
  {
  }

  /** Every entry names an image of the page. */
  predicate Targets(images: seq<Image>, entries: seq<Entry>)
  {
    forall e :: 0 <= e < |entries| ==> entries[e].target < |images|
  }

  /** The images after the callback has run over `entries` in order. */
  function AfterEntries(images: seq<Image>, entries: seq<Entry>): (r: seq<Image>)
    requires Targets(images, entries)
    ensures |r| == |images|
  {
    if entries == [] then images
    else
      var before := AfterEntries(images, entries[..|entries| - 1]);
      var last := entries[|entries| - 1];
      before[last.target := OnEntry(before[last.target], last.isIntersecting)]
  }

  /** Some entry of `entries` reports image `k` as intersecting. */
  ghost predicate IntersectedIn(entries: seq<Entry>, k: nat)
  {
    exists e :: 0 <= e < |entries| && entries[e].target == k && entries[e].isIntersecting
  }

  /** Over any batch, each image ends up as if it were loaded once if some
      entry reported it intersecting, and untouched otherwise: neither the
      number of such entries nor the other images' entries matter. */
  lemma {:induction false} AfterEntriesLoadsOnce(images: seq<Image>, entries: seq<Entry>, k: nat)
    requires Targets(images, entries) && k < |images|
    ensures AfterEntries(images, entries)[k] ==
      if IntersectedIn(entries, k) then OnEntry(images[k], true) else images[k]
    decreases |entries|
  {
    if entries != [] {
      var front := entries[..|entries| - 1];
      var last := entries[|entries| - 1];
      assert Targets(images, front);
      AfterEntriesLoadsOnce(images, front, k);
      assert forall e :: 0 <= e < |front| ==> front[e] == entries[e];
      if IntersectedIn(front, k) {
        var e :| 0 <= e < |front| && front[e].target == k && front[e].isIntersecting;
        assert entries[e] == front[e];
      }
      if IntersectedIn(entries, k) && !IntersectedIn(front, k) {
        var e :| 0 <= e < |entries| && entries[e].target == k && entries[e].isIntersecting;
        assert e == |entries| - 1;
      }
    }
  }

  /** The observer callback over one batch of entries. */
  method OnIntersections(images: array<Image>, entries: seq<Entry>)
    requires Targets(images[..], entries)
    modifies images
    ensures images[..] == AfterEntries(old(images[..]), entries)
  {
    for i := 0 to |entries|
      invariant Targets(old(images[..]), entries[..i])
      invariant images[..] == AfterEntries(old(images[..]), entries[..i])
    {
      assert entries[..i + 1][..i] == entries[..i];
      var entry := entries[i];
      if entry.isIntersecting {
        var img := images[entry.target];
        if img.dataSrc.Some? && img.dataSrc.value != "" {
          images[entry.target] := Image(img.dataSrc.value, None, false);
        }
      }
    }
    assert entries[..|entries|] == entries;
  }

  /** Registration (script.js:343 and 357-359): when the runtime has
      `IntersectionObserver`, every image that carries a `data-src` attribute,
      even an empty one, is observed; nothing else changes. */
  method SetupLazyLoading(images: array<Image>, observerSupported: bool)
    modifies images
    ensures forall i :: 0 <= i < images.Length ==>
      images[i] == old(images[i]).(observed := old(images[i]).observed || (observerSupported && old(images[i]).dataSrc.Some?))
  {
    if observerSupported {
      for i := 0 to images.Length
        invariant forall j :: 0 <= j < i ==>
          images[j] == old(images[j]).(observed := old(images[j]).observed || old(images[j]).dataSrc.Some?)
        invariant forall j :: i <= j < images.Length ==> images[j] == old(images[j])
      {
        if images[i].dataSrc.Some? {
          images[i] := images[i].(observed := true);
        }
      }
    }
  }
}
