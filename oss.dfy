/**
 * Object-storage listing as the program sees it: each ListObjects request
 * (with a prefix and a marker) answers one page of keys, a truncation flag
 * and the marker of the next page, or fails. The bucket is abstracted as the
 * sequence of answers it gives to successive requests.
 */
module Oss {
  import opened Text

  datatype ObjectListing = ObjectListing(keys: seq<string>, isTruncated: bool, nextMarker: string)

  datatype ListResponse = Listed(listing: ObjectListing) | ListFailed

  /** The bucket's answers end with a failure or with a page that is not truncated. */
  predicate Ends(pages: seq<ListResponse>)
    decreases |pages|
  {
    |pages| > 0 && (pages[0].ListFailed? || !pages[0].listing.isTruncated || Ends(pages[1..]))
  }

  /** The page size both listing loops ask for. */
  const MaxKeys := 1000

  /** One ListObjects request: the prefix, the marker and the page size. */
  datatype ListRequest = ListRequest(prefix: string, marker: string, maxKeys: int)

  /** The requests a listing loop sends under `prefix`, one per marker, in order. */
  function Requests(prefix: string, markers: seq<string>): seq<ListRequest> {
    seq(|markers|, i requires 0 <= i < |markers| => ListRequest(prefix, markers[i], MaxKeys))
  }

  lemma RequestsSnoc(prefix: string, markers: seq<string>, marker: string)
    ensures Requests(prefix, markers + [marker]) == Requests(prefix, markers) + [ListRequest(prefix, marker, MaxKeys)]
  {
  }

  /** The keys both listing loops keep: all but the ".alist" index files, in order. */
  function Visible(keys: seq<string>): seq<string> {
    if keys == [] then []
    else
      var last := keys[|keys| - 1];
      Visible(keys[..|keys| - 1]) + (if HasSuffix(last, ".alist") then [] else [last])
  }

  lemma {:induction false} VisibleDropsIndexFiles(keys: seq<string>)
    ensures forall k :: k in Visible(keys) ==> k in keys && !HasSuffix(k, ".alist")
    ensures forall k :: k in keys && !HasSuffix(k, ".alist") ==> k in Visible(keys)
  {
    if keys != [] {
      var init := keys[..|keys| - 1];
      VisibleDropsIndexFiles(init);
      assert keys == init + [keys[|keys| - 1]];
    }
  }

  /** What a pagination loop produced: the kept keys, whether it ended without error, and the markers it sent. */
  datatype Scan = Scan(keys: seq<string>, complete: bool, markers: seq<string>)

  /**
   * The pagination loop: request with `marker`, keep the visible keys, and
   * follow NextMarker while the page is truncated; stop at the first page
   * that is not, or at the first failure.
   */
  function ScanFrom(pages: seq<ListResponse>, marker: string): (s: Scan)
    requires Ends(pages)
    ensures 1 <= |s.markers| <= |pages| && s.markers[0] == marker
    decreases |pages|
  {
    match pages[0]
    case ListFailed => Scan([], false, [marker])
    case Listed(page) =>
      var kept := Visible(page.keys);
      if !page.isTruncated then Scan(kept, true, [marker])
      else
        var rest := ScanFrom(pages[1..], page.nextMarker);
        Scan(kept + rest.keys, rest.complete, [marker] + rest.markers)
  }

  /** One request of the loop: what the first answer decides. */
  lemma ScanFromStep(pages: seq<ListResponse>, marker: string)
    requires Ends(pages)
    ensures pages[0].ListFailed? ==> ScanFrom(pages, marker) == Scan([], false, [marker])
    ensures pages[0].Listed? && !pages[0].listing.isTruncated ==>
      ScanFrom(pages, marker) == Scan(Visible(pages[0].listing.keys), true, [marker])
    ensures pages[0].Listed? && pages[0].listing.isTruncated ==>
      && |pages| > 1 && Ends(pages[1..])
      && var rest := ScanFrom(pages[1..], pages[0].listing.nextMarker);
        ScanFrom(pages, marker) == Scan(Visible(pages[0].listing.keys) + rest.keys, rest.complete, [marker] + rest.markers)
  {
  }

  /**
   * The bookkeeping of a loop that has consumed the answers before `i`,
   * keeping `kept` and sending `markers`, against the whole scan.
   */
  predicate ScannedUpTo(pages: seq<ListResponse>, i: nat, marker: string, whole: Scan, kept: seq<string>, markers: seq<string>)
    requires i < |pages| && Ends(pages[i..])
  {
    var rest := ScanFrom(pages[i..], marker);
    whole.keys == kept + rest.keys && whole.complete == rest.complete && whole.markers == markers + rest.markers
  }

  /** A truncated page moves the loop to the next answer with its NextMarker. */
  lemma ScanAdvance(pages: seq<ListResponse>, i: nat, marker: string, whole: Scan, kept: seq<string>, markers: seq<string>)
    requires i < |pages| && Ends(pages[i..]) && ScannedUpTo(pages, i, marker, whole, kept, markers)
    requires pages[i].Listed? && pages[i].listing.isTruncated
    ensures i + 1 < |pages| && Ends(pages[i + 1..])
    ensures ScannedUpTo(pages, i + 1, pages[i].listing.nextMarker, whole,
                        kept + Visible(pages[i].listing.keys), markers + [marker])
  {
    assert pages[i..][0] == pages[i] && pages[i..][1..] == pages[i + 1..];
    ScanFromStep(pages[i..], marker);
    var rest := ScanFrom(pages[i + 1..], pages[i].listing.nextMarker);
    assert markers + ([marker] + rest.markers) == (markers + [marker]) + rest.markers;
    assert kept + (Visible(pages[i].listing.keys) + rest.keys) == (kept + Visible(pages[i].listing.keys)) + rest.keys;
  }

  /** A failed request or a last page ends the loop with the whole scan accounted for. */
  lemma ScanStop(pages: seq<ListResponse>, i: nat, marker: string, whole: Scan, kept: seq<string>, markers: seq<string>)
    requires i < |pages| && Ends(pages[i..]) && ScannedUpTo(pages, i, marker, whole, kept, markers)
    requires pages[i].ListFailed? || !pages[i].listing.isTruncated
    ensures whole.markers == markers + [marker]
    ensures whole.complete == pages[i].Listed?
    ensures pages[i].Listed? ==> whole.keys == kept + Visible(pages[i].listing.keys)
  {
    assert pages[i..][0] == pages[i];
    ScanFromStep(pages[i..], marker);
  }

  /** The visible keys of every page answered successfully, in listing order. */
  function KeptIn(pages: seq<ListResponse>): seq<string> {
    if pages == [] then []
    else (if pages[0].Listed? then Visible(pages[0].listing.keys) else []) + KeptIn(pages[1..])
  }

  /**
   * The loop sends "" first and then each truncated page's NextMarker, stops
   * at the first answer that is a failure or a last page, and keeps exactly
   * the visible keys of the pages it consumed.
   */
  lemma {:induction false} ScanFollowsMarkers(pages: seq<ListResponse>, marker: string)
    requires Ends(pages)
    ensures var s := ScanFrom(pages, marker);
      && (forall i :: 0 <= i < |s.markers| - 1 ==>
            pages[i].Listed? && pages[i].listing.isTruncated && s.markers[i + 1] == pages[i].listing.nextMarker)
      && var last := pages[|s.markers| - 1];
      && (last.ListFailed? || !last.listing.isTruncated)
      && (s.complete <==> last.Listed?)
      && s.keys == KeptIn(pages[..|s.markers|])
  {
    var s := ScanFrom(pages, marker);
    match pages[0]
    case ListFailed =>
      assert pages[..1] == [pages[0]];
    case Listed(page) =>
      if !page.isTruncated {
        assert pages[..1] == [pages[0]];
      } else {
        var rest := ScanFrom(pages[1..], page.nextMarker);
        ScanFollowsMarkers(pages[1..], page.nextMarker);
        var n := |s.markers|;
        assert pages[..n][1..] == pages[1..][..n - 1];
        forall i | 0 <= i < n - 1
          ensures pages[i].Listed? && pages[i].listing.isTruncated && s.markers[i + 1] == pages[i].listing.nextMarker
        {
          if i > 0 {
            assert pages[i] == pages[1..][i - 1];
          }
        }
      }
  }
}
