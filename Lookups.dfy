/**
 * The three lookups prepared beside the resource view (src/main.ts:48-53):
 * the images of a resource ordered by position, the bookings of an account,
 * and the bookings of a resource that overlap a time window.
 *
 * SQLite does not say in which order rows without ORDER BY come back, nor
 * how rows with equal `position` are ordered; the properties below fix the
 * multiset of rows returned and, for the images, the order by position.
 */
module Lookups {
  import opened Common
  import opened Schema

  /** The filter `resource_name == ?` on `resource_images`. */
  function IsImageOf(name: string): ResourceImage -> bool {
    (i: ResourceImage) => i.resourceName == name
  }

  predicate SortedByPosition(s: seq<ResourceImage>) {
    forall j, k :: 0 <= j < k < |s| ==> s[j].position <= s[k].position
  }

  /** Insert `x` into a sequence already ordered by position. */
  function Insert(x: ResourceImage, s: seq<ResourceImage>): (r: seq<ResourceImage>)
    requires SortedByPosition(s)
    ensures |r| == |s| + 1
    ensures r[0] == x || (s != [] && r[0] == s[0])
    ensures SortedByPosition(r)
    ensures multiset(r) == multiset(s) + multiset{x}
  {
    if s == [] || x.position <= s[0].position then [x] + s
    else
      assert s == [s[0]] + s[1..];
      [s[0]] + Insert(x, s[1..])
  }

  /** ORDER BY position. */
  function SortByPosition(s: seq<ResourceImage>): (r: seq<ResourceImage>)
    ensures SortedByPosition(r)
    ensures multiset(r) == multiset(s)
  {
    if s == [] then []
    else
      assert s == [s[0]] + s[1..];
      Insert(s[0], SortByPosition(s[1..]))
  }

  /** `getResourceImagesQuery` before projection: the image rows of
      resource `name`, every one of them as often as it occurs in the table,
      in non-decreasing position order. */
  function ImageRows(images: seq<ResourceImage>, name: string): (rows: seq<ResourceImage>)
    ensures SortedByPosition(rows)
    ensures forall i :: multiset(rows)[i] == if i.resourceName == name then multiset(images)[i] else 0
  {
    FilterSpec(images, IsImageOf(name));
    SortByPosition(Filter(images, IsImageOf(name)))
  }

  /** SELECT image_url: the projection of rows onto their URL column. */
  function Urls(rows: seq<ResourceImage>): (urls: seq<string>)
    ensures |urls| == |rows|
  {
    if rows == [] then [] else [rows[0].imageUrl] + Urls(rows[1..])
  }

  lemma {:induction false} UrlsAppend(a: seq<ResourceImage>, b: seq<ResourceImage>)
    ensures Urls(a + b) == Urls(a) + Urls(b)
  {
    if a == [] {
      assert a + b == b;
    } else {
      assert (a + b)[1..] == a[1..] + b;
      UrlsAppend(a[1..], b);
    }
  }

  /** A sequence is its prefix before `k`, its element at `k` and the rest. */
  lemma SplitAt(b: seq<ResourceImage>, k: nat)
    requires k < |b|
    ensures b == b[..k] + [b[k]] + b[k + 1..]
  {
  }

  lemma RemoveAt(b: seq<ResourceImage>, k: nat)
    requires k < |b|
    ensures multiset(b) == multiset(b[..k] + b[k + 1..]) + multiset{b[k]}
  {
    SplitAt(b, k);
  }

  lemma UrlsRemoveAt(b: seq<ResourceImage>, k: nat)
    requires k < |b|
    ensures multiset(Urls(b)) == multiset(Urls(b[..k] + b[k + 1..])) + multiset{b[k].imageUrl}
  {
    SplitAt(b, k);
    UrlsAppend(b[..k] + [b[k]], b[k + 1..]);
    UrlsAppend(b[..k], [b[k]]);
    UrlsAppend(b[..k], b[k + 1..]);
    assert Urls([b[k]]) == [b[k].imageUrl];
  }

  /** Reordering rows reorders their URLs: the projection of a permutation
      is a permutation of the projection. */
  lemma {:induction false} UrlsOfPermutation(a: seq<ResourceImage>, b: seq<ResourceImage>)
    requires multiset(a) == multiset(b)
    ensures multiset(Urls(a)) == multiset(Urls(b))
  {
    if a != [] {
      var k := TailPermutation(a, b);
      UrlsOfPermutation(a[1..], b[..k] + b[k + 1..]);
      UrlsRemoveAt(b, k);
      assert Urls(a) == [a[0].imageUrl] + Urls(a[1..]);
    }
  }

  /** Where the head of `a` sits in its permutation `b`, and what is left of
      both once it is removed. */
  lemma TailPermutation(a: seq<ResourceImage>, b: seq<ResourceImage>) returns (k: nat)
    requires a != [] && multiset(a) == multiset(b)
    ensures k < |b| && b[k] == a[0]
    ensures multiset(a[1..]) == multiset(b[..k] + b[k + 1..])
  {
    assert a == [a[0]] + a[1..];
    assert a[0] in multiset(b);
    k :| 0 <= k < |b| && b[k] == a[0];
    var rest := b[..k] + b[k + 1..];
    RemoveAt(b, k);
    assert multiset(a) == multiset(a[1..]) + multiset{a[0]};
    forall e ensures multiset(a[1..])[e] == multiset(rest)[e] {
      assert multiset(a)[e] == multiset(b)[e];
    }
  }

  /** What `/resources/:resourceName/images` sends on success. */
  function ImageUrls(images: seq<ResourceImage>, name: string): (urls: seq<string>)
    ensures |urls| == |Filter(images, IsImageOf(name))|
  {
    Urls(ImageRows(images, name))
  }

  /** The URLs sent are exactly the `image_url`s of the resource's image rows
      (duplicates kept), listed in non-decreasing position order. */
  lemma ImageUrlsExact(images: seq<ResourceImage>, name: string)
    ensures multiset(ImageUrls(images, name)) == multiset(Urls(Filter(images, IsImageOf(name))))
    ensures exists rows :: SortedByPosition(rows) && ImageUrls(images, name) == Urls(rows) &&
                           multiset(rows) == multiset(Filter(images, IsImageOf(name)))
  {
    var rows := ImageRows(images, name);
    FilterSpec(images, IsImageOf(name));
    assert multiset(rows) == multiset(Filter(images, IsImageOf(name)));
    UrlsOfPermutation(rows, Filter(images, IsImageOf(name)));
  }

  /** `getBookingsQueryByAccount`: the bookings made by account `id`. */
  function BookingsForAccount(bookings: seq<Booking>, id: string): (r: seq<Booking>)
    ensures forall b :: multiset(r)[b] == if b.bookerAccountId == id then multiset(bookings)[b] else 0
  {
    var byAccount := (b: Booking) => b.bookerAccountId == id;
    FilterSpec(bookings, byAccount);
    Filter(bookings, byAccount)
  }

  /** The window test of `getResourceBookingsQuery`: closed intervals, so
      touching endpoints count. */
  predicate Overlaps(b: Booking, from: int, until: int) {
    b.start <= until && b.end >= from
  }

  /** `getResourceBookingsQuery`: the bookings of resource `rn` that
      overlap the window [from, until]. */
  function ResourceBookings(bookings: seq<Booking>, rn: string, from: int, until: int): (r: seq<Booking>)
    ensures forall b :: multiset(r)[b] ==
                        if b.resourceName == rn && b.start <= until && b.end >= from then multiset(bookings)[b] else 0
  {
    var inWindow := (b: Booking) => b.resourceName == rn && Overlaps(b, from, until);
    FilterSpec(bookings, inWindow);
    Filter(bookings, inWindow)
  }

  predicate Within(t: int, lo: int, hi: int) { lo <= t <= hi }

  /** For well-formed intervals the test is exactly "booking and window share
      an instant". */
  lemma OverlapIsSharedInstant(b: Booking, from: int, until: int)
    requires b.start <= b.end && from <= until
    ensures Overlaps(b, from, until) <==> exists t :: Within(t, b.start, b.end) && Within(t, from, until)
  {
    if Overlaps(b, from, until) {
      var t := if b.start < from then from else b.start;
      assert Within(t, b.start, b.end) && Within(t, from, until);
    }
  }

  /** Booking [10, 20] is returned for window [20, 30] but not for [21, 30]. */
  lemma TouchingEndpointCounts(rn: string, id: string)
    ensures var b := Booking(rn, id, 10, 20, []);
            b in ResourceBookings([b], rn, 20, 30) && b !in ResourceBookings([b], rn, 21, 30)
  {
    var b := Booking(rn, id, 10, 20, []);
    assert multiset(ResourceBookings([b], rn, 20, 30))[b] == 1;
    assert multiset(ResourceBookings([b], rn, 21, 30))[b] == 0;
  }
}
