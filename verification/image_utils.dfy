/**
 * `sortImagesByTime` and the size arithmetic of `createThumbnail`
 * (src/utils/imageUtils.js).
 */
module ImageUtils {
  import opened Wrappers
  import opened Exif
  import opened StableSort

  /** `DateTimeOriginal?.description || DateTime?.description`. */
  function DateString(bag: TagBag): (r: Option<string>)
    ensures Truthy(DescriptionOf(bag.dateTimeOriginal)) ==> r == DescriptionOf(bag.dateTimeOriginal)
    ensures !Truthy(DescriptionOf(bag.dateTimeOriginal)) && Truthy(DescriptionOf(bag.dateTime)) ==>
      r == DescriptionOf(bag.dateTime)
    ensures !Truthy(DescriptionOf(bag.dateTimeOriginal)) && !Truthy(DescriptionOf(bag.dateTime)) ==> r.None?
  {
    if Truthy(DescriptionOf(bag.dateTimeOriginal)) then DescriptionOf(bag.dateTimeOriginal)
    else if Truthy(DescriptionOf(bag.dateTime)) then DescriptionOf(bag.dateTime)
    else None
  }

  /**
   * The sort key of a photo: 0 while its metadata is empty, else the parsed
   * date string, else the file's modification time. `parseDate` stands for
   * the colon-to-dash rewrite followed by `new Date(...).getTime()`.
   */
  function TimeKey(photo: Photo, parseDate: string -> int): (t: int)
    ensures IsEmpty(photo.metadata) ==> t == 0
    ensures !IsEmpty(photo.metadata) && DateString(photo.metadata).Some? ==> t == parseDate(DateString(photo.metadata).value)
    ensures !IsEmpty(photo.metadata) && DateString(photo.metadata).None? ==> t == photo.lastModified
  {
    if IsEmpty(photo.metadata) then 0
    else match DateString(photo.metadata)
      case Some(d) => parseDate(d)
      case None => photo.lastModified
  }

  /** The comparator's key as a function. */
  function ByTime(parseDate: string -> int): Photo -> int
  {
    (p: Photo) => TimeKey(p, parseDate)
  }

  /** `[...images].sort((a, b) => key(a) - key(b))`: a new, stably sorted sequence. */
  function SortImagesByTime(images: seq<Photo>, parseDate: string -> int): (r: seq<Photo>)
    ensures |r| == |images|
  {
    Sort(images, ByTime(parseDate))
  }

  /** The result is ordered by time key, is a permutation of the input, and is stable. */
  lemma SortImagesSpec(images: seq<Photo>, parseDate: string -> int)
    ensures SortedBy(SortImagesByTime(images, parseDate), ByTime(parseDate))
    ensures multiset(SortImagesByTime(images, parseDate)) == multiset(images)
    ensures forall k :: WithKey(SortImagesByTime(images, parseDate), ByTime(parseDate), k) ==
                        WithKey(images, ByTime(parseDate), k)
  {
    var key := ByTime(parseDate);
    SortSorted(images, key);
    SortPermutes(images, key);
    forall k
      ensures WithKey(Sort(images, key), key, k) == WithKey(images, key, k)
    {
      SortStable(images, key, k);
    }
  }

  /** Sorting an already sorted list returns it unchanged. */
  lemma SortImagesIdempotent(images: seq<Photo>, parseDate: string -> int)
    ensures SortImagesByTime(SortImagesByTime(images, parseDate), parseDate) == SortImagesByTime(images, parseDate)
  {
    SortIdempotent(images, ByTime(parseDate));
  }

  /** Any order a stable sort could produce is the one `SortImagesByTime` gives. */
  lemma SortImagesCanonical(images: seq<Photo>, other: seq<Photo>, parseDate: string -> int)
    requires SortedBy(other, ByTime(parseDate))
    requires forall k :: WithKey(other, ByTime(parseDate), k) ==
                         WithKey(images, ByTime(parseDate), k)
    ensures other == SortImagesByTime(images, parseDate)
  {
    var key := ByTime(parseDate);
    SortSorted(images, key);
    forall k
      ensures WithKey(Sort(images, key), key, k) == WithKey(other, key, k)
    {
      SortStable(images, key, k);
    }
    SortedUnique(Sort(images, key), other, key);
  }

  /** A photo with some tag but no date: its modification time. */
  function Undated(id: string, lastModified: int): Photo
  {
    Photo(id, EmptyBag.(others := 1), lastModified)
  }

  /** Three undated photos modified at 300, 100, 200 come out as 100, 200, 300. */
  lemma ModificationTimeOrder(parseDate: string -> int)
    ensures SortImagesByTime([Undated("a", 300), Undated("b", 100), Undated("c", 200)], parseDate) ==
      [Undated("b", 100), Undated("c", 200), Undated("a", 300)]
  {
    var key := ByTime(parseDate);
    var a, b, c := Undated("a", 300), Undated("b", 100), Undated("c", 200);
    assert key(a) == 300 && key(b) == 100 && key(c) == 200;
    assert Sort([c], key) == [c];
    assert [b, c][1..] == [c];
    assert Sort([b, c], key) == [b, c];
    assert [a, b, c][1..] == [b, c];
    assert InsertFirst(a, [c], key) == [c, a];
    assert InsertFirst(a, [b, c], key) == [b, c, a];
  }

  /** Photos whose metadata has not been read yet all share key 0 and keep their order. */
  lemma EmptyMetadataKeepsOrder(images: seq<Photo>, parseDate: string -> int)
    requires forall i :: 0 <= i < |images| ==> IsEmpty(images[i].metadata)
    ensures SortImagesByTime(images, parseDate) == images
  {
    var key := ByTime(parseDate);
    assert SortedBy(images, key);
    SortOfSorted(images, key);
  }

  /**
   * `createThumbnail`'s target size: the longer side is scaled down to
   * `maxSize` when it exceeds it, keeping the aspect ratio; never enlarged.
   */
  function ThumbnailSize(width: real, height: real, maxSize: real): (r: (real, real))
    requires width >= 0.0 && height >= 0.0 && maxSize > 0.0
    ensures r.0 * height == r.1 * width
    ensures 0.0 <= r.0 <= width && 0.0 <= r.1 <= height
    ensures r.0 <= maxSize && r.1 <= maxSize
    ensures width <= maxSize && height <= maxSize ==> r == (width, height)
    ensures (width > maxSize || height > maxSize) ==> r.0 == maxSize || r.1 == maxSize
  {
    if width > height then
      if width > maxSize then ScaleDown(height, width, maxSize); (maxSize, height * maxSize / width)
      else (width, height)
    else
      if height > maxSize then ScaleDown(width, height, maxSize); (width * maxSize / height, maxSize)
      else (width, height)
  }

  /** Scaling the shorter side `a` by `m / b`, with `m < b`, shrinks it and keeps it below `m`. */
  lemma ScaleDown(a: real, b: real, m: real)
    requires 0.0 <= a <= b && 0.0 < m < b
    ensures 0.0 <= a * m / b <= a && a * m / b <= m
    ensures (a * m / b) * b == a * m
  {
    var q := a * m / b;
    assert q * b == a * m;
    assert a * m <= a * b;
    assert a * m <= b * m;
    assert q <= m;
    assert q <= a;
  }
}
