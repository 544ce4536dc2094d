/**
 * The image repository: images in arrival order, each tagged with its series
 * and its table position, and an index list (`filterIndices`) holding the
 * positions of the images of the current series, stably sorted by table
 * position. Table positions are only ever compared, so they are modelled as
 * integers.
 */
module ImageRepo {
  import opened Wrappers
  import opened DicomObjects

  datatype Image = Image(
    width: u32,
    height: u32,
    pixels: seq<byte>,
    seriesInstanceUid: string,
    tablePosition: int)

  datatype AddImageError = PixelDecodeFailed | MissingSeriesInstanceUid | MissingTablePosition

  /** The image `add_image` builds from an object, or the first error it meets. */
  function DecodeImage(obj: DicomObject): (r: Result<Image, AddImageError>)
    ensures r.Ok? <==> obj.pixels.Some? && obj.seriesInstanceUid.Some? && obj.tablePosition.Some?
    ensures r == Err(PixelDecodeFailed) <==> obj.pixels.None?
    ensures r == Err(MissingSeriesInstanceUid) <==> obj.pixels.Some? && obj.seriesInstanceUid.None?
    ensures r.Ok? ==> r.value.width == obj.pixels.value.width && r.value.height == obj.pixels.value.height
    ensures r.Ok? ==> r.value.pixels == obj.pixels.value.data
                      && r.value.seriesInstanceUid == obj.seriesInstanceUid.value
                      && r.value.tablePosition == obj.tablePosition.value
  {
    if obj.pixels.None? then Err(PixelDecodeFailed)
    else if obj.seriesInstanceUid.None? then Err(MissingSeriesInstanceUid)
    else if obj.tablePosition.None? then Err(MissingTablePosition)
    else
      var p := obj.pixels.value;
      Ok(Image(p.width, p.height, p.data, obj.seriesInstanceUid.value, obj.tablePosition.value))
  }

  ghost predicate StrictlyIncreasing(s: seq<nat>) {
    forall i, j :: 0 <= i < j < |s| ==> s[i] < s[j]
  }

  /** The positions 0, 1, ..., n - 1. */
  function AllPositions(n: nat): (r: seq<nat>)
    ensures |r| == n
    ensures forall i :: 0 <= i < n ==> r[i] == i
    ensures forall k: nat :: k in r <==> k < n
  {
    if n == 0 then [] else AllPositions(n - 1) + [n - 1]
  }

  /** The positions, in arrival order, of the images whose series is `uid`. */
  function SeriesPositions(images: seq<Image>, uid: string): (r: seq<nat>)
    ensures forall k: nat :: k in r <==> k < |images| && images[k].seriesInstanceUid == uid
    ensures forall i :: 0 <= i < |r| ==> r[i] < |images|
    ensures StrictlyIncreasing(r)
    ensures |r| <= |images|
  {
    if |images| == 0 then []
    else
      var last := |images| - 1;
      var rest := SeriesPositions(images[..last], uid);
      if images[last].seriesInstanceUid == uid then rest + [last] else rest
  }

  /** The selection step of `filter_indices`: every position when there is no filter. */
  function Selection(images: seq<Image>, filter: Option<string>): (r: seq<nat>)
    ensures forall k: nat :: k in r <==> k < |images| && (filter.None? || images[k].seriesInstanceUid == filter.value)
    ensures StrictlyIncreasing(r)
    ensures filter.None? ==> |r| == |images|
    ensures |r| <= |images|
  {
    if filter.None? then AllPositions(|images|) else SeriesPositions(images, filter.value)
  }

  /**
   * Image position `a` comes before image position `b`: a smaller table
   * position, or the same table position and an earlier arrival.
   */
  ghost predicate Before(images: seq<Image>, a: nat, b: nat)
    requires a < |images| && b < |images|
  {
    images[a].tablePosition < images[b].tablePosition
    || (images[a].tablePosition == images[b].tablePosition && a < b)
  }

  /** Every entry refers to an image, and the entries are in `Before` order. */
  ghost predicate OrderedByKey(images: seq<Image>, s: seq<nat>) {
    && (forall i :: 0 <= i < |s| ==> s[i] < |images|)
    && (forall i, j :: 0 <= i < j < |s| ==> Before(images, s[i], s[j]))
  }

  /** An index ordered by key is sorted by table position, and equal keys keep arrival order. */
  lemma OrderedIsStableSorted(images: seq<Image>, s: seq<nat>, i: nat, j: nat)
    requires OrderedByKey(images, s)
    requires i < j < |s|
    ensures images[s[i]].tablePosition <= images[s[j]].tablePosition
    ensures images[s[i]].tablePosition == images[s[j]].tablePosition ==> s[i] < s[j]
  {
  }

  /**
   * Two indexes in key order holding the same positions are the same list:
   * rebuilding the index for the same filter reproduces the same order.
   */
  lemma {:induction false} OrderedUnique(images: seq<Image>, s: seq<nat>, t: seq<nat>)
    requires OrderedByKey(images, s) && OrderedByKey(images, t)
    requires multiset(s) == multiset(t)
    ensures s == t
  {
    if s == [] {
      assert |t| == |multiset(t)| == 0;
    } else {
      assert s[0] in multiset(t);
      assert |t| == |multiset(t)| == |multiset(s)| == |s|;
      assert t[0] in multiset(s);
      assert s[0] == t[0];
      assert s == [s[0]] + s[1..];
      assert t == [t[0]] + t[1..];
      assert multiset(s) == multiset{s[0]} + multiset(s[1..]);
      assert multiset(t) == multiset{t[0]} + multiset(t[1..]);
      calc {
        multiset(s[1..]);
        multiset(s) - multiset{s[0]};
        multiset(t) - multiset{t[0]};
        multiset(t[1..]);
      }
      OrderedUnique(images, s[1..], t[1..]);
    }
  }

  /** An index in key order lists each position at most once. */
  lemma OrderedHasNoDuplicates(images: seq<Image>, s: seq<nat>, i: nat, j: nat)
    requires OrderedByKey(images, s)
    requires i < j < |s|
    ensures s[i] != s[j]
  {
    assert Before(images, s[i], s[j]);
  }

  /** The first position, in arrival order, of an image of series `uid`. */
  function FirstInSeries(images: seq<Image>, uid: string): (r: Option<nat>)
    ensures r.Some? ==> r.value < |images| && images[r.value].seriesInstanceUid == uid
    ensures r.Some? ==> forall j :: 0 <= j < r.value ==> images[j].seriesInstanceUid != uid
    ensures r.None? <==> forall j :: 0 <= j < |images| ==> images[j].seriesInstanceUid != uid
  {
    if |images| == 0 then None
    else if images[0].seriesInstanceUid == uid then Some(0)
    else match FirstInSeries(images[1..], uid)
      case None => None
      case Some(k) => Some(k + 1)
  }

  class ImageRepository {
    var images: seq<Image>
    var filterIndices: seq<nat>

    constructor ()
      ensures images == [] && filterIndices == []
    {
      images := [];
      filterIndices := [];
    }

    /**
     * Sorts `filterIndices` by table position, keeping equal keys in the order
     * they are listed. Its caller lists them in ascending arrival order.
     */
    method SortIndices()
      requires forall i :: 0 <= i < |filterIndices| ==> filterIndices[i] < |images|
      requires StrictlyIncreasing(filterIndices)
      modifies this`filterIndices
      ensures OrderedByKey(images, filterIndices)
      ensures multiset(filterIndices) == multiset(old(filterIndices))
    {
      var input, keys := filterIndices, images;
      var sorted: seq<nat> := [];
      var i := 0;
      while i < |input|
        invariant 0 <= i <= |input|
        invariant OrderedByKey(keys, sorted)
        invariant multiset(sorted) == multiset(input[..i])
        invariant forall t :: 0 <= t < |sorted| ==> sorted[t] in input[..i]
      {
        var x := input[i];
        var j := InsertionPoint(keys, sorted, x);
        InsertStep(keys, input, i, sorted, j);
        sorted := sorted[..j] + [x] + sorted[j..];
        i := i + 1;
      }
      assert input[..i] == input;
      filterIndices := sorted;
    }

    /**
     * Rebuilds the index for `filter` (every image when it is None) and
     * returns its length.
     */
    method FilterIndices(filter: Option<string>) returns (count: nat)
      modifies this`filterIndices
      ensures count == |filterIndices| == |Selection(images, filter)|
      ensures multiset(filterIndices) == multiset(Selection(images, filter))
      ensures OrderedByKey(images, filterIndices)
    {
      filterIndices := Selection(images, filter);
      count := |filterIndices|;
      forall i | 0 <= i < |filterIndices|
        ensures filterIndices[i] < |images|
      {
        assert filterIndices[i] in filterIndices;
      }
      SortIndices();
      assert |filterIndices| == |multiset(filterIndices)| == count;
    }

    /** `add_image`: appends the decoded image, or changes nothing and reports why it could not. */
    method AddImage(obj: DicomObject) returns (r: Result<(), AddImageError>)
      modifies this`images
      ensures r.Ok? <==> DecodeImage(obj).Ok?
      ensures r.Ok? ==> images == old(images) + [DecodeImage(obj).value]
      ensures r.Err? ==> images == old(images) && r.error == DecodeImage(obj).error
    {
      match DecodeImage(obj)
      case Err(e) =>
        r := Err(e);
      case Ok(img) =>
        images := images + [img];
        r := Ok(());
    }

    /** The image at position `index` of the filtered view, if both lookups are in range. */
    function GetImageAtIndex(index: nat): (r: Option<Image>)
      reads this
      ensures r.Some? <==> index < |filterIndices| && filterIndices[index] < |images|
      ensures r.Some? ==> r.value == images[filterIndices[index]]
    {
      if index < |filterIndices| && filterIndices[index] < |images| then Some(images[filterIndices[index]])
      else None
    }

    /** The first image of series `uid` in arrival order. */
    function GetFirstImageInSeries(uid: string): (r: Option<Image>)
      reads this
      ensures r.Some? ==> r.value.seriesInstanceUid == uid && r.value in images
      ensures r.Some? ==> exists k :: 0 <= k < |images| && images[k] == r.value
                                      && (forall j :: 0 <= j < k ==> images[j].seriesInstanceUid != uid)
      ensures r.None? <==> forall j :: 0 <= j < |images| ==> images[j].seriesInstanceUid != uid
    {
      match FirstInSeries(images, uid)
      case None => None
      case Some(k) => Some(images[k])
    }

    /** Drops every image; the index list is left as it was. */
    method ResetImages()
      modifies this`images
      ensures images == [] && filterIndices == old(filterIndices)
      ensures forall index: nat :: GetImageAtIndex(index).None?
    {
      images := [];
    }
  }

  /**
   * Scans `sorted` from the back for the place of `x`: after every entry whose
   * table position is not greater than that of `x`.
   */
  method InsertionPoint(images: seq<Image>, sorted: seq<nat>, x: nat) returns (j: nat)
    requires x < |images|
    requires forall t :: 0 <= t < |sorted| ==> sorted[t] < |images|
    ensures j <= |sorted|
    ensures j > 0 ==> images[sorted[j - 1]].tablePosition <= images[x].tablePosition
    ensures forall t :: j <= t < |sorted| ==> images[sorted[t]].tablePosition > images[x].tablePosition
  {
    j := |sorted|;
    while j > 0 && images[sorted[j - 1]].tablePosition > images[x].tablePosition
      invariant 0 <= j <= |sorted|
      invariant forall t :: j <= t < |sorted| ==> images[sorted[t]].tablePosition > images[x].tablePosition
    {
      j := j - 1;
    }
  }

  /** One step of the insertion sort keeps the loop's invariants. */
  lemma InsertStep(images: seq<Image>, input: seq<nat>, i: nat, sorted: seq<nat>, j: nat)
    requires StrictlyIncreasing(input) && i < |input| && input[i] < |images|
    requires OrderedByKey(images, sorted)
    requires multiset(sorted) == multiset(input[..i])
    requires forall t :: 0 <= t < |sorted| ==> sorted[t] in input[..i]
    requires j <= |sorted|
    requires j > 0 ==> images[sorted[j - 1]].tablePosition <= images[input[i]].tablePosition
    requires forall t :: j <= t < |sorted| ==> images[sorted[t]].tablePosition > images[input[i]].tablePosition
    ensures var next := sorted[..j] + [input[i]] + sorted[j..];
      && OrderedByKey(images, next)
      && multiset(next) == multiset(input[..i + 1])
      && forall t :: 0 <= t < |next| ==> next[t] in input[..i + 1]
  {
    EarlierAreSmaller(input, i);
    InsertKeepsOrder(images, sorted, input[i], j, input[..i]);
    InsertKeepsContents(input, i, sorted, j);
  }

  lemma EarlierAreSmaller(input: seq<nat>, i: nat)
    requires StrictlyIncreasing(input) && i < |input|
    ensures forall k :: k in input[..i] ==> k < input[i]
  {
    forall k | k in input[..i]
      ensures k < input[i]
    {
      var t :| 0 <= t < i && input[t] == k;
    }
  }

  lemma InsertKeepsContents(input: seq<nat>, i: nat, sorted: seq<nat>, j: nat)
    requires i < |input| && j <= |sorted|
    requires multiset(sorted) == multiset(input[..i])
    ensures var next := sorted[..j] + [input[i]] + sorted[j..];
      && multiset(next) == multiset(input[..i + 1])
      && forall t :: 0 <= t < |next| ==> next[t] in input[..i + 1]
  {
    var x := input[i];
    var next := sorted[..j] + [x] + sorted[j..];
    calc {
      multiset(next);
      multiset(sorted[..j]) + multiset{x} + multiset(sorted[j..]);
      { assert sorted == sorted[..j] + sorted[j..]; }
      multiset(sorted) + multiset{x};
      multiset(input[..i]) + multiset{x};
      { assert input[..i + 1] == input[..i] + [x]; }
      multiset(input[..i + 1]);
    }
    forall t | 0 <= t < |next|
      ensures next[t] in input[..i + 1]
    {
      assert next[t] in multiset(next);
    }
  }

  /** Inserting `x` at the point the insertion scan found keeps the index in key order. */
  lemma InsertKeepsOrder(images: seq<Image>, sorted: seq<nat>, x: nat, j: nat, done: seq<nat>)
    requires OrderedByKey(images, sorted)
    requires x < |images| && j <= |sorted|
    requires forall t :: 0 <= t < |sorted| ==> sorted[t] in done
    requires forall k :: k in done ==> k < x
    requires j > 0 ==> images[sorted[j - 1]].tablePosition <= images[x].tablePosition
    requires forall t :: j <= t < |sorted| ==> images[sorted[t]].tablePosition > images[x].tablePosition
    ensures OrderedByKey(images, sorted[..j] + [x] + sorted[j..])
  {
    var s := sorted[..j] + [x] + sorted[j..];
    forall a, b | 0 <= a < b < |s|
      ensures Before(images, s[a], s[b])
    {
      if b < j {
        assert s[a] == sorted[a] && s[b] == sorted[b];
      } else if a > j {
        assert s[a] == sorted[a - 1] && s[b] == sorted[b - 1];
      } else if a == j {
        assert s[b] == sorted[b - 1];
      } else {
        assert b >= j && a < j;
        assert s[a] == sorted[a];
        if b == j {
          assert s[b] == x;
          if a < j - 1 {
            assert Before(images, sorted[a], sorted[j - 1]);
          }
          assert sorted[a] in done;
        } else {
          assert s[b] == sorted[b - 1];
        }
      }
    }
  }
}
