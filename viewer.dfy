/**
 * The viewer of libs/dicom-viewer-rs: it reads a batch of files into the
 * catalog and the image repository, and keeps the navigation state (`MetaData`)
 * that the host displays: the number of images, the number in the current
 * series view, the position in that view and the series filter. Drawing on the
 * canvas is left out, so each rendering operation returns the image it would
 * draw instead.
 */
module Viewer {
  import opened Wrappers
  import opened DicomObjects
  import opened ImageRepo
  import opened Hierarchy

  const NotFiltered: string := "Not filtered"

  datatype MetaData = MetaData(
    total: nat,
    currentIndex: nat,
    seriesTotal: nat,
    currentSeriesInstanceUid: Option<string>)
  {
    /** What the host shows as the current series: the UID, or "Not filtered" when there is none. */
    function GetCurrentSeriesInstanceUid(): (r: string)
      ensures currentSeriesInstanceUid.None? ==> r == NotFiltered
      ensures currentSeriesInstanceUid.Some? ==> r == currentSeriesInstanceUid.value
    {
      match currentSeriesInstanceUid
      case None => NotFiltered
      case Some(uid) => uid
    }
  }

  /** `MetaData::new`: nothing counted, at the start, no series filter. */
  function NewMetaData(): (r: MetaData)
    ensures r.total == 0 && r.currentIndex == 0 && r.seriesTotal == 0
    ensures r.currentSeriesInstanceUid.None? && r.GetCurrentSeriesInstanceUid() == NotFiltered
  {
    MetaData(0, 0, 0, None)
  }

  /** The elements `log_file_infos` unwraps. */
  predicate CanLog(obj: DicomObject) {
    && obj.photometricInterpretation.Some? && obj.columns.Some? && obj.rows.Some?
    && obj.bitsAllocated.Some? && obj.instanceNumber.Some? && obj.sopInstanceUid.Some?
  }

  /** The objects of the files that come before the first file the parser rejects. */
  function ParsedPrefix(files: seq<FileInput>): (objs: seq<DicomObject>)
    ensures |objs| <= |files|
    ensures forall i :: 0 <= i < |objs| ==> files[i] == Parsed(objs[i])
    ensures |objs| < |files| ==> files[|objs|].ParseFailed?
  {
    if |files| == 0 || files[0].ParseFailed? then []
    else [files[0].obj] + ParsedPrefix(files[1..])
  }

  /**
   * `read_files` reaches no `unwrap` of a missing element: every object it
   * gets to (those before the first parse error) can be catalogued and logged.
   */
  predicate CanRead(patients: map<string, Patient>, files: seq<FileInput>) {
    && CanCatalog(patients, ParsedPrefix(files))
    && forall obj :: obj in ParsedPrefix(files) ==> CanLog(obj)
  }

  /** The images `add_image` accepts from `objs`, in order; it silently skips the others. */
  function Ingested(objs: seq<DicomObject>): (r: seq<Image>)
    decreases |objs|
  {
    if |objs| == 0 then []
    else
      var rest := Ingested(objs[..|objs| - 1]);
      match DecodeImage(objs[|objs| - 1])
      case Ok(img) => rest + [img]
      case Err(_) => rest
  }

  /** The repository holds at most one image per object, and exactly one when every object has them all. */
  lemma {:induction false} IngestedCount(objs: seq<DicomObject>)
    ensures |Ingested(objs)| <= |objs|
    ensures (forall i :: 0 <= i < |objs| ==> DecodeImage(objs[i]).Ok?) ==> |Ingested(objs)| == |objs|
  {
    if |objs| > 0 {
      IngestedCount(objs[..|objs| - 1]);
    }
  }

  /** Adding one more object to the catalog is one more `add_patient`. */
  lemma CatalogStep(patients: map<string, Patient>, objs: seq<DicomObject>, i: nat)
    requires i < |objs|
    requires CanCatalog(patients, objs[..i + 1])
    ensures CanCatalog(patients, objs[..i])
    ensures CanAddPatient(Catalog(patients, objs[..i]), objs[i])
    ensures Catalog(patients, objs[..i + 1]) == WithPatient(Catalog(patients, objs[..i]), objs[i])
  {
    assert objs[..i + 1][..i] == objs[..i];
  }

  /** Ingesting one more object appends its image when `add_image` accepts it. */
  lemma IngestedStep(objs: seq<DicomObject>, i: nat)
    requires i < |objs|
    ensures DecodeImage(objs[i]).Ok? ==> Ingested(objs[..i + 1]) == Ingested(objs[..i]) + [DecodeImage(objs[i]).value]
    ensures DecodeImage(objs[i]).Err? ==> Ingested(objs[..i + 1]) == Ingested(objs[..i])
  {
    assert objs[..i + 1][..i] == objs[..i];
  }

  lemma {:induction false} CanCatalogPrefix(patients: map<string, Patient>, objs: seq<DicomObject>, k: nat)
    requires CanCatalog(patients, objs)
    requires k <= |objs|
    ensures CanCatalog(patients, objs[..k])
    decreases |objs|
  {
    if k < |objs| {
      assert objs[..|objs| - 1][..k] == objs[..k];
      CanCatalogPrefix(patients, objs[..|objs| - 1], k);
    } else {
      assert objs[..k] == objs;
    }
  }

  class DicomViewer {
    var metadata: MetaData
    const hierarchy: DicomHierarchy
    const repository: ImageRepository

    constructor ()
      ensures metadata == NewMetaData()
      ensures fresh(hierarchy) && hierarchy.patients == map[]
      ensures fresh(repository) && repository.images == [] && repository.filterIndices == []
      ensures Consistent()
    {
      metadata := NewMetaData();
      hierarchy := new DicomHierarchy();
      repository := new ImageRepository();
    }

    /**
     * The navigation state agrees with the repository: the index is the
     * filtered view for the current series filter, `seriesTotal` is its length,
     * and the position is inside it (or 0 when it is empty).
     */
    ghost predicate Consistent()
      reads this, repository
    {
      && metadata.seriesTotal == |repository.filterIndices|
      && multiset(repository.filterIndices) == multiset(Selection(repository.images, metadata.currentSeriesInstanceUid))
      && OrderedByKey(repository.images, repository.filterIndices)
      && (metadata.currentIndex < metadata.seriesTotal || metadata.currentIndex == 0)
    }

    /** `reset_images`: fresh metadata and an empty image list; the catalog and the index stay. */
    method ResetImages()
      modifies this, repository
      ensures metadata == NewMetaData()
      ensures repository.images == [] && repository.filterIndices == old(repository.filterIndices)
    {
      metadata := NewMetaData();
      repository.ResetImages();
    }

    /**
     * `read_files`: starts a new image list, then adds the files in order to
     * the catalog and to the repository, and stops at the first file the
     * parser rejects, reporting its error. On success the view is every image.
     */
    method ReadFiles(files: seq<FileInput>) returns (r: Result<(), string>)
      requires CanRead(hierarchy.patients, files)
      modifies this, repository, hierarchy
      ensures CanCatalog(old(hierarchy.patients), ParsedPrefix(files))
      ensures hierarchy.patients == Catalog(old(hierarchy.patients), ParsedPrefix(files))
      ensures repository.images == Ingested(ParsedPrefix(files))
      ensures r.Ok? <==> |ParsedPrefix(files)| == |files|
      ensures r.Err? ==> r.error == files[|ParsedPrefix(files)|].message
      ensures r.Err? ==> metadata == NewMetaData() && repository.filterIndices == old(repository.filterIndices)
      ensures r.Ok? ==> metadata == MetaData(|repository.images|, 0, |repository.images|, None)
      ensures r.Ok? ==> Consistent()
    {
      ResetImages();
      ghost var objs := ParsedPrefix(files);
      ghost var before := hierarchy.patients;
      assert before == old(hierarchy.patients);
      var i := 0;
      while i < |files|
        invariant i <= |objs|
        invariant CanCatalog(before, objs[..i])
        invariant hierarchy.patients == Catalog(before, objs[..i])
        invariant repository.images == Ingested(objs[..i])
        invariant metadata == NewMetaData()
        invariant repository.filterIndices == old(repository.filterIndices)
      {
        match files[i]
        case ParseFailed(message) =>
          assert objs[..i] == objs;
          return Err(message);
        case Parsed(obj) =>
          CanCatalogPrefix(before, objs, i + 1);
          CatalogStep(before, objs, i);
          IngestedStep(objs, i);
          hierarchy.AddPatient(obj);
          var added := repository.AddImage(obj);
          i := i + 1;
      }
      assert objs[..i] == objs;
      var count := repository.FilterIndices(metadata.currentSeriesInstanceUid);
      metadata := metadata.(total := count);
      metadata := metadata.(seriesTotal := metadata.total);
      assert metadata.seriesTotal == |repository.filterIndices|;
      return Ok(());
    }

    /** `reset_filter`: the view becomes every image; the position is kept and image 0 is shown. */
    method ResetFilter() returns (shown: Option<Image>)
      modifies this, repository
      ensures repository.images == old(repository.images)
      ensures metadata == old(metadata).(currentSeriesInstanceUid := None, seriesTotal := |repository.images|)
      ensures multiset(repository.filterIndices) == multiset(Selection(repository.images, None))
      ensures OrderedByKey(repository.images, repository.filterIndices)
      ensures shown == repository.GetImageAtIndex(0)
      ensures old(Consistent()) ==> Consistent()
    {
      if Consistent() {
        ViewFitsImages(this);
      }
      metadata := metadata.(currentSeriesInstanceUid := None);
      var count := repository.FilterIndices(metadata.currentSeriesInstanceUid);
      metadata := metadata.(seriesTotal := count);
      assert metadata.seriesTotal == |repository.filterIndices|;
      shown := RenderFileAtIndex(0);
    }

    /**
     * `set_current_series_instance_uid`: shows the first image of the series
     * in arrival order, then makes the view that series, at position 0.
     */
    method SetCurrentSeriesInstanceUid(uid: string) returns (shown: Option<Image>)
      modifies this, repository
      ensures repository.images == old(repository.images)
      ensures shown == repository.GetFirstImageInSeries(uid)
      ensures metadata == old(metadata).(currentSeriesInstanceUid := Some(uid), currentIndex := 0,
                                          seriesTotal := |Selection(repository.images, Some(uid))|)
      ensures Consistent()
    {
      shown := repository.GetFirstImageInSeries(uid);
      metadata := metadata.(currentSeriesInstanceUid := Some(uid));
      metadata := metadata.(currentIndex := 0);
      var count := repository.FilterIndices(metadata.currentSeriesInstanceUid);
      metadata := metadata.(seriesTotal := count);
      assert metadata.seriesTotal == |repository.filterIndices|;
    }

    /** `render_file_at_index`: the image at that position of the view, if there is one. */
    method RenderFileAtIndex(index: nat) returns (shown: Option<Image>)
      ensures shown == repository.GetImageAtIndex(index)
      ensures Consistent() ==> (shown.Some? <==> index < metadata.seriesTotal)
    {
      shown := repository.GetImageAtIndex(index);
      if Consistent() && index < metadata.seriesTotal {
        ghost var s := Selection(repository.images, metadata.currentSeriesInstanceUid);
        assert repository.filterIndices[index] in multiset(s);
      }
    }

    /** `render_next_file`: moves one position forward when the view has an image there. */
    method RenderNextFile() returns (shown: Option<Image>)
      modifies this`metadata
      ensures shown == repository.GetImageAtIndex(old(metadata.currentIndex) + 1)
      ensures metadata == old(metadata).(currentIndex :=
                if shown.Some? then old(metadata.currentIndex) + 1 else old(metadata.currentIndex))
      ensures old(Consistent()) ==> Consistent()
    {
      if Consistent() {
        ShownIsInView(this, metadata.currentIndex + 1);
      }
      metadata := metadata.(currentIndex := metadata.currentIndex + 1);
      shown := repository.GetImageAtIndex(metadata.currentIndex);
      if shown.None? {
        metadata := metadata.(currentIndex := metadata.currentIndex - 1);
        return;
      }
    }

    /** `render_previous_file`: moves one position back, stopping at 0, and shows that image. */
    method RenderPreviousFile() returns (shown: Option<Image>)
      modifies this`metadata
      ensures metadata == old(metadata).(currentIndex :=
                if old(metadata.currentIndex) > 0 then old(metadata.currentIndex) - 1 else 0)
      ensures shown == repository.GetImageAtIndex(metadata.currentIndex)
      ensures old(Consistent()) ==> Consistent()
    {
      metadata := metadata.(currentIndex := if metadata.currentIndex > 0 then metadata.currentIndex - 1 else 0);
      shown := repository.GetImageAtIndex(metadata.currentIndex);
    }
  }

  /** The view of a consistent viewer is no longer than the image list. */
  lemma ViewFitsImages(v: DicomViewer)
    requires v.Consistent()
    ensures v.metadata.seriesTotal <= |v.repository.images|
  {
    var s := Selection(v.repository.images, v.metadata.currentSeriesInstanceUid);
    assert |v.repository.filterIndices| == |multiset(v.repository.filterIndices)| == |multiset(s)| == |s|;
  }

  /** In a consistent viewer, the view has an image exactly at the positions below `seriesTotal`. */
  lemma ShownIsInView(v: DicomViewer, index: nat)
    requires v.Consistent()
    ensures v.repository.GetImageAtIndex(index).Some? <==> index < v.metadata.seriesTotal
  {
  }

  /**
   * In a consistent viewer, walking the view shows the images of the current
   * series (every image when there is no filter), in table-position order;
   * `ViewHasNoRepeats` adds that each is shown once.
   */
  lemma ViewIsSeriesInOrder(v: DicomViewer)
    requires v.Consistent()
    ensures forall i :: 0 <= i < v.metadata.seriesTotal ==>
      && v.repository.GetImageAtIndex(i).Some?
      && (v.metadata.currentSeriesInstanceUid.Some? ==>
            v.repository.GetImageAtIndex(i).value.seriesInstanceUid == v.metadata.currentSeriesInstanceUid.value)
    ensures forall i, j :: 0 <= i < j < v.metadata.seriesTotal ==>
      v.repository.GetImageAtIndex(i).value.tablePosition <= v.repository.GetImageAtIndex(j).value.tablePosition
    ensures forall k: nat :: k < |v.repository.images|
                             && (v.metadata.currentSeriesInstanceUid.None?
                                 || v.repository.images[k].seriesInstanceUid == v.metadata.currentSeriesInstanceUid.value)
                             ==> k in v.repository.filterIndices
  {
    var images, index := v.repository.images, v.repository.filterIndices;
    var s := Selection(images, v.metadata.currentSeriesInstanceUid);
    forall i | 0 <= i < |index|
      ensures v.metadata.currentSeriesInstanceUid.Some? ==>
                images[index[i]].seriesInstanceUid == v.metadata.currentSeriesInstanceUid.value
    {
      assert index[i] in multiset(s);
    }
    forall k: nat | k < |images| && (v.metadata.currentSeriesInstanceUid.None?
                                     || images[k].seriesInstanceUid == v.metadata.currentSeriesInstanceUid.value)
      ensures k in index
    {
      assert k in s;
      assert k in multiset(index);
    }
  }

  /** In a consistent viewer, no image appears twice in the view. */
  lemma ViewHasNoRepeats(v: DicomViewer)
    requires v.Consistent()
    ensures forall i, j :: 0 <= i < j < v.metadata.seriesTotal ==>
      v.repository.filterIndices[i] != v.repository.filterIndices[j]
  {
    forall i, j | 0 <= i < j < v.metadata.seriesTotal
      ensures v.repository.filterIndices[i] != v.repository.filterIndices[j]
    {
      OrderedHasNoDuplicates(v.repository.images, v.repository.filterIndices, i, j);
    }
  }

  /**
   * `set_current_series_instance_uid` shows the first image of the series in
   * arrival order, but view position 0, where it sets the position, holds the
   * image with the lowest table position: here the two differ.
   */
  lemma FirstShownIsNotViewStart(v: DicomViewer, uid: string)
    requires v.Consistent() && v.metadata.currentSeriesInstanceUid == Some(uid)
    requires |v.repository.images| == 2
    requires v.repository.images[0].seriesInstanceUid == uid && v.repository.images[1].seriesInstanceUid == uid
    requires v.repository.images[0].tablePosition == 10 && v.repository.images[1].tablePosition == 5
    ensures v.repository.GetFirstImageInSeries(uid) == Some(v.repository.images[0])
    ensures v.repository.GetImageAtIndex(0) == Some(v.repository.images[1])
  {
    var images := v.repository.images;
    var s := Selection(images, Some(uid));
    assert 0 in s && 1 in s;
    assert s == [0, 1];
    assert OrderedByKey(images, [1, 0]);
    OrderedUnique(images, v.repository.filterIndices, [1, 0]);
  }

  /**
   * A failed `read_files` leaves the index of the previous batch in place: the
   * counts are back at 0, yet that index still maps view positions onto the
   * images of the partial batch, in the previous batch's order, and the
   * viewer is no longer consistent. Here the previous index is `[1, 0]` and
   * two objects were ingested before the parse error.
   */
  lemma StaleIndexAfterFailedRead(v: DicomViewer, a: DicomObject, b: DicomObject)
    requires DecodeImage(a).Ok? && DecodeImage(b).Ok?
    requires v.metadata == NewMetaData()
    requires v.repository.images == Ingested([a, b])
    requires v.repository.filterIndices == [1, 0]
    ensures v.metadata.seriesTotal == 0 && v.metadata.currentIndex == 0
    ensures v.repository.GetImageAtIndex(0) == Some(DecodeImage(b).value)
    ensures v.repository.GetImageAtIndex(1) == Some(DecodeImage(a).value)
    ensures !v.Consistent()
  {
    assert [a, b][..1] == [a] && [a][..0] == [];
    assert Ingested([a]) == Ingested([]) + [DecodeImage(a).value];
    assert Ingested([a, b]) == Ingested([a]) + [DecodeImage(b).value];
  }
}
