/**
 * The older single-list viewer of projects/dicom-viewer: every file read is
 * appended to one image list, and a position in that list moves forward and
 * back. Each `unwrap` and each direct index of the Rust code is a panic, so
 * the conditions under which it does not fire are preconditions here.
 * Drawing on the canvas is left out: the rendering operations return the
 * image they would draw.
 */
module LegacyViewer {
  import opened Wrappers
  import opened DicomObjects

  /** An image of the list: the size read from Columns and Rows, and the decoded pixels. */
  datatype LegacyImage = LegacyImage(width: u32, height: u32, image: seq<byte>)

  /**
   * What `read_files` and `log_file_infos` unwrap for one file: the parse,
   * the pixel decode, Columns, Rows, Photometric Interpretation and Bits Allocated.
   */
  predicate Readable(file: FileInput) {
    && file.Parsed?
    && file.obj.pixels.Some?
    && file.obj.columns.Some? && file.obj.rows.Some?
    && file.obj.photometricInterpretation.Some? && file.obj.bitsAllocated.Some?
  }

  /** The image `read_files` builds from one readable file. */
  function ImageOf(file: FileInput): (img: LegacyImage)
    requires Readable(file)
    ensures img.width == file.obj.columns.value && img.height == file.obj.rows.value
    ensures img.image == file.obj.pixels.value.data
  {
    LegacyImage(file.obj.columns.value, file.obj.rows.value, file.obj.pixels.value.data)
  }

  /** The images of a batch of readable files, one per file and in input order. */
  function ImagesOf(files: seq<FileInput>): (r: seq<LegacyImage>)
    requires forall i :: 0 <= i < |files| ==> Readable(files[i])
    ensures |r| == |files|
    ensures forall i :: 0 <= i < |files| ==> r[i] == ImageOf(files[i])
  {
    if |files| == 0 then []
    else ImagesOf(files[..|files| - 1]) + [ImageOf(files[|files| - 1])]
  }

  /** Reading two batches one after the other gives the images of both, in order. */
  lemma {:induction false} ImagesOfAppend(a: seq<FileInput>, b: seq<FileInput>)
    requires forall i :: 0 <= i < |a| ==> Readable(a[i])
    requires forall i :: 0 <= i < |b| ==> Readable(b[i])
    ensures forall i :: 0 <= i < |a + b| ==> Readable((a + b)[i])
    ensures ImagesOf(a + b) == ImagesOf(a) + ImagesOf(b)
  {
    var ab := a + b;
    forall i | 0 <= i < |ab|
      ensures Readable(ab[i])
    {
      if i < |a| {
        assert ab[i] == a[i];
      } else {
        assert ab[i] == b[i - |a|];
      }
    }
    var l, r := ImagesOf(ab), ImagesOf(a) + ImagesOf(b);
    assert |l| == |r|;
    forall i | 0 <= i < |l|
      ensures l[i] == r[i]
    {
      if i < |a| {
        assert ab[i] == a[i];
      } else {
        assert ab[i] == b[i - |a|];
      }
    }
  }

  /** Where `render_next_file` moves: one further unless already at the last image. */
  function NextIndex(index: nat, count: nat): (r: nat)
    requires count > 0
    ensures index < count - 1 ==> r == index + 1
    ensures index >= count - 1 ==> r == index
  {
    if index < count - 1 then index + 1 else index
  }

  /** Where `render_previous_file` moves: one back unless already at 0. */
  function PreviousIndex(index: nat): (r: nat)
    ensures index > 0 ==> r + 1 == index
    ensures index == 0 ==> r == 0
  {
    if index > 0 then index - 1 else index
  }

  /** Neither move leaves the list: a position on the list stays on it. */
  lemma MovesStayInList(index: nat, count: nat)
    requires index < count
    ensures NextIndex(index, count) < count
    ensures PreviousIndex(index) < count
  {
  }

  /** Going back undoes going forward whenever going forward moved. */
  lemma PreviousUndoesNext(index: nat, count: nat)
    requires count > 0 && index < count - 1
    ensures PreviousIndex(NextIndex(index, count)) == index
  {
  }

  /** Going forward undoes going back whenever going back moved and the list has room. */
  lemma NextUndoesPrevious(index: nat, count: nat)
    requires 0 < index < count
    ensures NextIndex(PreviousIndex(index), count) == index
  {
  }

  /**
   * A valid viewer never reaches an index panic: the image `render_previous_file`
   * indexes exists, and on a non-empty list so does the image at the position.
   */
  lemma ValidRulesOutIndexPanics(v: DicomViewer)
    requires v.Valid()
    ensures v.currentIndex == 0 || v.currentIndex - 1 < |v.images|
    ensures |v.images| > 0 ==> v.currentIndex < |v.images|
  {
  }

  class DicomViewer {
    var images: seq<LegacyImage>
    var currentIndex: nat

    /** The position is on the list, or 0 while the list is empty. */
    ghost predicate Valid()
      reads this
    {
      currentIndex < |images| || currentIndex == 0
    }

    /** `new`: no images, at position 0. */
    constructor ()
      ensures images == [] && currentIndex == 0
      ensures Valid()
    {
      images := [];
      currentIndex := 0;
    }

    /** `read_files`: appends one image per file, in input order; earlier images stay. */
    method ReadFiles(files: seq<FileInput>)
      requires forall i :: 0 <= i < |files| ==> Readable(files[i])
      modifies this`images
      ensures images == old(images) + ImagesOf(files)
      ensures old(Valid()) ==> Valid()
    {
      var i := 0;
      while i < |files|
        invariant i <= |files|
        invariant images == old(images) + ImagesOf(files[..i])
      {
        assert files[..i + 1][..i] == files[..i];
        images := images + [ImageOf(files[i])];
        i := i + 1;
      }
      assert files[..i] == files;
    }

    /** `render_file_at_index`: the image at that position of the list, which must exist. */
    method RenderFileAtIndex(index: nat) returns (shown: LegacyImage)
      requires index < |images|
      ensures shown == images[index]
    {
      shown := images[index];
    }

    /**
     * `render_next_file`: moves one further and shows that image, unless the
     * position is already the last one; the list must not be empty, since
     * `len() - 1` is computed on an unsigned integer.
     */
    method RenderNextFile() returns (shown: Option<LegacyImage>)
      requires |images| > 0
      modifies this`currentIndex
      ensures currentIndex == NextIndex(old(currentIndex), |images|)
      ensures shown.Some? <==> currentIndex != old(currentIndex)
      ensures shown.Some? ==> currentIndex < |images| && shown.value == images[currentIndex]
      ensures old(Valid()) ==> Valid()
    {
      var upperLimit := |images| - 1;
      shown := None;
      if currentIndex < upperLimit {
        currentIndex := currentIndex + 1;
        shown := Some(images[currentIndex]);
      }
    }

    /**
     * `render_previous_file`: moves one back and shows that image, unless the
     * position is already 0; the image must exist.
     */
    method RenderPreviousFile() returns (shown: Option<LegacyImage>)
      requires currentIndex == 0 || currentIndex - 1 < |images|
      modifies this`currentIndex
      ensures currentIndex == PreviousIndex(old(currentIndex))
      ensures shown.Some? <==> currentIndex != old(currentIndex)
      ensures shown.Some? ==> currentIndex < |images| && shown.value == images[currentIndex]
      ensures old(Valid()) ==> Valid()
    {
      shown := None;
      if currentIndex > 0 {
        currentIndex := currentIndex - 1;
        shown := Some(images[currentIndex]);
      }
    }
  }
}
