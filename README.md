# DICOM viewer core, modelled in Dafny

This project models the Rust core of a browser DICOM viewer (compiled to
WebAssembly) and proves properties of that model. The model has five parts.

- **The image repository** (`ImageRepo`). It keeps the images in arrival order. Each image carries its Series Instance UID and its table position. It also keeps an index list, `filterIndices`, holding the positions of the images in the current series. `FilterIndices` rebuilds that list, and `SortIndices` stably sorts it by table position.
- **The catalog** (`Hierarchy`). It is a patient → study → series → instance tree built from maps keyed by identifiers. `AddPatient` files one object into the tree: at each level it either creates the child from the object or descends into the existing child.
- **The viewer** (`Viewer`). It holds the navigation state (`MetaData`): the number of images, the number in the current series view, the position in that view and the series filter. Its operations are reading a batch of files, filtering by series, resetting the filter, and moving forward and back.
- **The older single-list viewer** (`LegacyViewer`). It is an append-only image list with a position that moves forward and back inside it.
- **The luma → RGBA expansion** (`Renderer`). The byte loop of `render_to_context` turns each input byte into one opaque grey RGBA pixel. The model takes a one-byte-per-pixel input; see "## Left out" for what the source actually passes it.

The source's own form is kept:
- The repository, the catalog and both viewers are classes whose methods update their fields.
- The catalog levels below the root are values, because each one is owned by the map above it.
- Loops stay loops: the catalog walks, the file loops and the byte expansion. The library `sort_by` behind `sort_indices` becomes an insertion-sort loop in `SortIndices`, proved stable and sorted.

Each Rust `unwrap` that would panic on a missing element is a precondition. The `Can…` and `Readable` predicates collect these conditions. Each `?` error is modelled as a `Result`.

Decoded DICOM objects are inputs: `DicomObject` is a record of optional elements. Its `pixels` field stands for the outcome of pixel decoding: `None` means decoding failed. A file that the parser rejects is a `ParseFailed` value carrying the parser's message.

## Model

| member | source | states |
|---|---|---|
| ImageRepo.DecodeImage | libs/dicom-viewer-rs/src/image_repository.rs:51-76 | `add_image` builds an image exactly when the pixels decode and the series UID and table position are present. The errors come in the source's order: decode failure first, then a missing series UID, then a missing table position. The image carries the decoded image's width, height and pixels, and the object's series UID and table position. |
| ImageRepo.AllPositions | libs/dicom-viewer-rs/src/image_repository.rs:33-34 | The unfiltered selection is `0..n` in order, and it holds every position below `n` and nothing else. |
| ImageRepo.SeriesPositions | libs/dicom-viewer-rs/src/image_repository.rs:35-43 | The series selection holds exactly the positions whose image has the given series UID. It holds each position once, in ascending order. |
| ImageRepo.Selection | libs/dicom-viewer-rs/src/image_repository.rs:32-44 | The selected positions are exactly the images that pass the filter, each once and in ascending order. With no filter, the selection has as many entries as there are images. |
| ImageRepo.OrderedIsStableSorted | libs/dicom-viewer-rs/src/image_repository.rs:21-30 | In an index ordered by (table position, arrival position), table positions never decrease, and images with equal table positions keep their arrival order. |
| ImageRepo.OrderedUnique | libs/dicom-viewer-rs/src/image_repository.rs:21-30 | Two ordered indexes with the same entries are equal. So sorting the same selection always gives the same order. |
| ImageRepo.OrderedHasNoDuplicates | libs/dicom-viewer-rs/src/image_repository.rs:33-47 | An ordered index names each image at most once. |
| ImageRepo.FirstInSeries | libs/dicom-viewer-rs/src/image_repository.rs:83-87 | It returns the earliest position in the series, or `None` exactly when no image is in the series. |
| ImageRepo.ImageRepository.constructor | libs/dicom-viewer-rs/src/image_repository.rs:14-19 | A new repository has no images and an empty index. |
| ImageRepo.ImageRepository.SortIndices | libs/dicom-viewer-rs/src/image_repository.rs:21-30 | Sorting an ascending index of valid positions yields a permutation of it that is ordered by table position. Ties keep their arrival order, as the stable `sort_by` does. |
| ImageRepo.ImageRepository.FilterIndices | libs/dicom-viewer-rs/src/image_repository.rs:32-49 | The new index is a permutation of the filter's selection, sorted stably by table position. The returned count is the index's length, which is the size of the selection. |
| ImageRepo.ImageRepository.AddImage | libs/dicom-viewer-rs/src/image_repository.rs:51-76 | On success exactly one image is appended at the end. On each error the image list is unchanged and the error is the one `DecodeImage` names. |
| ImageRepo.ImageRepository.GetImageAtIndex | libs/dicom-viewer-rs/src/image_repository.rs:78-81 | It returns `None` when the index is past the view or maps outside the image list. Otherwise it returns the image the index maps to. |
| ImageRepo.ImageRepository.GetFirstImageInSeries | libs/dicom-viewer-rs/src/image_repository.rs:83-87 | It returns the first image of the series in arrival order, or `None` when the series has no image. |
| ImageRepo.ImageRepository.ResetImages | libs/dicom-viewer-rs/src/image_repository.rs:89-91 | The image list becomes empty and the index is untouched. Afterwards no position of the view shows an image. |
| Hierarchy.Series.AddInstance | libs/dicom-viewer-rs/src/dicom_hierarchy.rs:207-216 | The instance is stored under its SOP instance UID, replacing any instance already there. Other instances and the series metadata are unchanged. |
| Hierarchy.Series.AddInstanceCount | libs/dicom-viewer-rs/src/dicom_hierarchy.rs:207-216 | The instance count grows by one for a new SOP instance UID and stays the same for a known one. |
| Hierarchy.Study.AddSeries | libs/dicom-viewer-rs/src/dicom_hierarchy.rs:141-154 | The object's series is present afterwards and holds its instance. A new series is built from the object. An existing series becomes that series with the object's instance added: its metadata and its other instances are kept, and the object's instance replaces any under the same SOP instance UID. Every other series is unchanged. |
| Hierarchy.Patient.AddStudy | libs/dicom-viewer-rs/src/dicom_hierarchy.rs:107-121 | The object's study is present afterwards and leads to its instance. A new study is built from the object. An existing study becomes that study with the object's series added, so it keeps all its series, instances and metadata. Every other study is unchanged. |
| Hierarchy.NewInstance | libs/dicom-viewer-rs/src/dicom_hierarchy.rs:219-243 | An instance takes the object's Instance Number and its decoded image. |
| Hierarchy.NewSeries | libs/dicom-viewer-rs/src/dicom_hierarchy.rs:157-205 | A new series holds exactly one instance, the object's, and takes its metadata from the object. |
| Hierarchy.NewStudy | libs/dicom-viewer-rs/src/dicom_hierarchy.rs:124-139 | A new study holds exactly one series, the object's new series. |
| Hierarchy.NewPatient | libs/dicom-viewer-rs/src/dicom_hierarchy.rs:99-106 | A new patient holds exactly one study, the object's new study. |
| Hierarchy.WithPatient | libs/dicom-viewer-rs/src/dicom_hierarchy.rs:54-67 | After adding an object, its patient id, study UID, series UID and SOP instance UID lie along one path. The patient keys grow by the object's patient id. A new patient is built from the object; an existing patient becomes that patient with the object's study added. Every other patient is unchanged. |
| Hierarchy.WithPatientKeepsPaths | libs/dicom-viewer-rs/src/dicom_hierarchy.rs:54-67 | Adding an object never removes an instance already in the catalog. |
| Hierarchy.WithPatientKeepsSeriesMetadata | libs/dicom-viewer-rs/src/dicom_hierarchy.rs:148-153 | The first object of a series fixes its metadata. Later objects of that series leave it unchanged. |
| Hierarchy.WithPatientStoresInstance | libs/dicom-viewer-rs/src/dicom_hierarchy.rs:54-67 | After adding an object, the instance at its path is the object's new instance, replacing any earlier instance with the same SOP instance UID. |
| Hierarchy.WithPatientKeepsOtherInstances | libs/dicom-viewer-rs/src/dicom_hierarchy.rs:54-67 | Adding an object leaves the instance at every other path of the catalog unchanged. |
| Hierarchy.CatalogHasEveryObject | libs/dicom-viewer-rs/src/dicom_hierarchy.rs:54-67 | After adding a list of objects one after another, every one of them has its instance in the catalog. |
| Hierarchy.DicomHierarchy.constructor | libs/dicom-viewer-rs/src/dicom_hierarchy.rs:48-52 | A new catalog has no patients. |
| Hierarchy.DicomHierarchy.AddPatient | libs/dicom-viewer-rs/src/dicom_hierarchy.rs:54-67 | The method moves the catalog to `WithPatient` of the old catalog. |
| Hierarchy.DicomHierarchy.GetSeriesByInstanceUid | libs/dicom-viewer-rs/src/dicom_hierarchy.rs:69-79 | It returns `Some` exactly when some study of some patient has a series under that key. The series returned is one of those. |
| Hierarchy.DicomHierarchy.GetAllImages | libs/dicom-viewer-rs/src/dicom_hierarchy.rs:81-96 | It returns exactly one image per instance of the catalog, over all patients, studies and series, with no instance twice. Every image it returns is the image of some instance of the catalog. |
| Hierarchy.CollectPatient | libs/dicom-viewer-rs/src/dicom_hierarchy.rs:83-91 | Gives one image per instance of one patient. |
| Hierarchy.CollectStudy | libs/dicom-viewer-rs/src/dicom_hierarchy.rs:84-90 | Gives one image per instance of one study. |
| Hierarchy.CollectSeries | libs/dicom-viewer-rs/src/dicom_hierarchy.rs:85-89 | Gives one image per instance of one series. |
| Viewer.NewMetaData | libs/dicom-viewer-rs/src/lib.rs:37-44 | Fresh metadata has every count at 0, position 0 and no series filter, and it reports "Not filtered". |
| Viewer.MetaData.GetCurrentSeriesInstanceUid | libs/dicom-viewer-rs/src/lib.rs:46-51 | It returns "Not filtered" when no series is selected, and the selected UID otherwise. |
| Viewer.ParsedPrefix | libs/dicom-viewer-rs/src/lib.rs:78-85 | `try_for_each` reaches the files before the first parse error, in order. That error, if any, is the file right after them. |
| Viewer.IngestedCount | libs/dicom-viewer-rs/src/lib.rs:109-115 | The repository gains at most one image per object it is offered. It gains exactly one per object when every object decodes. |
| Viewer.DicomViewer.constructor | libs/dicom-viewer-rs/src/lib.rs:57-64 | A new viewer has fresh metadata, an empty catalog and an empty repository, and its state is consistent. |
| Viewer.DicomViewer.ResetImages | libs/dicom-viewer-rs/src/lib.rs:198-201 | The metadata is reset and the image list emptied. The catalog and the index are left as they were. |
| Viewer.DicomViewer.ReadFiles | libs/dicom-viewer-rs/src/lib.rs:76-126 | The metadata and the images are reset first. The files before the first parse error go into the catalog and the repository, in order. That error aborts the call, and its message is returned. On success, `total` and `seriesTotal` both equal the number of images, the filter is off, and the view is every image sorted by table position. |
| Viewer.DicomViewer.ResetFilter | libs/dicom-viewer-rs/src/lib.rs:67-73 | The series filter is cleared, and `seriesTotal` becomes the number of images. The position is kept, and the image at view position 0 is shown. |
| Viewer.DicomViewer.SetCurrentSeriesInstanceUid | libs/dicom-viewer-rs/src/lib.rs:137-156 | It shows the first image of the series in arrival order. It then records the UID, moves to position 0 and sets `seriesTotal` to the number of images in the series. The view becomes that series, sorted. |
| Viewer.DicomViewer.RenderFileAtIndex | libs/dicom-viewer-rs/src/lib.rs:128-135 | It shows the image at that view position, if any, and changes nothing. In a consistent viewer there is an image exactly when the position is below `seriesTotal`. |
| Viewer.DicomViewer.RenderNextFile | libs/dicom-viewer-rs/src/lib.rs:158-170 | The position advances by one only if the view has an image there; otherwise it is unchanged. Consistency is kept. |
| Viewer.DicomViewer.RenderPreviousFile | libs/dicom-viewer-rs/src/lib.rs:172-186 | The position decreases by one and saturates at 0. It shows the image there, and consistency is kept. |
| Viewer.StaleIndexAfterFailedRead | libs/dicom-viewer-rs/src/lib.rs:76-119 | After a failed read of two images, an index `[1, 0]` left from the previous batch still shows the second image at position 0 and the first at position 1, though every count is 0; the viewer is then not consistent. |
| Viewer.FirstShownIsNotViewStart | libs/dicom-viewer-rs/src/lib.rs:148-156 | `set_current_series_instance_uid` shows the first image of the series in arrival order, but sets the position to view position 0, the image with the lowest table position. With two images of one series at table positions 10 and 5, the image shown is the first, while position 0 holds the second. |
| Viewer.ViewFitsImages | libs/dicom-viewer-rs/src/lib.rs:149-156 | In a consistent viewer, the view is never longer than the image list. |
| Viewer.ShownIsInView | libs/dicom-viewer-rs/src/lib.rs:158-170 | In a consistent viewer, a view position shows an image exactly when it is below `seriesTotal`. |
| Viewer.ViewIsSeriesInOrder | libs/dicom-viewer-rs/src/lib.rs:149-156 | In a consistent viewer, walking the view shows every image of the current series, and only those. Table positions never decrease along the way. |
| Viewer.ViewHasNoRepeats | libs/dicom-viewer-rs/src/image_repository.rs:32-49 | In a consistent viewer, no image appears at two positions of the view. |
| LegacyViewer.ImageOf | projects/dicom-viewer/src/lib/dicom-viewer-rs/src/lib.rs:40-58 | The image of a file takes its width from Columns, its height from Rows, and its pixels from the decoded data. |
| LegacyViewer.ImagesOf | projects/dicom-viewer/src/lib/dicom-viewer-rs/src/lib.rs:35-63 | A batch gives one image per file, in input order. |
| LegacyViewer.ImagesOfAppend | projects/dicom-viewer/src/lib/dicom-viewer-rs/src/lib.rs:35-63 | Reading two batches gives the images of the first followed by those of the second. |
| LegacyViewer.NextIndex | projects/dicom-viewer/src/lib/dicom-viewer-rs/src/lib.rs:75-86 | The position moves one forward while it is below `len - 1`, and otherwise stays. |
| LegacyViewer.PreviousIndex | projects/dicom-viewer/src/lib/dicom-viewer-rs/src/lib.rs:88-99 | The position moves one back while it is above 0, and otherwise stays. |
| LegacyViewer.MovesStayInList | projects/dicom-viewer/src/lib/dicom-viewer-rs/src/lib.rs:75-99 | Neither move takes a position on the list off it. |
| LegacyViewer.PreviousUndoesNext | projects/dicom-viewer/src/lib/dicom-viewer-rs/src/lib.rs:75-99 | Going back after a forward move that moved returns to the start. |
| LegacyViewer.NextUndoesPrevious | projects/dicom-viewer/src/lib/dicom-viewer-rs/src/lib.rs:75-99 | Going forward after a backward move that moved returns to the start. |
| LegacyViewer.ValidRulesOutIndexPanics | projects/dicom-viewer/src/lib/dicom-viewer-rs/src/lib.rs:66-99 | In a valid viewer the image indexed by `render_previous_file` exists, and on a non-empty list so does the image at the current position. |
| LegacyViewer.DicomViewer.constructor | projects/dicom-viewer/src/lib/dicom-viewer-rs/src/lib.rs:27-32 | A new viewer has no images and is at position 0. |
| LegacyViewer.DicomViewer.ReadFiles | projects/dicom-viewer/src/lib/dicom-viewer-rs/src/lib.rs:35-63 | It appends one image per file in input order and keeps the earlier images. Every file must parse and carry decodable pixels, Columns, Rows, Photometric Interpretation and Bits Allocated, since each is unwrapped. |
| LegacyViewer.DicomViewer.RenderFileAtIndex | projects/dicom-viewer/src/lib/dicom-viewer-rs/src/lib.rs:66-72 | It shows the image at that index, which must exist. The position is unchanged. |
| LegacyViewer.DicomViewer.RenderNextFile | projects/dicom-viewer/src/lib/dicom-viewer-rs/src/lib.rs:75-86 | It requires a non-empty list, because `len() - 1` is unsigned. The position moves forward as `NextIndex` says, and the new image is shown only when it moved. The position stays on the list. |
| LegacyViewer.DicomViewer.RenderPreviousFile | projects/dicom-viewer/src/lib/dicom-viewer-rs/src/lib.rs:88-99 | The position moves back as `PreviousIndex` says and never goes below 0. The new image is shown only when it moved, and the position stays on the list. |
| Renderer.Channel | libs/dicom-viewer-rs/src/renderer.rs:39-44 | One channel of an RGBA buffer holds one byte per pixel, taken from the pixel's group of four at that channel's offset. |
| Renderer.LumaToRgba | libs/dicom-viewer-rs/src/renderer.rs:37-44 | The output is four bytes per input byte. Group `i` is `(l, l, l, 255)` for input byte `l = luma[i]`. The red, green and blue channels are each the input again, in the same order, and every pixel is opaque. |

## Left out

- **DICOM parsing and pixel decoding.** This covers `from_reader`, `decode_pixel_data`, `to_dynamic_image`, the 512×512 nearest-neighbour `resize` and `to_rgba8`. They are library code. A file is given as already parsed or rejected, and an object carries its decoded pixels or `None`. Image width and height are the decoded image's, not those of the `resize` result, which is scaled to fit within 512×512 with its aspect ratio kept.
- **The renderer's input.** `Renderer::render_to_context` loops over `image.image`, which every image builder fills with `to_rgba8()` output: four bytes per pixel (image.rs:6, image_repository.rs:62, lib.rs:108). The loop therefore gives 16 bytes per pixel, against the 4 that its `with_capacity(width * height * 4)` and the `ImageData` constructor expect, and the `unwrap` at renderer.rs:53 would fail. lib.rs also declares no `mod renderer`, so the file is not compiled. `Renderer.LumaToRgba` models the loop on the one-byte-per-pixel input it is written for, which the source never passes.
- **Canvas and browser plumbing.** This covers `render_to_context` in both viewers, `Renderer::new`, `clear_canvas`, the JavaScript array copies, `get_metadata`, `get_dicom_hierarchy`, `log_file_infos` output and tracing. Each rendering operation returns the image it would draw instead of drawing it.
- **The single-list viewer's `render_to_context`.** It declares its parameters as `(height, width)` and is called with `(width, height)`, so a non-square image reaches the canvas with its sides swapped. The model stops before the canvas and does not capture this.
- **The TypeScript user interface and the timing wrapper in debug.rs.** Both are outside the Rust core.
- **The volumetric (multi-planar) path.** Its implementation is not part of this model.
- **Floating-point table positions.** They are modelled as integers: they are only compared, and NaN, which `partial_cmp` maps to "equal", is not modelled.
- **HashMap iteration order.** The catalog walks take keys in an arbitrary order. `GetAllImages` is stated up to order, and `GetSeriesByInstanceUid` returns one of the matching series when a series UID sits under two studies.
- **The viewer's `add_image` call.** libs/dicom-viewer-rs/src/lib.rs:109-115 calls `add_image` with five arguments. The repository's `add_image` (image_repository.rs:51-76) takes the object. Its last argument, where the table position would go, is the Instance Number (lib.rs:97-101, 114), so as written the viewer's view would be ordered by Instance Number. The model uses the repository's own operation instead, keyed by table position, and discards its `Result` as the call does. As a consequence, a parsed object without a Table Position still goes into the catalog but gets no image (`Viewer.Ingested`), so `total` can be smaller than the number of files read. The five-argument call as written passes values already unwrapped and has no such failure path. Likewise `add_patient` is called with a reference where it takes the object by value; the model passes the object.
- **The decode `?` in the viewer's `read_files`.** At lib.rs:88-90 it cannot fail once `add_patient` has run, because `Instance::new` already unwrapped the same decode. Decoding is therefore part of the precondition, not an error path.
- **Viewer.DicomViewer.ReadFiles:** the catalog is not reset by `read_files` (faithful to the source). Its precondition also covers the elements `log_file_infos` unwraps: Photometric Interpretation, Columns, Rows, Bits Allocated, Instance Number and SOP Instance UID.
- **ImageRepo.ImageRepository.SortIndices:** stability is stated for an ascending input, which is what its only caller passes. For an arbitrary input, sorting by table position alone is not pinned down.
- **ImageRepo.ImageRepository.ResetImages:** the index is left stale, as in the source. Right after `reset_images` no view position shows an image, because every stale entry is out of range. But `read_files` adds images after the reset, and a parse error returns before `filter_indices` runs. The previous batch's index then maps view positions onto the partial batch, in the previous batch's order, while `series_total` is 0. `RenderNextFile` can then move past `series_total`. `Viewer.StaleIndexAfterFailedRead` shows such a state.
- **LegacyViewer.DicomViewer.ReadFiles:** a batch that panics part-way is not modelled. The precondition requires every file to be readable.
- **Integer widths.** Positions and counts are unbounded naturals. The overflow of `current_index += 1` at `usize::MAX` is out of reach in practice and is not modelled.
