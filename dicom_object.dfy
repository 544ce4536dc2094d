/**
 * The decoded DICOM object as the core sees it. Parsing the file and decoding
 * its pixel data are done by foreign libraries; what remains is a record of the
 * elements the core reads, each of which may be missing (or fail to convert to
 * the type the core asks for, which the core treats the same way).
 */
module DicomObjects {
  import opened Wrappers

  newtype byte = x: int | 0 <= x < 0x100
  newtype u16 = x: int | 0 <= x < 0x1_0000
  newtype u32 = x: int | 0 <= x < 0x1_0000_0000

  /** A decoded frame: an opaque payload with its dimensions. */
  datatype Pixels = Pixels(width: u32, height: u32, data: seq<byte>)

  datatype DicomObject = DicomObject(
    patientId: Option<string>,
    studyInstanceUid: Option<string>,
    seriesInstanceUid: Option<string>,
    sopInstanceUid: Option<string>,
    seriesNumber: Option<u16>,
    seriesDate: Option<string>,
    seriesTime: Option<string>,
    modality: Option<string>,
    bodyPartExamined: Option<string>,
    instanceNumber: Option<u16>,
    tablePosition: Option<int>,
    photometricInterpretation: Option<string>,
    columns: Option<u32>,
    rows: Option<u32>,
    bitsAllocated: Option<u16>,
    /** decode_pixel_data followed by to_dynamic_image(0); None when either fails */
    pixels: Option<Pixels>)

  /** One input file: the parser either produced an object or an error message. */
  datatype FileInput = Parsed(obj: DicomObject) | ParseFailed(message: string)
}
