/**
 * The byte loop in `Renderer::render_to_context`: every byte of the input
 * buffer becomes one opaque grey pixel of the output, in the same order. The
 * loop is written for a one-byte-per-pixel (luma) input; it is modelled on
 * such a buffer, whatever the buffer the caller hands it holds.
 */
module Renderer {
  import opened DicomObjects

  const Opaque: byte := 255

  /** Every fourth byte of an RGBA buffer, starting at `channel`: one channel of every pixel. */
  function Channel(rgba: seq<byte>, channel: nat): (r: seq<byte>)
    requires |rgba| % 4 == 0 && channel < 4
    ensures |r| == |rgba| / 4
    ensures forall i :: 0 <= i < |r| ==> r[i] == rgba[4 * i + channel]
  {
    if |rgba| == 0 then []
    else Channel(rgba[..|rgba| - 4], channel) + [rgba[|rgba| - 4 + channel]]
  }

  /**
   * Expands each luma byte `l` into the pixel `(l, l, l, 255)`. The red, green
   * and blue channels of the result are the input again, and every pixel is opaque.
   */
  method LumaToRgba(luma: seq<byte>) returns (rgba: seq<byte>)
    ensures |rgba| == 4 * |luma|
    ensures forall i :: 0 <= i < |luma| ==>
      rgba[4 * i] == luma[i] && rgba[4 * i + 1] == luma[i] && rgba[4 * i + 2] == luma[i] && rgba[4 * i + 3] == Opaque
    ensures Channel(rgba, 0) == luma && Channel(rgba, 1) == luma && Channel(rgba, 2) == luma
    ensures forall i :: 0 <= i < |luma| ==> Channel(rgba, 3)[i] == Opaque
  {
    rgba := [];
    var i := 0;
    while i < |luma|
      invariant i <= |luma|
      invariant |rgba| == 4 * i
      invariant forall k :: 0 <= k < i ==>
        rgba[4 * k] == luma[k] && rgba[4 * k + 1] == luma[k] && rgba[4 * k + 2] == luma[k] && rgba[4 * k + 3] == Opaque
    {
      var l := luma[i];
      PixelsKept(rgba, [l, l, l, Opaque], i);
      rgba := rgba + [l, l, l, Opaque];
      i := i + 1;
    }
  }

  /** Appending a pixel leaves the earlier bytes where they were and puts the pixel after them. */
  lemma PixelsKept(rgba: seq<byte>, pixel: seq<byte>, n: nat)
    requires |rgba| == 4 * n && |pixel| == 4
    ensures forall k :: 0 <= k < 4 * n ==> (rgba + pixel)[k] == rgba[k]
    ensures forall c :: 0 <= c < 4 ==> (rgba + pixel)[4 * n + c] == pixel[c]
  {
  }
}
