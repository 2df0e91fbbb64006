/** Size limits every decoded image passes, and the image value that carries them. */
module ImageLimits {
  import opened Options
  import opened Bytes

  const MAX_IMAGE_DIMENSION: nat := 16384
  const MAX_IMAGE_PIXELS: nat := 64 * 1024 * 1024

  /** Byte length of an RGBA buffer, or nothing if the image must be refused. What is accepted
      fits in 2^28 bytes, so no later arithmetic on it can overflow. */
  function RgbaLen(width: nat, height: nat): (len: Option<nat>)
    ensures len.Some? ==> 1 <= width && 1 <= height && len.value == 4 * (width * height) && len.value <= 0x1000_0000
    ensures len.None? <==> width == 0 || height == 0 || width > 16384 || height > 16384 || width * height > 67108864
  {
    if width == 0 || height == 0 || width > MAX_IMAGE_DIMENSION || height > MAX_IMAGE_DIMENSION then None
    else if width * height > MAX_IMAGE_PIXELS then None
    else Some(width * height * 4)
  }

  /** The limits at work: a common screen, the longest side, the largest area. */
  lemma {:induction false} LimitInstances()
    ensures RgbaLen(1920, 1080) == Some(8294400)
    ensures RgbaLen(16384, 4096) == Some(0x1000_0000) && RgbaLen(16384, 4097) == None
    ensures RgbaLen(16384, 1) == Some(65536) && RgbaLen(16385, 1) == None && RgbaLen(0, 1) == None
  {
  }

  datatype Image = Image(width: nat, height: nat, pixels: seq<byte>, imageId: nat, winHeadDist: nat)

  /** The invariant of an image: its buffer is exactly as long as its dimensions say. */
  predicate ValidImage(i: Image) {
    RgbaLen(i.width, i.height) == Some(|i.pixels|)
  }

  /** Build an image, refusing a buffer that disagrees with the dimensions. */
  function NewGlz(width: nat, height: nat, pixels: seq<byte>, imageId: nat, winHeadDist: nat): (r: Option<Image>)
    ensures r.Some? ==> ValidImage(r.value)
  {
    if RgbaLen(width, height) != Some(|pixels|) then None
    else Some(Image(width, height, pixels, imageId, winHeadDist))
  }
}
