/** OpenGL 2D textures: pixel-format selection from the channel count, the
    whole-image size check of `setData`, the loaded flag and texture equality. */
module Texture {
  import opened Wrappers

  const GL_RGBA8: bv32 := 0x8058
  const GL_RGBA: bv32 := 0x1908
  const GL_RGB8: bv32 := 0x8051
  const GL_RGB: bv32 := 0x1907

  /** `uint32_t` arithmetic wraps modulo 2^32. */
  const UINT32_MODULUS: nat := 0x1_0000_0000

  /** The state of `_isLoaded`, which is written only on a successful decode. */
  datatype LoadFlag = Loaded | NotLoaded | Indeterminate

  datatype Texture2D = Texture2D(
    path: string,
    width: nat,
    height: nat,
    rendererId: nat,
    internalFormat: bv32,
    dataFormat: bv32,
    loadFlag: LoadFlag)

  /** What the image decoder hands back for a file it could read. */
  datatype Image = Image(width: nat, height: nat, channels: int)

  /** The pair (internal format, data format) chosen for a channel count;
      any count other than 4 or 3 leaves both at 0. */
  function FormatsFor(channels: int): (r: (bv32, bv32))
    ensures channels == 4 ==> r == (GL_RGBA8, GL_RGBA)
    ensures channels == 3 ==> r == (GL_RGB8, GL_RGB)
    ensures channels != 3 && channels != 4 ==> r == (0, 0)
  {
    if channels == 4 then (GL_RGBA8, GL_RGBA)
    else if channels == 3 then (GL_RGB8, GL_RGB)
    else (0, 0)
  }

  /** The "Format not supported" check: the two formats share a set bit. */
  predicate FormatSupported(internalFormat: bv32, dataFormat: bv32) {
    internalFormat & dataFormat != 0
  }

  /** The bitwise check accepts exactly the 3- and 4-channel images. */
  lemma FormatCheckAcceptsThreeOrFourChannels(channels: int)
    ensures var (i, d) := FormatsFor(channels);
      FormatSupported(i, d) <==> channels == 3 || channels == 4
  {
    assert GL_RGBA8 & GL_RGBA == 0x8;
    assert GL_RGB8 & GL_RGB == 0x1;
  }

  /** Whatever the members the path constructor never writes on a failed
      decode hold: `_width`, `_height` and `_renderedId` have no initialiser,
      so their values are an input, not a default. */
  datatype Unset = Unset(width: nat, height: nat, rendererId: nat)

  /** The constructor from a file path, as the source writes it. `decoded` is
      the decoder's answer, `id` the texture name the driver hands out, and
      `unset` what the unwritten members hold. A failed decode writes only the
      path and the two zero formats: width, height and id keep whatever they
      held, and the loaded flag stays unwritten. The format check is a debug
      assertion, so an unsupported channel count still yields a texture (with
      both formats 0). */
  function FromFileAsWritten(path: string, decoded: Option<Image>, id: nat, unset: Unset): (t: Texture2D)
    ensures t.path == path
    ensures decoded.Some? ==>
      && t.loadFlag == Loaded
      && t.width == decoded.value.width
      && t.height == decoded.value.height
      && t.rendererId == id
      && (t.internalFormat, t.dataFormat) == FormatsFor(decoded.value.channels)
    ensures decoded.None? ==>
      && t.loadFlag == Indeterminate && t.internalFormat == 0 && t.dataFormat == 0
      && t.width == unset.width && t.height == unset.height && t.rendererId == unset.rendererId
  {
    match decoded
    case Some(img) =>
      var (i, d) := FormatsFor(img.channels);
      Texture2D(path, img.width, img.height, id, i, d, Loaded)
    case None => Texture2D(path, unset.width, unset.height, unset.rendererId, 0, 0, Indeterminate)
  }

  /** Whether two textures whose decode failed compare equal is decided by
      the values their unwritten ids happen to hold, whatever their paths. */
  lemma FailedTexturesCompareByUnsetId(p: string, q: string, id: nat, id2: nat, u: Unset, u2: Unset)
    ensures Equals(FromFileAsWritten(p, None, id, u), OpenGLTexture(FromFileAsWritten(q, None, id2, u2)))
      <==> u.rendererId == u2.rendererId
  {
  }

  /** The same constructor with the loaded flag initialised to false. */
  function FromFile(path: string, decoded: Option<Image>, id: nat, unset: Unset): (t: Texture2D)
    ensures t.loadFlag == Loaded <==> decoded.Some?
    ensures t.loadFlag != Indeterminate
    ensures t.path == path
    ensures decoded.Some? ==>
      && t.width == decoded.value.width
      && t.height == decoded.value.height
      && t.rendererId == id
      && (t.internalFormat, t.dataFormat) == FormatsFor(decoded.value.channels)
    ensures t == FromFileAsWritten(path, decoded, id, unset).(loadFlag := t.loadFlag)
  {
    var t := FromFileAsWritten(path, decoded, id, unset);
    if t.loadFlag == Indeterminate then t.(loadFlag := NotLoaded) else t
  }

  /** The (width, height) constructor always picks RGBA8/RGBA; as written it
      never sets the loaded flag either. */
  function FromSizeAsWritten(width: nat, height: nat, id: nat): (t: Texture2D)
    ensures t.width == width && t.height == height && t.rendererId == id
    ensures t.internalFormat == GL_RGBA8 && t.dataFormat == GL_RGBA
    ensures t.loadFlag == Indeterminate
  {
    Texture2D("", width, height, id, GL_RGBA8, GL_RGBA, Indeterminate)
  }

  /** The (width, height) constructor with the flag initialised to false. */
  function FromSize(width: nat, height: nat, id: nat): (t: Texture2D)
    ensures t.width == width && t.height == height && t.rendererId == id
    ensures FormatSupported(t.internalFormat, t.dataFormat)
    ensures t.loadFlag == NotLoaded
  {
    FormatCheckAcceptsThreeOrFourChannels(4);
    FromSizeAsWritten(width, height, id).(loadFlag := NotLoaded)
  }

  /** `isLoaded()`: `None` when the flag was never written (an indeterminate read). */
  function IsLoaded(t: Texture2D): (r: Option<bool>)
    ensures r.None? <==> t.loadFlag == Indeterminate
    ensures r == Some(true) <==> t.loadFlag == Loaded
  {
    match t.loadFlag
    case Loaded => Some(true)
    case NotLoaded => Some(false)
    case Indeterminate => None
  }

  /** A failed decode leaves `isLoaded()` reading an unwritten flag. */
  lemma FailedLoadFlagIsIndeterminate(path: string, id: nat, unset: Unset)
    ensures IsLoaded(FromFileAsWritten(path, None, id, unset)).None?
    ensures IsLoaded(FromSizeAsWritten(1, 1, id)).None?
  {
  }

  /** With the flag initialised, `isLoaded()` always answers, and answers
      true exactly when decoding succeeded. */
  lemma LoadedFlagIsDefined(path: string, decoded: Option<Image>, id: nat, unset: Unset)
    ensures IsLoaded(FromFile(path, decoded, id, unset)) == Some(decoded.Some?)
  {
  }

  /** Bytes per pixel as `setData` computes it: 4 for RGBA data, 3 otherwise. */
  function BytesPerPixel(t: Texture2D): (bpp: nat)
    ensures bpp == 4 <==> t.dataFormat == GL_RGBA
    ensures bpp == 3 <==> t.dataFormat != GL_RGBA
  {
    if t.dataFormat == GL_RGBA then 4 else 3
  }

  /** The `setData` check: the size must cover the whole image, with the
      product taken in 32-bit unsigned arithmetic. */
  predicate SetDataSizeOk(t: Texture2D, size: nat) {
    size == (t.width * t.height * BytesPerPixel(t)) % UINT32_MODULUS
  }

  /** For images whose byte count fits in 32 bits the check is exact, and a
      one-pixel RGBA texture accepts the four bytes of one `uint32_t`. */
  lemma SetDataSizeCheck(t: Texture2D, size: nat)
    requires t.width * t.height * BytesPerPixel(t) < UINT32_MODULUS
    ensures SetDataSizeOk(t, size) <==> size == t.width * t.height * BytesPerPixel(t)
    ensures SetDataSizeOk(FromSize(1, 1, t.rendererId), 4)
    ensures !SetDataSizeOk(FromSize(1, 1, t.rendererId), 3)
  {
  }

  /** Whatever the other side of `operator==` is: another OpenGL texture, or a
      texture of some other back end. */
  datatype AnyTexture = OpenGLTexture(tex: Texture2D) | OtherBackend(id: nat)

  /** `operator==`: equal iff the other texture is an OpenGL texture with the same
      renderer id; nothing else about the two is compared. */
  predicate Equals(self: Texture2D, other: AnyTexture) {
    other.OpenGLTexture? && other.tex.rendererId == self.rendererId
  }

  /** Equality is reflexive and symmetric on OpenGL textures, transitive through
      them, never holds against another back end, and ignores path and size. */
  lemma EqualsIsAnEquivalence(a: Texture2D, b: Texture2D, c: Texture2D, n: nat)
    ensures Equals(a, OpenGLTexture(a))
    ensures Equals(a, OpenGLTexture(b)) <==> Equals(b, OpenGLTexture(a))
    ensures Equals(a, OpenGLTexture(b)) && Equals(b, OpenGLTexture(c)) ==> Equals(a, OpenGLTexture(c))
    ensures !Equals(a, OtherBackend(n))
    ensures Equals(a, OpenGLTexture(b)) <==> a.rendererId == b.rendererId
  {
  }
}
