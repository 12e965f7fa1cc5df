/**
 * The render types used to draw text effects (underline and strikethrough
 * quads): which of the three types a call selects, and the lifecycle of the
 * shared white texture they sample. The GPU is reduced to the state the code
 * touches: the current 2D texture binding, each texture's filters and contents,
 * and the textures released so far.
 */
module EffectRender {
  import opened Options

  /** The three effect render types: plain, see-through and polygon-offset. */
  datatype EffectType = Plain | SeeThroughType | PolygonOffsetType

  /** Font.DisplayMode. */
  datatype DisplayMode = Normal | SeeThrough | PolygonOffset

  /** Texture filters; a new GL texture starts with the defaults below. */
  datatype Filter = Nearest | Linear | NearestMipmapLinear

  datatype FilterParam = MagFilter | MinFilter

  /** Why creating the white texture failed; either is a fatal NullPointerException. */
  datatype Fatal = NoImageDesc | NoImage

  const WIDTH: nat := 8
  const HEIGHT: nat := 8
  /** ColorInfo.bytesPerPixel(CT_RGBA_8888). */
  const BYTES_PER_PIXEL: nat := 4

  /**
   * The type selected from the two flags: polygon offset takes precedence over
   * see-through, and with neither flag the plain type is used.
   */
  function Select(seeThrough: bool, polygonOffset: bool): (t: EffectType)
    ensures t == PolygonOffsetType <==> polygonOffset
    ensures t == SeeThroughType <==> seeThrough && !polygonOffset
    ensures t == Plain <==> !seeThrough && !polygonOffset
  {
    if polygonOffset then PolygonOffsetType else if seeThrough then SeeThroughType else Plain
  }

  /** The type selected from a display mode; it agrees with the flag form. */
  function ForMode(mode: DisplayMode): (t: EffectType)
    ensures t == Select(mode == SeeThrough, mode == PolygonOffset)
  {
    match mode
    case SeeThrough => SeeThroughType
    case PolygonOffset => PolygonOffsetType
    case Normal => Plain
  }

  /** Every display mode's type is one the flag form can select, and conversely. */
  lemma ForModeCoversSelect(seeThrough: bool, polygonOffset: bool)
    ensures exists mode :: ForMode(mode) == Select(seeThrough, polygonOffset)
  {
    if polygonOffset {
      assert ForMode(PolygonOffset) == Select(seeThrough, polygonOffset);
    } else if seeThrough {
      assert ForMode(SeeThrough) == Select(seeThrough, polygonOffset);
    } else {
      assert ForMode(Normal) == Select(seeThrough, polygonOffset);
    }
  }

  /** The contents uploaded into the white texture: 8 x 8 RGBA8 pixels, every byte 0xFF. */
  function WhitePixels(): (bytes: seq<int>)
    ensures |bytes| == WIDTH * HEIGHT * BYTES_PER_PIXEL == 256
    ensures forall i :: 0 <= i < |bytes| ==> bytes[i] == 0xFF
  {
    seq(WIDTH * HEIGHT * BYTES_PER_PIXEL, _ => 0xFF)
  }

  /** MemoryUtil.memSet: every byte of the buffer becomes `value`. */
  method MemSet(buffer: array<int>, value: int)
    modifies buffer
    ensures forall i :: 0 <= i < buffer.Length ==> buffer[i] == value
  {
    for i := 0 to buffer.Length
      invariant forall j :: 0 <= j < i ==> buffer[j] == value
    {
      buffer[i] := value;
    }
  }

  /** The shared white texture and the GL state its creation touches. */
  class EffectTextures {
    /** WHITE: the handle of the shared texture, if it exists. */
    var white: Option<nat>
    /** GL_TEXTURE_BINDING_2D. */
    var boundTexture: nat
    var magFilter: map<nat, Filter>
    var minFilter: map<nat, Filter>
    /** What each texture holds. */
    var pixels: map<nat, seq<int>>
    /** Textures whose reference was dropped, in order. */
    var released: seq<nat>

    /** The shared texture, when it exists, is white and filtered with NEAREST both ways. */
    ghost predicate Valid()
      reads this
    {
      white.Some? ==>
        && white.value in pixels && pixels[white.value] == WhitePixels()
        && white.value in magFilter && magFilter[white.value] == Nearest
        && white.value in minFilter && minFilter[white.value] == Nearest
    }

    constructor (boundTexture: nat)
      ensures Valid()
      ensures white == None && this.boundTexture == boundTexture
      ensures magFilter == map[] && minFilter == map[] && pixels == map[] && released == []
    {
      white := None;
      this.boundTexture := boundTexture;
      magFilter, minFilter, pixels := map[], map[], map[];
      released := [];
    }

    /** glBindTexture(GL_TEXTURE_2D, texture). */
    method BindTexture(texture: nat)
      modifies this`boundTexture
      ensures boundTexture == texture
    {
      boundTexture := texture;
    }

    /** glTexParameteri on the texture currently bound; no other texture changes. */
    method TexParameter(param: FilterParam, value: Filter)
      modifies this`magFilter, this`minFilter
      ensures param == MagFilter ==> magFilter == old(magFilter)[boundTexture := value] && minFilter == old(minFilter)
      ensures param == MinFilter ==> minFilter == old(minFilter)[boundTexture := value] && magFilter == old(magFilter)
    {
      if param == MagFilter {
        magFilter := magFilter[boundTexture := value];
      } else {
        minFilter := minFilter[boundTexture := value];
      }
    }

    /**
     * Creates the white texture. `descAvailable` is whether the device offers an
     * image descriptor for 8 x 8 RGBA8, and `image` is the texture the resource
     * provider hands back, if any; when either is missing the call fails and WHITE
     * stays unset. Otherwise the texture is filled with white, gets NEAREST filters
     * while bound, and the binding that was current before is restored.
     */
    method MakeWhiteTexture(descAvailable: bool, image: Option<nat>) returns (r: Result<nat, Fatal>)
      requires white == None
      modifies this`white, this`boundTexture, this`magFilter, this`minFilter, this`pixels
      ensures Valid()
      ensures !descAvailable ==> r == Failure(NoImageDesc)
      ensures descAvailable && image.None? ==> r == Failure(NoImage)
      ensures r.Failure? ==>
        && white == None && boundTexture == old(boundTexture) && pixels == old(pixels)
        && magFilter == old(magFilter) && minFilter == old(minFilter)
      ensures descAvailable && image.Some? ==>
        var h := image.value;
        && r == Success(h)
        && white == Some(h)
        && pixels == old(pixels)[h := WhitePixels()]
        && magFilter == old(magFilter)[h := Nearest]
        && minFilter == old(minFilter)[h := Nearest]
        && boundTexture == old(boundTexture)
    {
      if !descAvailable {
        return Failure(NoImageDesc);
      }
      if image.None? {
        return Failure(NoImage);
      }
      var h := image.value;
      white := Some(h);
      var buffer := new int[WIDTH * HEIGHT * BYTES_PER_PIXEL];
      MemSet(buffer, 0xFF);
      assert buffer[..] == WhitePixels();
      pixels := pixels[h := buffer[..]];

      var previous := boundTexture;
      BindTexture(h);
      TexParameter(MagFilter, Nearest);
      TexParameter(MinFilter, Nearest);
      BindTexture(previous);
      r := Success(h);
    }

    /**
     * getRenderType(seeThrough, polygonOffset): creates the white texture when it
     * does not exist, then selects the type. After a successful call WHITE is set;
     * an existing texture is kept and nothing else changes.
     */
    method GetRenderType(seeThrough: bool, polygonOffset: bool, descAvailable: bool, image: Option<nat>)
      returns (r: Result<EffectType, Fatal>)
      requires Valid()
      modifies this`white, this`boundTexture, this`magFilter, this`minFilter, this`pixels
      ensures Valid()
      ensures r.Success? ==> r.value == Select(seeThrough, polygonOffset) && white.Some?
      ensures old(white).Some? ==>
        && r == Success(Select(seeThrough, polygonOffset))
        && white == old(white) && boundTexture == old(boundTexture) && pixels == old(pixels)
        && magFilter == old(magFilter) && minFilter == old(minFilter)
      ensures old(white).None? ==>
        (r.Success? <==> descAvailable && image.Some?) &&
        (r.Success? ==> white == image && pixels == old(pixels)[image.value := WhitePixels()])
      ensures old(white).None? && r.Success? ==>
        magFilter == old(magFilter)[image.value := Nearest] && minFilter == old(minFilter)[image.value := Nearest]
      ensures r.Failure? ==>
        && white == None && r.error == (if !descAvailable then NoImageDesc else NoImage)
        && pixels == old(pixels) && magFilter == old(magFilter) && minFilter == old(minFilter)
      ensures boundTexture == old(boundTexture) && released == old(released)
    {
      if white.None? {
        var made := MakeWhiteTexture(descAvailable, image);
        if made.Failure? {
          return Failure(made.error);
        }
      }
      r := Success(Select(seeThrough, polygonOffset));
    }

    /**
     * clear(): drops the reference to the white texture, releasing it, and leaves
     * WHITE unset so that the next getRenderType creates it again.
     */
    method Clear()
      requires Valid()
      modifies this`white, this`released
      ensures Valid()
      ensures white == None
      ensures released == old(released) + (if old(white).Some? then [old(white).value] else [])
    {
      if white.Some? {
        released := released + [white.value];
      }
      white := None;
    }
  }
}
