/**
 * Packed `GfxFormat` codes and their translation to WebGL2 enums.
 *
 * A format code packs three bytes: the scalar type in bits 16-23, the
 * component layout in bits 8-15 and flags (NORMALIZED among them) in bits
 * 0-7. The numeric values of the type, component and flag enumerations are
 * defined in GfxPlatformImpl, which is not part of this model, so they are a
 * parameter (`FormatCodes`) constrained only to give distinct members
 * distinct bytes. The named formats (F32_R, ..., U8_RGBA) are the codes that
 * their names describe.
 */
module GfxFormat {

  import opened GfxErrors
  import opened WebGL2

  /** A packed `GfxFormat` value; `>>>` works on its 32-bit unsigned form. */
  type Format = bv32

  datatype TypeFlag = U8 | U16 | U32 | S8 | S16 | S32 | F32
  datatype CompFlag = CompR | CompRG | CompRGB | CompRGBA
  datatype NamedFormat = F32_R | F32_RG | F32_RGB | F32_RGBA | U16_R | U8_RGBA

  /** The byte values of `FormatTypeFlags`, `FormatCompFlags`, `FormatFlags.NORMALIZED`,
    * and the flags byte of each named format. */
  datatype FormatCodes = FormatCodes(
    typeCode: TypeFlag -> bv8,
    compCode: CompFlag -> bv8,
    normalizedBit: bv8,
    namedFlags: NamedFormat -> bv8)

  /** Distinct enumeration members have distinct byte values (stated pair by pair). */
  predicate ValidCodes(codes: FormatCodes) {
    DistinctTypeCodes(codes.typeCode) && DistinctCompCodes(codes.compCode)
  }

  predicate DistinctTypeCodes(tc: TypeFlag -> bv8) {
    && tc(U8) != tc(U16) && tc(U8) != tc(U32) && tc(U8) != tc(S8)
    && tc(U8) != tc(S16) && tc(U8) != tc(S32) && tc(U8) != tc(F32)
    && tc(U16) != tc(U32) && tc(U16) != tc(S8) && tc(U16) != tc(S16)
    && tc(U16) != tc(S32) && tc(U16) != tc(F32) && tc(U32) != tc(S8)
    && tc(U32) != tc(S16) && tc(U32) != tc(S32) && tc(U32) != tc(F32)
    && tc(S8) != tc(S16) && tc(S8) != tc(S32) && tc(S8) != tc(F32)
    && tc(S16) != tc(S32) && tc(S16) != tc(F32) && tc(S32) != tc(F32)
  }

  predicate DistinctCompCodes(cc: CompFlag -> bv8) {
    && cc(CompR) != cc(CompRG) && cc(CompR) != cc(CompRGB) && cc(CompR) != cc(CompRGBA)
    && cc(CompRG) != cc(CompRGB) && cc(CompRG) != cc(CompRGBA) && cc(CompRGB) != cc(CompRGBA)
  }

  lemma TypeCodeInjective(codes: FormatCodes, t1: TypeFlag, t2: TypeFlag)
    requires ValidCodes(codes)
    requires codes.typeCode(t1) == codes.typeCode(t2)
    ensures t1 == t2
  {
  }

  lemma CompCodeInjective(codes: FormatCodes, c1: CompFlag, c2: CompFlag)
    requires ValidCodes(codes)
    requires codes.compCode(c1) == codes.compCode(c2)
    ensures c1 == c2
  {
  }

  // ---------------------------------------------------------------- bytes

  function TypeByte(fmt: Format): bv8 { ((fmt >> 16) & 0xFF) as bv8 }
  function CompByte(fmt: Format): bv8 { ((fmt >> 8) & 0xFF) as bv8 }
  function FlagsByte(fmt: Format): bv8 { (fmt & 0xFF) as bv8 }

  /** Packs three bytes into a format code. */
  function MakeFormat(t: bv8, c: bv8, f: bv8): Format {
    ((t as bv32) << 16) | ((c as bv32) << 8) | (f as bv32)
  }

  /** The extractors give the packed bytes back, and the top byte stays clear. */
  lemma MakeFormatBytes(t: bv8, c: bv8, f: bv8)
    ensures TypeByte(MakeFormat(t, c, f)) == t && CompByte(MakeFormat(t, c, f)) == c && FlagsByte(MakeFormat(t, c, f)) == f
    ensures MakeFormat(t, c, f) >> 24 == 0
  {
  }

  function NamedType(nf: NamedFormat): TypeFlag {
    match nf
    case F32_R => F32
    case F32_RG => F32
    case F32_RGB => F32
    case F32_RGBA => F32
    case U16_R => U16
    case U8_RGBA => U8
  }

  function NamedComp(nf: NamedFormat): CompFlag {
    match nf
    case F32_R => CompR
    case F32_RG => CompRG
    case F32_RGB => CompRGB
    case F32_RGBA => CompRGBA
    case U16_R => CompR
    case U8_RGBA => CompRGBA
  }

  /** The code of a named `GfxFormat` constant. */
  function FormatCode(codes: FormatCodes, nf: NamedFormat): Format {
    MakeFormat(codes.typeCode(NamedType(nf)), codes.compCode(NamedComp(nf)), codes.namedFlags(nf))
  }

  /** A named format's code carries its type and component bytes. */
  lemma FormatCodeBytes(codes: FormatCodes, nf: NamedFormat)
    ensures TypeByte(FormatCode(codes, nf)) == codes.typeCode(NamedType(nf))
    ensures CompByte(FormatCode(codes, nf)) == codes.compCode(NamedComp(nf))
  {
    MakeFormatBytes(codes.typeCode(NamedType(nf)), codes.compCode(NamedComp(nf)), codes.namedFlags(nf));
  }

  /** Distinct named formats have distinct codes. */
  lemma FormatCodeInjective(codes: FormatCodes, a: NamedFormat, b: NamedFormat)
    requires ValidCodes(codes)
    ensures FormatCode(codes, a) == FormatCode(codes, b) <==> a == b
  {
    if FormatCode(codes, a) == FormatCode(codes, b) {
      FormatCodeBytes(codes, a);
      FormatCodeBytes(codes, b);
      TypeCodeInjective(codes, NamedType(a), NamedType(b));
      CompCodeInjective(codes, NamedComp(a), NamedComp(b));
    }
  }

  // ---------------------------------------------------------------- enum decoding

  /** The `switch (typeFlags)` of a type byte: the first member whose value it equals. */
  function DecodeTypeFlags(codes: FormatCodes, b: bv8): (r: Option<TypeFlag>)
    ensures r.Some? ==> codes.typeCode(r.value) == b
  {
    if b == codes.typeCode(U8) then Some(U8)
    else if b == codes.typeCode(U16) then Some(U16)
    else if b == codes.typeCode(U32) then Some(U32)
    else if b == codes.typeCode(S8) then Some(S8)
    else if b == codes.typeCode(S16) then Some(S16)
    else if b == codes.typeCode(S32) then Some(S32)
    else if b == codes.typeCode(F32) then Some(F32)
    else None
  }

  /** The decoding finds a member exactly when the byte is some member's value, and then
    * (values being distinct) that member. */
  lemma DecodeTypeFlagsComplete(codes: FormatCodes, b: bv8)
    ensures DecodeTypeFlags(codes, b).None? <==> forall t :: codes.typeCode(t) != b
    ensures ValidCodes(codes) ==> forall t :: codes.typeCode(t) == b ==> DecodeTypeFlags(codes, b) == Some(t)
  {
    if DecodeTypeFlags(codes, b).None? {
      TypeCodeMissed(codes, b);
    }
    if ValidCodes(codes) {
      forall t | codes.typeCode(t) == b ensures DecodeTypeFlags(codes, b) == Some(t) {
        match t
        case U8 => case U16 => case U32 => case S8 => case S16 => case S32 => case F32 =>
      }
    }
  }

  lemma TypeCodeMissed(codes: FormatCodes, b: bv8)
    requires b != codes.typeCode(U8) && b != codes.typeCode(U16) && b != codes.typeCode(U32)
    requires b != codes.typeCode(S8) && b != codes.typeCode(S16) && b != codes.typeCode(S32)
    requires b != codes.typeCode(F32)
    ensures forall t :: codes.typeCode(t) != b
  {
    forall t ensures codes.typeCode(t) != b {
      match t
      case U8 => case U16 => case U32 => case S8 => case S16 => case S32 => case F32 =>
    }
  }

  /** The `switch (compFlags)` of a component byte. */
  function DecodeCompFlags(codes: FormatCodes, b: bv8): (r: Option<CompFlag>)
    ensures r.Some? ==> codes.compCode(r.value) == b
  {
    if b == codes.compCode(CompR) then Some(CompR)
    else if b == codes.compCode(CompRG) then Some(CompRG)
    else if b == codes.compCode(CompRGB) then Some(CompRGB)
    else if b == codes.compCode(CompRGBA) then Some(CompRGBA)
    else None
  }

  lemma DecodeCompFlagsComplete(codes: FormatCodes, b: bv8)
    ensures DecodeCompFlags(codes, b).None? <==> forall c :: codes.compCode(c) != b
    ensures ValidCodes(codes) ==> forall c :: codes.compCode(c) == b ==> DecodeCompFlags(codes, b) == Some(c)
  {
    if DecodeCompFlags(codes, b).None? {
      CompCodeMissed(codes, b);
    }
    if ValidCodes(codes) {
      forall c | codes.compCode(c) == b ensures DecodeCompFlags(codes, b) == Some(c) {
        match c
        case CompR => case CompRG => case CompRGB => case CompRGBA =>
      }
    }
  }

  lemma CompCodeMissed(codes: FormatCodes, b: bv8)
    requires b != codes.compCode(CompR) && b != codes.compCode(CompRG)
    requires b != codes.compCode(CompRGB) && b != codes.compCode(CompRGBA)
    ensures forall c :: codes.compCode(c) != b
  {
    forall c ensures codes.compCode(c) != b {
      match c
      case CompR => case CompRG => case CompRGB => case CompRGBA =>
    }
  }

  // ---------------------------------------------------------------- vertex formats

  /** `translateType` inside `translateVertexFormat`: unsigned flags give unsigned GL
    * types, F32 alone gives FLOAT (its inverse is `TypeFlagOf`). */
  function TranslateType(t: TypeFlag): (g: GLType)
    ensures t in {U8, U16, U32} <==> g in {UnsignedByte, UnsignedShort, UnsignedInt}
    ensures t == F32 <==> g == Float
  {
    match t
    case U8 => UnsignedByte
    case U16 => UnsignedShort
    case U32 => UnsignedInt
    case S8 => Byte
    case S16 => Short
    case S32 => Int
    case F32 => Float
  }

  /** The scalar type a GL type names: `TranslateType` loses nothing. */
  function TypeFlagOf(g: GLType): (t: TypeFlag)
    ensures TranslateType(t) == g
  {
    match g
    case UnsignedByte => U8
    case UnsignedShort => U16
    case UnsignedInt => U32
    case Byte => S8
    case Short => S16
    case Int => S32
    case Float => F32
  }

  /** `translateSize` inside `translateVertexFormat`: the component count. */
  function ComponentCount(c: CompFlag): (n: nat)
    ensures 1 <= n <= 4
  {
    match c
    case CompR => 1
    case CompRG => 2
    case CompRGB => 3
    case CompRGBA => 4
  }

  /** The result of `translateVertexFormat`; a `switch` that matches no case yields
    * `undefined`, here `None`. */
  datatype VertexFormat = VertexFormat(size: Option<nat>, glType: Option<GLType>, normalized: bool)

  function TranslateVertexFormat(codes: FormatCodes, fmt: Format): (vf: VertexFormat)
    ensures vf.size.Some? ==> 1 <= vf.size.value <= 4
  {
    var typeFlags := DecodeTypeFlags(codes, TypeByte(fmt));
    var compFlags := DecodeCompFlags(codes, CompByte(fmt));
    VertexFormat(
      if compFlags.Some? then Some(ComponentCount(compFlags.value)) else None,
      if typeFlags.Some? then Some(TranslateType(typeFlags.value)) else None,
      FlagsByte(fmt) & codes.normalizedBit != 0)
  }

  /** The size is defined (and between 1 and 4) exactly when the component byte is a
    * known component layout, the GL type exactly when the type byte is a known type. */
  lemma VertexFormatDefined(codes: FormatCodes, fmt: Format)
    ensures TranslateVertexFormat(codes, fmt).size.Some? ==> 1 <= TranslateVertexFormat(codes, fmt).size.value <= 4
    ensures TranslateVertexFormat(codes, fmt).size.Some? <==> exists c :: codes.compCode(c) == CompByte(fmt)
    ensures TranslateVertexFormat(codes, fmt).glType.Some? <==> exists t :: codes.typeCode(t) == TypeByte(fmt)
  {
    DecodeTypeFlagsComplete(codes, TypeByte(fmt));
    DecodeCompFlagsComplete(codes, CompByte(fmt));
  }

  /** Each field of the translation depends on exactly one byte of the code:
    * size on bits 8-15, type on bits 16-23, `normalized` on the NORMALIZED bit. */
  lemma {:induction false} VertexFormatOfFields(codes: FormatCodes, t: TypeFlag, c: CompFlag, flags: bv8)
    requires ValidCodes(codes)
    ensures TranslateVertexFormat(codes, MakeFormat(codes.typeCode(t), codes.compCode(c), flags))
         == VertexFormat(Some(ComponentCount(c)), Some(TranslateType(t)), flags & codes.normalizedBit != 0)
  {
    var fmt := MakeFormat(codes.typeCode(t), codes.compCode(c), flags);
    MakeFormatBytes(codes.typeCode(t), codes.compCode(c), flags);
    DecodeTypeFlagsComplete(codes, TypeByte(fmt));
    DecodeCompFlagsComplete(codes, CompByte(fmt));
    assert DecodeTypeFlags(codes, TypeByte(fmt)) == Some(t);
    assert DecodeCompFlags(codes, CompByte(fmt)) == Some(c);
  }

  /** Two codes with the same component byte get the same size. */
  lemma VertexSizeFromCompByte(codes: FormatCodes, f1: Format, f2: Format)
    requires CompByte(f1) == CompByte(f2)
    ensures TranslateVertexFormat(codes, f1).size == TranslateVertexFormat(codes, f2).size
  {
  }

  /** Two codes with the same type byte get the same GL type. */
  lemma VertexTypeFromTypeByte(codes: FormatCodes, f1: Format, f2: Format)
    requires TypeByte(f1) == TypeByte(f2)
    ensures TranslateVertexFormat(codes, f1).glType == TranslateVertexFormat(codes, f2).glType
  {
  }

  /** Two codes with the same flags byte agree on `normalized`. */
  lemma VertexNormalizedFromFlagsByte(codes: FormatCodes, f1: Format, f2: Format)
    requires FlagsByte(f1) == FlagsByte(f2)
    ensures TranslateVertexFormat(codes, f1).normalized == TranslateVertexFormat(codes, f2).normalized
  {
  }

  // ---------------------------------------------------------------- index formats

  /** `translateIndexFormat`: only U16_R is supported; anything else, `null` included, throws. */
  function TranslateIndexFormat(codes: FormatCodes, fmt: Option<Format>): (r: Result<GLType>)
    ensures r.Ok? <==> fmt == Some(FormatCode(codes, U16_R))
    ensures r.Ok? ==> r.value == UnsignedShort
    ensures r.Err? ==> r.failure == Whoops
  {
    match fmt
    case Some(f) => if f == FormatCode(codes, U16_R) then Ok(UnsignedShort) else Err(Whoops)
    case None => Err(Whoops)
  }

  /** Byte width of one component of the type flag. */
  function TypeByteWidth(t: TypeFlag): nat {
    match t
    case U8 => 1
    case S8 => 1
    case U16 => 2
    case S16 => 2
    case U32 => 4
    case S32 => 4
    case F32 => 4
  }

  /** `getFormatCompByteSize`: byte width of one component of a format. */
  function FormatCompByteSize(codes: FormatCodes, fmt: Format): (r: Option<nat>)
    ensures r.Some? ==> r.value in {1, 2, 4}
  {
    match DecodeTypeFlags(codes, TypeByte(fmt))
    case Some(t) => Some(TypeByteWidth(t))
    case None => None
  }

  /** The only index format the backend accepts has two-byte components. */
  lemma IndexFormatCompByteSize(codes: FormatCodes)
    requires ValidCodes(codes)
    ensures FormatCompByteSize(codes, FormatCode(codes, U16_R)) == Some(2)
  {
    MakeFormatBytes(codes.typeCode(U16), codes.compCode(CompR), codes.namedFlags(U16_R));
    assert TypeByte(FormatCode(codes, U16_R)) == codes.typeCode(U16);
    DecodeTypeFlagsComplete(codes, codes.typeCode(U16));
  }

  // ---------------------------------------------------------------- texture formats

  /** `translateTextureInternalFormat`: an explicit table over six named formats. */
  function TranslateTextureInternalFormat(codes: FormatCodes, fmt: Format): (r: Result<InternalFormat>)
    ensures r.Err? ==> r.failure == Whoops
  {
    if fmt == FormatCode(codes, F32_R) then Ok(R32F)
    else if fmt == FormatCode(codes, F32_RG) then Ok(RG32F)
    else if fmt == FormatCode(codes, F32_RGB) then Ok(RGB32F)
    else if fmt == FormatCode(codes, F32_RGBA) then Ok(RGBA32F)
    else if fmt == FormatCode(codes, U16_R) then Ok(R16UI)
    else if fmt == FormatCode(codes, U8_RGBA) then Ok(RGBA8)
    else Err(Whoops)
  }

  /** The table holds exactly the named formats. */
  lemma TextureInternalFormatDefined(codes: FormatCodes, fmt: Format)
    ensures TranslateTextureInternalFormat(codes, fmt).Ok? <==> exists nf :: fmt == FormatCode(codes, nf)
  {
    if TranslateTextureInternalFormat(codes, fmt).Err? {
      forall nf ensures fmt != FormatCode(codes, nf) {
        match nf
        case F32_R => case F32_RG => case F32_RGB => case F32_RGBA => case U16_R => case U8_RGBA =>
      }
    }
  }

  /** The storage format each named format is given: the table of
    * `TranslateTextureInternalFormat` written per name, the reference against which
    * `TextureInternalFormatOfNamed` checks that no earlier case shadows a later one. */
  function InternalFormatOf(nf: NamedFormat): InternalFormat {
    match nf
    case F32_R => R32F
    case F32_RG => RG32F
    case F32_RGB => RGB32F
    case F32_RGBA => RGBA32F
    case U16_R => R16UI
    case U8_RGBA => RGBA8
  }

  /** The lookup agrees with the table: each named format gets its own storage format. */
  lemma {:induction false} TextureInternalFormatOfNamed(codes: FormatCodes, nf: NamedFormat)
    requires ValidCodes(codes)
    ensures TranslateTextureInternalFormat(codes, FormatCode(codes, nf)) == Ok(InternalFormatOf(nf))
  {
    // each row before nf's own is passed over
    match nf
    case F32_R =>
    case F32_RG =>
      FormatCodeInjective(codes, F32_R, nf);
    case F32_RGB =>
      FormatCodeInjective(codes, F32_R, nf);
      FormatCodeInjective(codes, F32_RG, nf);
    case F32_RGBA =>
      FormatCodeInjective(codes, F32_R, nf);
      FormatCodeInjective(codes, F32_RG, nf);
      FormatCodeInjective(codes, F32_RGB, nf);
    case U16_R =>
      FormatCodeInjective(codes, F32_R, nf);
      FormatCodeInjective(codes, F32_RG, nf);
      FormatCodeInjective(codes, F32_RGB, nf);
      FormatCodeInjective(codes, F32_RGBA, nf);
    case U8_RGBA =>
      FormatCodeInjective(codes, F32_R, nf);
      FormatCodeInjective(codes, F32_RG, nf);
      FormatCodeInjective(codes, F32_RGB, nf);
      FormatCodeInjective(codes, F32_RGBA, nf);
      FormatCodeInjective(codes, U16_R, nf);
  }

  /** `translateTextureFormat`: the transfer format from the component byte (no default case). */
  function TranslateTextureFormat(codes: FormatCodes, fmt: Format): Option<TransferFormat> {
    match DecodeCompFlags(codes, CompByte(fmt))
    case Some(CompR) => Some(Red)
    case Some(CompRG) => Some(RG)
    case Some(CompRGB) => Some(RGB)
    case Some(CompRGBA) => Some(RGBA)
    case None => None
  }

  /** A transfer format is found exactly when the component byte is a known layout. */
  lemma TextureFormatDefined(codes: FormatCodes, fmt: Format)
    ensures TranslateTextureFormat(codes, fmt).Some? <==> exists c :: codes.compCode(c) == CompByte(fmt)
  {
    DecodeCompFlagsComplete(codes, CompByte(fmt));
  }

  /** `translateTextureType`: only U8 textures are supported. */
  function TranslateTextureType(codes: FormatCodes, fmt: Format): (r: Result<GLType>)
    ensures r.Ok? <==> TypeByte(fmt) == codes.typeCode(U8)
    ensures r.Ok? ==> r.value == UnsignedByte
    ensures r.Err? ==> r.failure == Whoops
  {
    if TypeByte(fmt) == codes.typeCode(U8) then Ok(UnsignedByte) else Err(Whoops)
  }

  /** The three lookups `createTexture` makes, in its order; the first throw wins. */
  datatype TextureFormats = TextureFormats(internalFormat: InternalFormat, transfer: Option<TransferFormat>, glType: GLType)

  function TranslateTextureFormats(codes: FormatCodes, fmt: Format): (r: Result<TextureFormats>)
    ensures r.Ok? ==> TypeByte(fmt) == codes.typeCode(U8) && r.value.glType == UnsignedByte
    ensures r.Err? ==> r.failure == Whoops
  {
    match TranslateTextureInternalFormat(codes, fmt)
    case Err(e) => Err(e)
    case Ok(internalFormat) =>
      var transfer := TranslateTextureFormat(codes, fmt);
      match TranslateTextureType(codes, fmt)
      case Err(e) => Err(e)
      case Ok(glType) => Ok(TextureFormats(internalFormat, transfer, glType))
  }

  /** Texture creation accepts exactly one format: only U8_RGBA is both in the
    * internal-format table and of type U8. */
  lemma {:induction false} TextureFormatsIffU8RGBA(codes: FormatCodes, fmt: Format)
    requires ValidCodes(codes)
    ensures TranslateTextureFormats(codes, fmt).Ok? <==> fmt == FormatCode(codes, U8_RGBA)
    ensures fmt == FormatCode(codes, U8_RGBA) ==>
      TranslateTextureFormats(codes, fmt) == Ok(TextureFormats(RGBA8, Some(RGBA), UnsignedByte))
  {
    if TranslateTextureFormats(codes, fmt).Ok? {
      TextureFormatsOnlyU8(codes, fmt);
    }
    if fmt == FormatCode(codes, U8_RGBA) {
      TextureFormatsOfU8RGBA(codes);
    }
  }

  lemma TextureFormatsOnlyU8(codes: FormatCodes, fmt: Format)
    requires ValidCodes(codes)
    requires TranslateTextureFormats(codes, fmt).Ok?
    ensures fmt == FormatCode(codes, U8_RGBA)
  {
    TextureInternalFormatDefined(codes, fmt);
    var nf :| fmt == FormatCode(codes, nf);
    FormatCodeBytes(codes, nf);
    TypeCodeInjective(codes, NamedType(nf), U8);
    assert nf == U8_RGBA;
  }

  lemma TextureFormatsOfU8RGBA(codes: FormatCodes)
    requires ValidCodes(codes)
    ensures TranslateTextureFormats(codes, FormatCode(codes, U8_RGBA)) == Ok(TextureFormats(RGBA8, Some(RGBA), UnsignedByte))
  {
    var fmt := FormatCode(codes, U8_RGBA);
    TextureInternalFormatOfNamed(codes, U8_RGBA);
    MakeFormatBytes(codes.typeCode(U8), codes.compCode(CompRGBA), codes.namedFlags(U8_RGBA));
    DecodeCompFlagsComplete(codes, CompByte(fmt));
    assert DecodeCompFlags(codes, CompByte(fmt)) == Some(CompRGBA);
  }
}
