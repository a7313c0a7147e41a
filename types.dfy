/** Format mapping for shader vertex inputs (src/utils/types.cpp): GLSL type
    names and SPIR-V reflection types to the `vk::Format` of one attribute. */
module Types {
  import opened Vk
  import opened Wrappers

  /** The channel count a GLSL type name stands for, or 0 for a name the
      engine does not know. Matrices count like the vectors of their
      column length; scalars, whatever their type, are one channel. */
  function GlslWidth(name: string): nat
  {
    if name in {"float", "bool", "int", "uint"} then 1
    else if name in {"vec2", "bvec2", "ivec2", "uvec2", "mat2", "dmat2"} then 2
    else if name in {"vec3", "bvec3", "ivec3", "uvec3", "mat3", "dmat3"} then 3
    else if name in {"vec4", "bvec4", "ivec4", "uvec4", "mat4", "dmat4"} then 4
    else 0
  }

  /** `FormatFromString` as written: the comparison for the two-component
      signed vector is against "ivec2 " with a trailing space. */
  function FormatFromString(format: string): (r: Result<Format>)
    ensures r.Ok? ==> r.value.Channels? && r.value.kind == Sfloat && r.value.bits == 32
    ensures r.Ok? <==> (GlslWidth(format) > 0 && format != "ivec2") || format == "ivec2 "
    ensures r.Ok? && format != "ivec2 " ==> r.value.count == GlslWidth(format)
  {
    if format == "float" || format == "bool" || format == "int" || format == "uint" then
      Ok(Channels(Sfloat, 32, 1))
    else if format == "vec2" || format == "bvec2" || format == "ivec2 " || format == "uvec2" then
      Ok(Channels(Sfloat, 32, 2))
    else if format == "vec3" || format == "bvec3" || format == "ivec3" || format == "uvec3" then
      Ok(Channels(Sfloat, 32, 3))
    else if format == "vec4" || format == "bvec4" || format == "ivec4" || format == "uvec4" then
      Ok(Channels(Sfloat, 32, 4))
    else if format == "mat2" || format == "dmat2" then
      Ok(Channels(Sfloat, 32, 2))
    else if format == "mat3" || format == "dmat3" then
      Ok(Channels(Sfloat, 32, 3))
    else if format == "mat4" || format == "dmat4" then
      Ok(Channels(Sfloat, 32, 4))
    else
      Err("Unknown format")
  }

  /** The trailing space makes "ivec2" an unknown format while its padded
      spelling is accepted. */
  lemma IvecTwoRejected()
    ensures FormatFromString("ivec2").Err?
    ensures FormatFromString("ivec2 ") == Ok(Channels(Sfloat, 32, 2))
    ensures FormatFromString("ivec3") == Ok(Channels(Sfloat, 32, 3))
  {
    assert "ivec2" != "ivec2 " by { assert |"ivec2"| != |"ivec2 "|; }
  }

  /** `FormatFromString` as evidently intended: every known name maps to
      the 32-bit float format with its channel count. */
  function FormatFromName(format: string): (r: Result<Format>)
    ensures r.Ok? <==> GlslWidth(format) > 0
    ensures r.Ok? ==> r.value == Channels(Sfloat, 32, GlslWidth(format))
  {
    var width := GlslWidth(format);
    if width == 0 then Err("Unknown format") else Ok(Channels(Sfloat, 32, width))
  }

  /** The intended mapping accepts the signed vectors of every width, and
      agrees with the written one on every other name. */
  lemma FormatFromNameAgrees(format: string)
    ensures format != "ivec2" && format != "ivec2 " ==> FormatFromName(format) == FormatFromString(format)
    ensures FormatFromName("ivec2") == Ok(Channels(Sfloat, 32, 2))
  {
  }

  /** Matrix types, single or double precision, take the format of the
      vector of their column length. */
  lemma MatricesAsVectors(n: nat)
    requires 2 <= n <= 4
    ensures FormatFromString(["mat2", "mat3", "mat4"][n - 2]) == FormatFromString(["vec2", "vec3", "vec4"][n - 2])
    ensures FormatFromString(["dmat2", "dmat3", "dmat4"][n - 2]) == FormatFromString(["vec2", "vec3", "vec4"][n - 2])
  {
  }

  /** `spirv_cross::SPIRType::BaseType`; the scalar types the converter
      supports, and every other base type as an opaque code. */
  datatype BaseType = Float | Double | SByte | UByte | Short | UShort | Int | UInt | OtherBase(code: nat)

  /** The parts of a reflected `SPIRType` the converter reads. */
  datatype SpirType = SpirType(baseType: BaseType, vecsize: nat, columns: nat)

  /** Whether the converter has a format family for a base type. */
  predicate Supported(base: BaseType)
  {
    !base.OtherBase?
  }

  /** The numeric kind and channel width of a supported base type. */
  function KindOf(base: BaseType): NumericKind
  {
    match base
    case Float | Double => Sfloat
    case SByte | Short | Int => Sint
    case UByte | UShort | UInt | OtherBase(_) => Uint
  }

  function BitsOf(base: BaseType): nat
  {
    match base
    case SByte | UByte => 8
    case Short | UShort => 16
    case Float | Int | UInt | OtherBase(_) => 32
    case Double => 64
  }

  /** `SPIRTypeToVkFormatConverter`: matrices are refused, each supported
      base type has one format per vector size from one to four, and
      everything else is `Undefined`. */
  function SpirTypeToFormat(t: SpirType): (r: Format)
    ensures r != Undefined <==> t.columns <= 1 && Supported(t.baseType) && 1 <= t.vecsize <= 4
    ensures r != Undefined ==> r == Channels(KindOf(t.baseType), BitsOf(t.baseType), t.vecsize)
  {
    if t.columns > 1 then Undefined
    else
      match t.baseType
      case Float => ByRows(t.vecsize, Channels(Sfloat, 32, 1), Channels(Sfloat, 32, 2), Channels(Sfloat, 32, 3), Channels(Sfloat, 32, 4))
      case Double => ByRows(t.vecsize, Channels(Sfloat, 64, 1), Channels(Sfloat, 64, 2), Channels(Sfloat, 64, 3), Channels(Sfloat, 64, 4))
      case SByte => ByRows(t.vecsize, Channels(Sint, 8, 1), Channels(Sint, 8, 2), Channels(Sint, 8, 3), Channels(Sint, 8, 4))
      case UByte => ByRows(t.vecsize, Channels(Uint, 8, 1), Channels(Uint, 8, 2), Channels(Uint, 8, 3), Channels(Uint, 8, 4))
      case Short => ByRows(t.vecsize, Channels(Sint, 16, 1), Channels(Sint, 16, 2), Channels(Sint, 16, 3), Channels(Sint, 16, 4))
      case UShort => ByRows(t.vecsize, Channels(Uint, 16, 1), Channels(Uint, 16, 2), Channels(Uint, 16, 3), Channels(Uint, 16, 4))
      case Int => ByRows(t.vecsize, Channels(Sint, 32, 1), Channels(Sint, 32, 2), Channels(Sint, 32, 3), Channels(Sint, 32, 4))
      case UInt => ByRows(t.vecsize, Channels(Uint, 32, 1), Channels(Uint, 32, 2), Channels(Uint, 32, 3), Channels(Uint, 32, 4))
      case OtherBase(_) => Undefined
  }

  /** One inner switch of the converter: the format for one to four rows. */
  function ByRows(rows: nat, one: Format, two: Format, three: Format, four: Format): Format
  {
    if rows == 1 then one
    else if rows == 2 then two
    else if rows == 3 then three
    else if rows == 4 then four
    else Undefined
  }

  /** The two converters agree on float vectors: the reflected float vector
      of size n and the GLSL name of that vector give the same format. */
  lemma FloatVectorsAgree(n: nat)
    requires 1 <= n <= 4
    ensures FormatFromString(["float", "vec2", "vec3", "vec4"][n - 1]) == Ok(SpirTypeToFormat(SpirType(Float, n, 1)))
  {
  }
}
