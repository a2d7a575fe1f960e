/**
 * The element-type half of dds/idl/field_info.cpp: `string_type` and
 * `to_cxx_type`, which give the C++ type used for an element and the width
 * of its CDR encoding.
 */
module FieldTypes {
  import opened Wrappers
  import opened IdlAst

  /** The exceptions `FieldInfo::init` can throw. */
  datatype InitError =
      /** `std::invalid_argument` from `to_cxx_type` */
    | UnsupportedPrimitive
      /** `std::out_of_range` from `std::string::substr` */
    | OutOfRange

  /** The C++ type name `to_cxx_type` returns and the value it leaves in `size`. */
  datatype CxxType = CxxType(name: string, size: nat)

  /** `FieldInfo::string_type`: the C++ string type for a (wide) string. */
  function StringType(c: Classification, cxx11: bool): string
  {
    if cxx11 then (if Wide in c then "std::wstring" else "std::string")
    else if Wide in c then "TAO::WString_Manager" else "TAO::String_Manager"
  }

  /** Wide and narrow strings never share a C++ type, and neither do the two mappings. */
  lemma StringTypeDistinct(c1: Classification, c2: Classification, m1: bool, m2: bool)
    ensures StringType(c1, m1) == StringType(c2, m2) <==> (m1 == m2 && (Wide in c1 <==> Wide in c2))
  {
  }

  /** The primitive table of `to_cxx_type`; None where it throws. */
  function PrimitiveCxxType(pt: PredefinedKind): Option<CxxType>
  {
    match pt
    case Long => Some(CxxType("ACE_CDR::Long", 4))
    case ULong => Some(CxxType("ACE_CDR::ULong", 4))
    case LongLong => Some(CxxType("ACE_CDR::LongLong", 8))
    case ULongLong => Some(CxxType("ACE_CDR::ULongLong", 8))
    case Short => Some(CxxType("ACE_CDR::Short", 2))
    case UShort => Some(CxxType("ACE_CDR::UShort", 2))
    case Float => Some(CxxType("ACE_CDR::Float", 4))
    case Double => Some(CxxType("ACE_CDR::Double", 8))
    case LongDouble => Some(CxxType("ACE_CDR::LongDouble", 16))
    case Char => Some(CxxType("ACE_CDR::Char", 1))
    case WChar => Some(CxxType("ACE_CDR::WChar", 1))
    case Boolean => Some(CxxType("ACE_CDR::Boolean", 1))
    case Octet => Some(CxxType("ACE_CDR::Octet", 1))
    case _ => None
  }

  /**
   * The encoded size of each fixed-size primitive in CORBA 3.3 Part 2,
   * section 9.3.1 (Common Data Representation); None for wchar, whose
   * encoding is not fixed-size, and for kinds that are not primitive values.
   */
  function CdrSize(pt: PredefinedKind): Option<nat>
  {
    match pt
    case Short | UShort => Some(2)
    case Long | ULong | Float => Some(4)
    case LongLong | ULongLong | Double => Some(8)
    case LongDouble => Some(16)
    case Char | Boolean | Octet => Some(1)
    case _ => None
  }

  /**
   * The table agrees with CDR on every fixed-size primitive; wchar gets 1,
   * the width of its length prefix; every other kind is rejected.
   */
  lemma PrimitiveWidthsAreCdr(pt: PredefinedKind)
    ensures CdrSize(pt).Some? ==> PrimitiveCxxType(pt).Some? && PrimitiveCxxType(pt).value.size == CdrSize(pt).value
    ensures pt == WChar ==> PrimitiveCxxType(pt) == Some(CxxType("ACE_CDR::WChar", 1))
    ensures CdrSize(pt).None? && pt != WChar ==> PrimitiveCxxType(pt).None?
  {
  }

  /** The front end narrows every PRIMITIVE-classified type to a predefined type. */
  predicate PrimitiveResolves(fe: FrontEnd, t: AstType)
  {
    Primitive in fe.classify(t) ==> fe.resolve(t).node.PredefinedNode?
  }

  /**
   * `FieldInfo::to_cxx_type(type, size)`: enum first, then string, then the
   * primitive table; any other type keeps `size` and is named by its scoped
   * name.
   */
  function ToCxxType(fe: FrontEnd, t: AstType, size: nat, cxx11: bool): Result<CxxType, InitError>
    requires PrimitiveResolves(fe, t)
  {
    var cls := fe.classify(t);
    if Enum in cls then Success(CxxType("ACE_CDR::ULong", 4))
    else if String in cls then Success(CxxType(StringType(cls, cxx11), 4))
    else if Primitive in cls then
      match PrimitiveCxxType(fe.resolve(t).node.pt)
      case Some(c) => Success(c)
      case None => Failure(UnsupportedPrimitive)
    else Success(CxxType(Scoped(t.name), size))
  }

  /** The one error: a primitive outside the table that is neither enum nor string. */
  lemma ToCxxTypeFails(fe: FrontEnd, t: AstType, size: nat, cxx11: bool)
    requires PrimitiveResolves(fe, t)
    ensures ToCxxType(fe, t, size, cxx11).Failure? <==>
              Enum !in fe.classify(t) && String !in fe.classify(t) && Primitive in fe.classify(t)
              && PrimitiveCxxType(fe.resolve(t).node.pt).None?
    ensures ToCxxType(fe, t, size, cxx11).Failure? ==> ToCxxType(fe, t, size, cxx11).error == UnsupportedPrimitive
  {
  }

  /**
   * The width is one of the CDR widths for enums, strings and primitives,
   * 4 for every enum and every (wide) string (their length prefix), and
   * left as it was for every other type.
   */
  lemma ToCxxTypeWidth(fe: FrontEnd, t: AstType, size: nat, cxx11: bool)
    requires PrimitiveResolves(fe, t)
    requires ToCxxType(fe, t, size, cxx11).Success?
    ensures var cls, r := fe.classify(t), ToCxxType(fe, t, size, cxx11).value;
            && (Enum in cls || String in cls ==> r.size == 4)
            && (Enum in cls || String in cls || Primitive in cls ==> r.size in {1, 2, 4, 8, 16})
            && (Enum !in cls && String !in cls && Primitive !in cls ==> r == CxxType(Scoped(t.name), size))
  {
  }

  /**
   * Enum takes precedence: an enum is an `ACE_CDR::ULong` of width 4
   * whatever other flags the front end sets.
   */
  lemma ToCxxTypeEnumFirst(fe: FrontEnd, t: AstType, size: nat, cxx11: bool)
    requires PrimitiveResolves(fe, t) && Enum in fe.classify(t)
    ensures ToCxxType(fe, t, size, cxx11) == Success(CxxType("ACE_CDR::ULong", 4))
  {
  }

  /**
   * The language mapping only changes the name of a string type: success,
   * width and every other name are the same under both.
   */
  lemma ToCxxTypeMappingIndependent(fe: FrontEnd, t: AstType, size: nat)
    requires PrimitiveResolves(fe, t)
    ensures ToCxxType(fe, t, size, true).Success? <==> ToCxxType(fe, t, size, false).Success?
    ensures ToCxxType(fe, t, size, true).Success? ==>
              ToCxxType(fe, t, size, true).value.size == ToCxxType(fe, t, size, false).value.size
    ensures ToCxxType(fe, t, size, true).Success? && (Enum in fe.classify(t) || String !in fe.classify(t)) ==>
              ToCxxType(fe, t, size, true) == ToCxxType(fe, t, size, false)
  {
  }
}
