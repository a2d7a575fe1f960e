/**
 * `FieldInfo` of dds/idl/field_info.cpp: the descriptor the IDL compiler
 * builds for one struct field, or for one standalone named type, and the
 * `EleLen` key that de-duplicates per-element helpers.
 *
 * `Describe` is the reference definition of what `init()` leaves in the
 * descriptor, built from one part per block of `init()`. `InitBlocks` runs
 * those blocks as `init()` does, one method per block, and is proved to
 * compute `Describe`; the class `FieldInfo` holds the result as constant
 * members.
 */
module FieldInfoModel {
  import opened Wrappers
  import opened Text
  import opened IdlAst
  import opened FieldNaming
  import opened FieldTypes

  // ---------------------------------------------------------------------
  // EleLen

  /**
   * `FieldInfo::EleLen`: the element type node (its address, 0 for none)
   * and the element count.
   */
  datatype EleLen = EleLen(ele: nat, len: nat)

  /** `EleLen::operator<`: by element node, then by length. */
  predicate EleLenLess(a: EleLen, b: EleLen)
  {
    a.ele < b.ele || (a.ele == b.ele && a.len < b.len)
  }

  /** `EleLen` is irreflexive, asymmetric and transitive, and two keys are
   *  equivalent (neither below the other) only when they are equal: a strict
   *  weak ordering whose equivalence classes are single keys. */
  lemma EleLenStrictWeakOrder(a: EleLen, b: EleLen, c: EleLen)
    ensures !EleLenLess(a, a)
    ensures EleLenLess(a, b) ==> !EleLenLess(b, a)
    ensures EleLenLess(a, b) && EleLenLess(b, c) ==> EleLenLess(a, c)
    ensures !EleLenLess(a, b) && !EleLenLess(b, a) <==> a == b
  {
  }

  // ---------------------------------------------------------------------
  // The descriptor

  /** The members set by the constructors' initializer lists before `init()`. */
  datatype Input = Input(typ: AstType, name: string, underscored: string, scopedType: string)

  /** `FieldInfo(AST_Field&)`: the field's type and name, and its type's underscored name. */
  function FieldInput(field: AstField, cxx11: bool): Input
  {
    Input(field.fieldType, field.localName, UnderscoredTypeName(field.fieldType.name, cxx11), "")
  }

  /** `FieldInfo(UTL_ScopedName*, AST_Type*)`: no field name; the scoped name is given. */
  function NamedInput(sn: seq<string>, base: AstType, cxx11: bool): Input
  {
    Input(base, "", UnderscoredTypeName(sn, cxx11), Scoped(sn))
  }

  /** `as_base_`: the element type of an array or sequence node, else null. */
  function ElementBase(t: AstType): Option<AstType>
  {
    match t.node
    case ArrayNode(b, _) => Some(b)
    case SequenceNode(b, _) => Some(b)
    case _ => None
  }

  /** What the front end must guarantee for the element type `to_cxx_type` inspects. */
  predicate WellFormed(fe: FrontEnd, t: AstType)
  {
    ElementBase(t).Some? ==> PrimitiveResolves(fe, fe.resolve(ElementBase(t).value))
  }

  /** The members of the first block of `init()`: actual types, classes and element references. */
  datatype Elements = Elements(
    act: AstType, cls: Classification, arr: bool, sq: bool,
    asBase: Option<AstType>, asAct: Option<AstType>, asCls: Classification,
    scopedElem: string, underscoredElem: string, elemRef: string, elemConstRef: string)

  /** The first block of `init()`, lines 73-85. */
  function ElementsOf(fe: FrontEnd, t: AstType): Elements
  {
    var asBase := ElementBase(t);
    var asAct := if asBase.Some? then Some(fe.resolve(asBase.value)) else None;
    var scopedElem := if asBase.Some? then Scoped(asBase.value.name) else "";
    var underscoredElem := if asBase.Some? then Underscored(scopedElem) else "";
    var hasElemRef := scopedElem != "" && underscoredElem != "";
    Elements(
      fe.resolve(t), fe.classify(fe.resolve(t)), t.node.ArrayNode?, t.node.SequenceNode?,
      asBase, asAct, if asAct.Some? then fe.classify(asAct.value) else {},
      scopedElem, underscoredElem,
      if hasElemRef then Ref(scopedElem, underscoredElem, "") else "",
      if hasElemRef then Ref(scopedElem, underscoredElem, "const ") else "")
  }

  /** The naming members: `scoped_type_`, `underscored_`, `struct_name_`, `type_name_`. */
  datatype Naming = Naming(scopedType: string, underscored: string, structName: string, typeName: string)

  /** Lines 87-106 of `init()`. */
  function TypeNaming(input: Input, anonymousCollection: bool, isSeq: bool): Result<Naming, InitError>
  {
    if anonymousCollection then
      var st := Scoped(input.typ.name);
      var i := RFind(st);
      var structName := st[..match i case Some(k) => k case None => |st|];
      if input.name != "" then
        var typeName := "_" + input.name + (if isSeq then "_seq" else "");
        var scopedType := structName + "::" + typeName;
        Success(Naming(scopedType, Underscored(scopedType), structName, typeName))
      else
        var pos := PastScopeOp(i);
        if pos > |st| then Failure(OutOfRange)
        else Success(Naming(st, input.underscored, structName, st[pos..]))
    else
      var scopedType := if input.scopedType == "" then Scoped(input.typ.name) else input.scopedType;
      Success(Naming(scopedType, input.underscored, "", scopedType))
  }

  /** Lines 108-111 of `init()`: `elem_` and `elem_sz_`, or the empty default when there is no element. */
  function ElementType(fe: FrontEnd, t: AstType, cxx11: bool): Result<CxxType, InitError>
    requires WellFormed(fe, t)
  {
    match ElementBase(t)
    case Some(b) => ToCxxType(fe, fe.resolve(b), 0, cxx11)
    case None => Success(CxxType("", 0))
  }

  /** The product of the array extents, over unbounded integers. */
  function Product(dims: seq<ULongValue>): nat
  {
    if |dims| == 0 then 1 else Product(dims[..|dims| - 1]) * dims[|dims| - 1]
  }

  /** `n_elems_`, `length_` and `arg_` as lines 113-126 of `init()` leave them. */
  datatype Count = Count(nElems: nat, length: string, arg: string)

  /** Lines 113-126 of `init()`; `n_elems_` is a `std::size_t`, so the product wraps at 2^64. */
  function ElementCount(node: NodeKind): Count
  {
    match node
    case ArrayNode(_, dims) =>
      var n := Product(dims) % SIZE_T_MODULUS;
      Count(n, Decimal(n), "arr")
    case SequenceNode(_, maxSize) =>
      Count(match maxSize case Some(m) => m case None => 0, "length", "seq")
    case _ => Count(1, "", "")
  }

  /** The members of the language-mapping block of `init()`. */
  datatype Mapping = Mapping(unwrap: string, constUnwrap: string, arg: string, ref: string, constRef: string, ptr: string)

  /** The C++11 `unwrap_` body before its indentation is added. */
  function UnwrapLine(scopedType: string, arg: string): string
  {
    scopedType + "& " + arg + " = wrap;\n  ACE_UNUSED_ARG(" + arg + ");\n"
  }

  /** Lines 128-139 of `init()`, given the naming, whether the type is an array and `arg_` so far. */
  function MappingOf(nm: Naming, arr: bool, arg: string, cxx11: bool): Mapping
  {
    var ref := if cxx11 then Ref(nm.scopedType, nm.underscored, "")
               else nm.scopedType + (if arr then "_forany&" else "&");
    Mapping(
      if cxx11 then "  " + UnwrapLine(nm.scopedType, arg) else "",
      if cxx11 then "  const " + UnwrapLine(nm.scopedType, arg) else "",
      if cxx11 then "wrap" else arg,
      ref,
      if cxx11 then Ref(nm.scopedType, nm.underscored, "const ") else "const " + ref,
      nm.scopedType + (if arr then "_forany*" else "*"))
  }

  /** Every member of `FieldInfo` after `init()`, grouped by the block that sets it. */
  datatype Descriptor = Descriptor(
    typ: AstType, name: string, elements: Elements, naming: Naming,
    elem: CxxType, nElems: nat, length: string, mapping: Mapping)

  /** The descriptor `init()` computes from the initializer-list members, or the exception it throws. */
  function Describe(input: Input, fe: FrontEnd, cxx11: bool): Result<Descriptor, InitError>
    requires WellFormed(fe, input.typ)
  {
    var t := input.typ;
    match TypeNaming(input, t.anonymous && ElementBase(t).Some?, t.node.SequenceNode?)
    case Failure(e) => Failure(e)
    case Success(nm) =>
      match ElementType(fe, t, cxx11)
      case Failure(e) => Failure(e)
      case Success(et) =>
        var count := ElementCount(t.node);
        Success(Descriptor(t, input.name, ElementsOf(fe, t), nm, et, count.nElems, count.length,
                           MappingOf(nm, t.node.ArrayNode?, count.arg, cxx11)))
  }

  /** `Describe` fails with the naming block's exception when there is one. */
  lemma DescribeNamingFails(input: Input, fe: FrontEnd, cxx11: bool)
    requires WellFormed(fe, input.typ)
    requires TypeNaming(input, input.typ.anonymous && ElementBase(input.typ).Some?, input.typ.node.SequenceNode?).Failure?
    ensures Describe(input, fe, cxx11)
         == Failure(TypeNaming(input, input.typ.anonymous && ElementBase(input.typ).Some?, input.typ.node.SequenceNode?).error)
  {
  }

  /** `Describe` fails with `to_cxx_type`'s exception when the naming succeeded and it throws. */
  lemma DescribeElementFails(input: Input, fe: FrontEnd, cxx11: bool)
    requires WellFormed(fe, input.typ)
    requires TypeNaming(input, input.typ.anonymous && ElementBase(input.typ).Some?, input.typ.node.SequenceNode?).Success?
    requires ElementType(fe, input.typ, cxx11).Failure?
    ensures Describe(input, fe, cxx11) == Failure(ElementType(fe, input.typ, cxx11).error)
  {
  }

  /** A descriptor whose parts are those of the blocks of `init()` is the one `Describe` yields. */
  lemma DescribeIs(input: Input, fe: FrontEnd, cxx11: bool, d: Descriptor)
    requires WellFormed(fe, input.typ)
    requires d.typ == input.typ && d.name == input.name && d.elements == ElementsOf(fe, input.typ)
    requires TypeNaming(input, input.typ.anonymous && ElementBase(input.typ).Some?, input.typ.node.SequenceNode?)
             == Success(d.naming)
    requires ElementType(fe, input.typ, cxx11) == Success(d.elem)
    requires d.nElems == ElementCount(input.typ.node).nElems && d.length == ElementCount(input.typ.node).length
    requires d.mapping == MappingOf(d.naming, input.typ.node.ArrayNode?, ElementCount(input.typ.node).arg, cxx11)
    ensures Describe(input, fe, cxx11) == Success(d)
  {
  }

  /** `EleLen(FieldInfo&)`: the key of a built descriptor. */
  function EleLenOf(d: Descriptor): EleLen
  {
    EleLen(if d.elements.asBase.Some? then d.elements.asBase.value.id else 0, d.nElems)
  }

  lemma {:induction false} ProductStep(dims: seq<ULongValue>, i: nat)
    requires i < |dims|
    ensures Product(dims[..i + 1]) == Product(dims[..i]) * dims[i]
  {
    assert dims[..i + 1][..i] == dims[..i];
  }

  /** Euclidean division by 2^64 has one remainder. */
  lemma ModUnique(a: int, k: int, r: int)
    requires 0 <= r < SIZE_T_MODULUS && a == k * SIZE_T_MODULUS + r
    ensures a % SIZE_T_MODULUS == r
  {
  }

  /** Reducing the running product modulo 2^64 after every factor is the same as at the end. */
  lemma MulMod(a: nat, b: nat)
    ensures (a % SIZE_T_MODULUS) * b % SIZE_T_MODULUS == a * b % SIZE_T_MODULUS
  {
    var q, r := a / SIZE_T_MODULUS, a % SIZE_T_MODULUS;
    var q2, r2 := (r * b) / SIZE_T_MODULUS, (r * b) % SIZE_T_MODULUS;
    assert a == q * SIZE_T_MODULUS + r;
    assert a * b == q * b * SIZE_T_MODULUS + r * b;
    assert r * b == q2 * SIZE_T_MODULUS + r2;
    ModUnique(a * b, q * b + q2, r2);
    ModUnique(r * b, q2, r2);
  }

  // ---------------------------------------------------------------------
  // The blocks of init()

  /** Lines 73-85 of `init()`: actual types, classes, and the element's names and references. */
  method ElementsBlock(fe: FrontEnd, t: AstType) returns (e: Elements)
    ensures e == ElementsOf(fe, t)
  {
    var act := fe.resolve(t);
    var asBase := ElementBase(t);
    var asAct := if asBase.Some? then Some(fe.resolve(asBase.value)) else None;
    var scopedElem := if asBase.Some? then Scoped(asBase.value.name) else "";
    var underscoredElem := "";
    if asBase.Some? {
      underscoredElem := Underscore(scopedElem);
    }
    var elemRef, elemConstRef := "", "";
    if scopedElem != "" && underscoredElem != "" {
      elemRef := Ref(scopedElem, underscoredElem, "");
      elemConstRef := Ref(scopedElem, underscoredElem, "const ");
    }
    e := Elements(act, fe.classify(act), t.node.ArrayNode?, t.node.SequenceNode?,
                  asBase, asAct, if asAct.Some? then fe.classify(asAct.value) else {},
                  scopedElem, underscoredElem, elemRef, elemConstRef);
  }

  /** Lines 87-106 of `init()`: the type's own names, for anonymous types too. */
  method NamingBlock(input: Input, anonymousCollection: bool, isSeq: bool) returns (r: Result<Naming, InitError>)
    ensures r == TypeNaming(input, anonymousCollection, isSeq)
  {
    var scopedType, underscored, structName, typeName := input.scopedType, input.underscored, "", "";
    if anonymousCollection {
      scopedType := Scoped(input.typ.name);
      var i := RFind(scopedType);
      structName := scopedType[..match i case Some(k) => k case None => |scopedType|];
      if input.name != "" {
        typeName := "_" + input.name + (if isSeq then "_seq" else "");
        scopedType := structName + "::" + typeName;
        underscored := Underscore(scopedType);
      } else {
        var pos := PastScopeOp(i);
        if pos > |scopedType| {
          return Failure(OutOfRange);
        }
        typeName := scopedType[pos..];
      }
    } else {
      if scopedType == "" {
        scopedType := Scoped(input.typ.name);
      }
      typeName := scopedType;
    }
    r := Success(Naming(scopedType, underscored, structName, typeName));
  }

  /** Lines 108-111 of `init()`: `elem_sz_` starts at 0 and `to_cxx_type` runs only for an element type. */
  method ElementTypeBlock(fe: FrontEnd, t: AstType, cxx11: bool) returns (r: Result<CxxType, InitError>)
    requires WellFormed(fe, t)
    ensures r == ElementType(fe, t, cxx11)
  {
    var elemSz := 0;
    r := Success(CxxType("", elemSz));
    var asBase := ElementBase(t);
    if asBase.Some? {
      r := ToCxxType(fe, fe.resolve(asBase.value), elemSz, cxx11);
    }
  }

  /** Lines 113-126 of `init()`: the element count, its decimal text and the argument name. */
  method CountBlock(node: NodeKind) returns (c: Count)
    ensures c == ElementCount(node)
  {
    var nElems := 1;
    c := Count(1, "", "");
    if node.ArrayNode? {
      var dims := node.dims;
      for i := 0 to |dims|
        invariant nElems == Product(dims[..i]) % SIZE_T_MODULUS
      {
        ProductStep(dims, i);
        MulMod(Product(dims[..i]), dims[i]);
        nElems := nElems * dims[i] % SIZE_T_MODULUS;
      }
      assert dims[..|dims|] == dims;
      c := Count(nElems, Decimal(nElems), "arr");
    } else if node.SequenceNode? {
      nElems := match node.maxSize case Some(m) => m case None => 0;
      c := Count(nElems, "length", "seq");
    }
  }

  /** Lines 128-139 of `init()`: the reference, pointer and unwrap strings of the language mapping. */
  method MappingBlock(nm: Naming, arr: bool, arg0: string, cxx11: bool) returns (m: Mapping)
    ensures m == MappingOf(nm, arr, arg0, cxx11)
  {
    var unwrap, constUnwrap, arg, ref, constRef := "", "", arg0, "", "";
    if cxx11 {
      unwrap := UnwrapLine(nm.scopedType, arg);
      constUnwrap := "  const " + unwrap;
      unwrap := "  " + unwrap;
      arg := "wrap";
      ref := Ref(nm.scopedType, nm.underscored, "");
      constRef := Ref(nm.scopedType, nm.underscored, "const ");
    } else {
      ref := nm.scopedType + (if arr then "_forany&" else "&");
      constRef := "const " + ref;
    }
    m := Mapping(unwrap, constUnwrap, arg, ref, constRef, nm.scopedType + (if arr then "_forany*" else "*"));
  }

  /** The blocks of `init()` in order, stopping at the first exception. */
  method InitBlocks(input: Input, fe: FrontEnd, cxx11: bool) returns (r: Result<Descriptor, InitError>)
    requires WellFormed(fe, input.typ)
    ensures r == Describe(input, fe, cxx11)
  {
    var t := input.typ;
    var e := ElementsBlock(fe, t);
    var nm := NamingBlock(input, t.anonymous && ElementBase(t).Some?, t.node.SequenceNode?);
    if nm.Failure? {
      DescribeNamingFails(input, fe, cxx11);
      return Failure(nm.error);
    }
    var et := ElementTypeBlock(fe, t, cxx11);
    if et.Failure? {
      DescribeElementFails(input, fe, cxx11);
      return Failure(et.error);
    }
    var count := CountBlock(t.node);
    var m := MappingBlock(nm.value, t.node.ArrayNode?, count.arg, cxx11);
    r := Success(Descriptor(t, input.name, e, nm.value, et.value, count.nElems, count.length, m));
    DescribeIs(input, fe, cxx11, r.value);
  }

  // ---------------------------------------------------------------------
  // The class

  /**
   * `FieldInfo`: built once, by a constructor that runs `init()`, and never
   * changed afterwards, so every member is a constant of the object.
   */
  class FieldInfo {
    const typ: AstType
    const name: string
    const act: AstType
    const cls: Classification
    const arr: bool
    const sq: bool
    const asBase: Option<AstType>
    const asAct: Option<AstType>
    const asCls: Classification
    const scopedElem: string
    const underscoredElem: string
    const elemRef: string
    const elemConstRef: string
    const scopedType: string
    const underscored: string
    const structName: string
    const typeName: string
    const elemSz: nat
    const elem: string
    const nElems: nat
    const length: string
    const arg: string
    const unwrap: string
    const constUnwrap: string
    const ref: string
    const constRef: string
    const ptr: string

    /** The members, as one value. */
    function Snapshot(): Descriptor
    {
      Descriptor(
        typ, name,
        Elements(act, cls, arr, sq, asBase, asAct, asCls, scopedElem, underscoredElem, elemRef, elemConstRef),
        Naming(scopedType, underscored, structName, typeName),
        CxxType(elem, elemSz), nElems, length,
        Mapping(unwrap, constUnwrap, arg, ref, constRef, ptr))
    }

    /** Stores the members `init()` computed. */
    constructor (d: Descriptor)
      ensures Snapshot() == d
    {
      typ, name := d.typ, d.name;
      var e, nm, m := d.elements, d.naming, d.mapping;
      act, cls, arr, sq, asBase, asAct, asCls := e.act, e.cls, e.arr, e.sq, e.asBase, e.asAct, e.asCls;
      scopedElem, underscoredElem, elemRef, elemConstRef := e.scopedElem, e.underscoredElem, e.elemRef, e.elemConstRef;
      scopedType, underscored, structName, typeName := nm.scopedType, nm.underscored, nm.structName, nm.typeName;
      elem, elemSz, nElems, length := d.elem.name, d.elem.size, d.nElems, d.length;
      unwrap, constUnwrap, arg, ref, constRef, ptr := m.unwrap, m.constUnwrap, m.arg, m.ref, m.constRef, m.ptr;
    }

    /**
     * `FieldInfo(AST_Field&)`: the initializer list, then `init()`; the
     * exception `init()` throws escapes the constructor.
     */
    static method FromField(field: AstField, fe: FrontEnd, cxx11: bool) returns (r: Result<FieldInfo, InitError>)
      requires WellFormed(fe, field.fieldType)
      ensures var d := Describe(FieldInput(field, cxx11), fe, cxx11);
              && (r.Success? <==> d.Success?)
              && (r.Success? ==> fresh(r.value) && r.value.Snapshot() == d.value)
              && (r.Failure? ==> r.error == d.error)
    {
      var d := InitBlocks(FieldInput(field, cxx11), fe, cxx11);
      if d.Failure? {
        return Failure(d.error);
      }
      var fi := new FieldInfo(d.value);
      r := Success(fi);
    }

    /** `FieldInfo(UTL_ScopedName*, AST_Type*)`: a descriptor for a standalone named type. */
    static method FromScopedName(sn: seq<string>, base: AstType, fe: FrontEnd, cxx11: bool)
      returns (r: Result<FieldInfo, InitError>)
      requires WellFormed(fe, base)
      ensures var d := Describe(NamedInput(sn, base, cxx11), fe, cxx11);
              && (r.Success? <==> d.Success?)
              && (r.Success? ==> fresh(r.value) && r.value.Snapshot() == d.value)
              && (r.Failure? ==> r.error == d.error)
    {
      var d := InitBlocks(NamedInput(sn, base, cxx11), fe, cxx11);
      if d.Failure? {
        return Failure(d.error);
      }
      var fi := new FieldInfo(d.value);
      r := Success(fi);
    }
  }
}
