/**
 * What `FieldInfo::init()` promises about the descriptor it builds, stated
 * over `Describe`: when it throws, how anonymous collection types are named,
 * what the element count and element width are, when the element references
 * are set, what each language mapping produces and what does not depend on
 * the mapping, and which descriptors share an `EleLen` key.
 */
module FieldInfoProps {
  import opened Wrappers
  import opened Text
  import opened IdlAst
  import opened FieldNaming
  import opened FieldTypes
  import opened FieldInfoModel

  // ---------------------------------------------------------------------
  // Exceptions

  /** `to_cxx_type` rejects the (resolved) element type `a`. */
  predicate UnsupportedElement(fe: FrontEnd, a: AstType)
  {
    var cls := fe.classify(a);
    Enum !in cls && String !in cls && Primitive in cls
    && fe.resolve(a).node.PredefinedNode? && PrimitiveCxxType(fe.resolve(a).node.pt).None?
  }

  /** An unnamed anonymous array or sequence whose scoped name is empty. */
  predicate EmptyAnonymousName(input: Input)
  {
    input.typ.anonymous && ElementBase(input.typ).Some? && input.name == "" && Scoped(input.typ.name) == ""
  }

  /**
   * The naming block throws exactly when `substr(i + 2)` starts past the
   * end: for an unnamed anonymous collection, `rfind` finds nothing only in
   * a name without `::`, `npos + 2` wraps to 1, and 1 is out of range only
   * for the empty name.
   */
  lemma TypeNamingFails(input: Input, anonymousCollection: bool, isSeq: bool)
    ensures TypeNaming(input, anonymousCollection, isSeq).Failure? <==>
              anonymousCollection && input.name == "" && Scoped(input.typ.name) == ""
    ensures TypeNaming(input, anonymousCollection, isSeq).Failure? ==>
              TypeNaming(input, anonymousCollection, isSeq).error == OutOfRange
  {
    var st := Scoped(input.typ.name);
    match RFind(st)
    case Some(k) =>
      assert ScopeOpAt(st, k);
    case None =>
      NposPlusTwoWraps();
  }

  /**
   * `init()` throws `out_of_range` exactly for an unnamed anonymous
   * collection with an empty scoped name, and otherwise `invalid_argument`
   * exactly when the element type is a primitive outside the table; in
   * every other case it completes.
   */
  lemma DescribeFails(input: Input, fe: FrontEnd, cxx11: bool)
    requires WellFormed(fe, input.typ)
    ensures var t, d := input.typ, Describe(input, fe, cxx11);
            && (d == Failure(OutOfRange) <==> EmptyAnonymousName(input))
            && (d == Failure(UnsupportedPrimitive) <==>
                  !EmptyAnonymousName(input) && ElementBase(t).Some? && UnsupportedElement(fe, fe.resolve(ElementBase(t).value)))
            && (d.Success? <==>
                  !EmptyAnonymousName(input) && !(ElementBase(t).Some? && UnsupportedElement(fe, fe.resolve(ElementBase(t).value))))
  {
    var t := input.typ;
    TypeNamingFails(input, t.anonymous && ElementBase(t).Some?, t.node.SequenceNode?);
    if ElementBase(t).Some? {
      ToCxxTypeFails(fe, fe.resolve(ElementBase(t).value), 0, cxx11);
    }
  }

  // ---------------------------------------------------------------------
  // Naming

  /**
   * An anonymous array or sequence declared for a named field `name` in the
   * scope `S` is renamed `S::_name` (`S::_name_seq` for a sequence), and its
   * mangled name is that name with every `::` replaced.
   */
  lemma AnonymousFieldNaming(input: Input, isSeq: bool, scope: seq<string>, local: string)
    requires |scope| > 0 && input.typ.name == scope + [local] && IsIdentifier(local)
    requires input.name != ""
    ensures var tn := "_" + input.name + (if isSeq then "_seq" else "");
            var st := Scoped(scope) + "::" + tn;
            TypeNaming(input, true, isSeq) == Success(Naming(st, Underscored(st), Scoped(scope), tn))
  {
    RFindScoped(scope, local);
    var n := Scoped(scope) + "::" + local;
    assert n[..|Scoped(scope)|] == Scoped(scope);
  }

  /**
   * With identifier scopes and a field name free of colons, the mangled
   * name of an anonymous field type is the scope joined with `_`, then `_`,
   * then the new type name.
   */
  lemma AnonymousFieldMangled(scope: seq<string>, fieldName: string, isSeq: bool)
    requires |scope| > 0 && AllIdentifiers(scope) && fieldName != "" && ':' !in fieldName
    ensures var tn := "_" + fieldName + (if isSeq then "_seq" else "");
            Underscored(Scoped(scope) + "::" + tn) == ScopedHelper(scope, "_") + "_" + tn
  {
    var tn := "_" + fieldName + (if isSeq then "_seq" else "");
    assert ':' !in tn by {
      assert tn == "_" + fieldName || tn == "_" + fieldName + "_seq";
    }
    var name := scope + [tn];
    assert AllIdentifiers(name) by {
      forall k | 0 <= k < |name| ensures IsIdentifier(name[k]) {
        if k < |scope| {
          assert name[k] == scope[k];
        }
      }
    }
    UnderscoredScoped(name);
    JoinSnoc(scope, tn, "::");
    JoinSnoc(scope, tn, "_");
  }

  /**
   * Struct `Foo`, field `bar` of an anonymous sequence type, of any element
   * type and bound: `Foo::_bar_seq`, mangled `Foo__bar_seq`.
   */
  lemma AnonymousSequenceExample(underscored: string, elemType: AstType, maxSize: Option<ULongValue>)
    ensures var t := AstType(2, ["Foo", "bar"], true, SequenceNode(elemType, maxSize));
            TypeNaming(Input(t, "bar", underscored, ""), true, true)
              == Success(Naming("Foo::_bar_seq", "Foo__bar_seq", "Foo", "_bar_seq"))
  {
    var t := AstType(2, ["Foo", "bar"], true, SequenceNode(elemType, maxSize));
    assert t.name == ["Foo"] + ["bar"];
    assert IsIdentifier("bar");
    AnonymousFieldNaming(Input(t, "bar", underscored, ""), true, ["Foo"], "bar");
    AnonymousFieldMangled(["Foo"], "bar", true);
    assert Scoped(["Foo"]) == "Foo";
    assert ScopedHelper(["Foo"], "_") == "Foo";
    assert "_" + "bar" + "_seq" == "_bar_seq";
    assert "Foo" + "::" + "_bar_seq" == "Foo::_bar_seq";
    assert "Foo" + "_" + "_bar_seq" == "Foo__bar_seq";
  }

  /** A front end whose types are their own actual types and whose predefined types are primitive. */
  function PlainFrontEnd(): FrontEnd
  {
    FrontEnd((t: AstType) => t, (t: AstType) => if t.node.PredefinedNode? then {Primitive} else {})
  }

  /**
   * Struct `Foo`, field `bar` of an anonymous `sequence<short, 5>`: the
   * whole descriptor has the primitive element class, the element type
   * `ACE_CDR::Short` of width 2, five elements counted by `length`, and the
   * names `Foo::_bar_seq` and `Foo__bar_seq`.
   */
  lemma AnonymousBoundedSequenceDescribed(underscored: string, cxx11: bool)
    ensures var elemType := AstType(1, ["short"], false, PredefinedNode(Short));
            var t := AstType(2, ["Foo", "bar"], true, SequenceNode(elemType, Some(5)));
            && WellFormed(PlainFrontEnd(), t)
            && var r := Describe(Input(t, "bar", underscored, ""), PlainFrontEnd(), cxx11);
            && r.Success?
            && r.value.elements.asCls == {Primitive}
            && r.value.elem == CxxType("ACE_CDR::Short", 2)
            && r.value.nElems == 5 && r.value.length == "length"
            && r.value.naming.scopedType == "Foo::_bar_seq"
            && r.value.naming.underscored == "Foo__bar_seq"
  {
    var elemType := AstType(1, ["short"], false, PredefinedNode(Short));
    var t := AstType(2, ["Foo", "bar"], true, SequenceNode(elemType, Some(5)));
    var input := Input(t, "bar", underscored, "");
    var fe := PlainFrontEnd();
    var nm := Naming("Foo::_bar_seq", "Foo__bar_seq", "Foo", "_bar_seq");
    var et := CxxType("ACE_CDR::Short", 2);
    assert fe.resolve(elemType) == elemType && fe.classify(elemType) == {Primitive};
    assert ElementType(fe, t, cxx11) == Success(et);
    AnonymousSequenceExample(underscored, elemType, Some(5));
    assert ElementCount(t.node) == Count(5, "length", "seq");
    assert Describe(input, fe, cxx11)
        == Success(Descriptor(t, "bar", ElementsOf(fe, t), nm, et, 5, "length", MappingOf(nm, false, "seq", cxx11)));
  }

  /**
   * An unnamed anonymous collection keeps its scoped name; its type name is
   * the text after the last `::` (its local name) and its struct name the
   * text before.
   */
  lemma AnonymousUnnamedNaming(input: Input, isSeq: bool, scope: seq<string>, local: string)
    requires |scope| > 0 && input.typ.name == scope + [local] && IsIdentifier(local)
    requires input.name == ""
    ensures TypeNaming(input, true, isSeq)
         == Success(Naming(Scoped(input.typ.name), input.underscored, Scoped(scope), local))
  {
    RFindScoped(scope, local);
    var n := Scoped(scope) + "::" + local;
    assert n[..|Scoped(scope)|] == Scoped(scope);
    assert n[|Scoped(scope)| + 2..] == local;
  }

  /**
   * At the outermost scope there is no `::`: `rfind` gives npos, the struct
   * name is the whole name, and `npos + 2` wraps to 1, so the type name is
   * the name without its first character.
   */
  lemma AnonymousUnnamedTopLevel(input: Input, isSeq: bool)
    requires |input.typ.name| == 1 && IsIdentifier(input.typ.name[0]) && input.name == ""
    ensures var n := input.typ.name[0];
            TypeNaming(input, true, isSeq) == Success(Naming(n, input.underscored, n, n[1..]))
  {
    var n := input.typ.name[0];
    assert Scoped(input.typ.name) == n;
    assert RFind(n).None?;
    NposPlusTwoWraps();
    assert n[..|n|] == n;
  }

  /**
   * Under the C++11 mapping, for every field whose type has an identifier
   * scoped name, `underscored_` is `underscore(scoped_type_)`: the tag names
   * the same type that `scoped_type_` names, whichever branch set it.
   */
  lemma FieldUnderscoredMatchesScopedType(field: AstField, fe: FrontEnd)
    requires WellFormed(fe, field.fieldType) && AllIdentifiers(field.fieldType.name)
    requires Describe(FieldInput(field, true), fe, true).Success?
    ensures var nm := Describe(FieldInput(field, true), fe, true).value.naming;
            nm.underscored == Underscored(nm.scopedType)
  {
    UnderscoredScoped(field.fieldType.name);
  }

  /** Under the classic mapping a field's `underscored_` stays empty unless the field renames an anonymous type. */
  lemma FieldUnderscoredClassic(field: AstField, fe: FrontEnd)
    requires WellFormed(fe, field.fieldType)
    requires Describe(FieldInput(field, false), fe, false).Success?
    ensures var t := field.fieldType;
            var nm := Describe(FieldInput(field, false), fe, false).value.naming;
            !(t.anonymous && ElementBase(t).Some? && field.localName != "") ==> nm.underscored == ""
  {
  }

  /** A standalone named type is named by the scoped name it was given, when that is not empty. */
  lemma NamedTypeNaming(sn: seq<string>, base: AstType, fe: FrontEnd, cxx11: bool)
    requires WellFormed(fe, base) && !(base.anonymous && ElementBase(base).Some?)
    requires Describe(NamedInput(sn, base, cxx11), fe, cxx11).Success?
    ensures var nm := Describe(NamedInput(sn, base, cxx11), fe, cxx11).value.naming;
            && nm.typeName == nm.scopedType && nm.structName == ""
            && (Scoped(sn) != "" ==> nm.scopedType == Scoped(sn))
            && (Scoped(sn) == "" ==> nm.scopedType == Scoped(base.name))
            && nm.underscored == UnderscoredTypeName(sn, cxx11)
  {
  }

  // ---------------------------------------------------------------------
  // Element count

  /** The product of the extents is 0 exactly when one extent is 0. */
  lemma {:induction false} ProductZero(dims: seq<ULongValue>)
    ensures Product(dims) == 0 <==> exists k :: 0 <= k < |dims| && dims[k] == 0
  {
    if |dims| > 0 {
      var init := dims[..|dims| - 1];
      ProductZero(init);
      if Product(dims) == 0 && dims[|dims| - 1] != 0 {
        var k :| 0 <= k < |init| && init[k] == 0;
        assert dims[k] == 0;
      }
      if exists k :: 0 <= k < |dims| && dims[k] == 0 {
        var k :| 0 <= k < |dims| && dims[k] == 0;
        if k < |dims| - 1 {
          assert init[k] == 0;
        }
      }
    }
  }

  /**
   * `n_elems_` for an array is the product of its extents as a `size_t`
   * (equal to the product whenever that fits), 0 exactly when an extent is
   * 0 and the product fits, and `length_` reads back as `n_elems_`.
   */
  lemma ArrayCount(base: AstType, dims: seq<ULongValue>)
    ensures var c := ElementCount(ArrayNode(base, dims));
            && c.nElems < SIZE_T_MODULUS
            && c.nElems == Product(dims) % SIZE_T_MODULUS
            && (Product(dims) < SIZE_T_MODULUS ==> c.nElems == Product(dims))
            && (Product(dims) < SIZE_T_MODULUS ==> (c.nElems == 0 <==> exists k :: 0 <= k < |dims| && dims[k] == 0))
            && AllDigits(c.length) && DecimalValue(c.length) == c.nElems
            && c.arg == "arr"
  {
    var p := Product(dims);
    var n := p % SIZE_T_MODULUS;
    assert ElementCount(ArrayNode(base, dims)) == Count(n, Decimal(n), "arr");
    if p < SIZE_T_MODULUS {
      ModUnique(p, 0, p);
      ProductZero(dims);
    }
    DecimalRoundTrip(n);
  }

  /**
   * The largest two-extent product, 0xFFFFFFFF by 0xFFFFFFFF, still fits in
   * a `std::size_t`; a product past 2^64 wraps: a 2^31 by 2^31 by 4 array
   * has `n_elems_` 0 and `length_` "0".
   */
  lemma ArrayCountWraps(base: AstType)
    ensures ElementCount(ArrayNode(base, [0xFFFF_FFFF, 0xFFFF_FFFF])).nElems == 0xFFFF_FFFE_0000_0001
    ensures ElementCount(ArrayNode(base, [0x8000_0000, 0x8000_0000, 4])).nElems == 0
    ensures ElementCount(ArrayNode(base, [0x8000_0000, 0x8000_0000, 4])).length == "0"
  {
    var d1: seq<ULongValue> := [0xFFFF_FFFF, 0xFFFF_FFFF];
    assert d1[..1][..0] == [];
    assert Product(d1) == 0xFFFF_FFFE_0000_0001;
    var d2: seq<ULongValue> := [0x8000_0000, 0x8000_0000, 4];
    assert d2[..2] == [0x8000_0000, 0x8000_0000];
    assert d2[..2][..1] == [0x8000_0000];
    assert d2[..2][..1][..0] == [];
    assert Product(d2) == SIZE_T_MODULUS;
  }

  /**
   * A sequence counts its bound (0 when unbounded) with `length_` the
   * sequence's `length` member; any other type has one element and no
   * length or argument name.
   */
  lemma OtherCounts(node: NodeKind)
    requires !node.ArrayNode?
    ensures node.SequenceNode? && node.maxSize.Some? ==> ElementCount(node) == Count(node.maxSize.value, "length", "seq")
    ensures node.SequenceNode? && node.maxSize.None? ==> ElementCount(node) == Count(0, "length", "seq")
    ensures !node.SequenceNode? ==> ElementCount(node) == Count(1, "", "")
  {
  }

  // ---------------------------------------------------------------------
  // Element type and references

  /**
   * `elem_sz_` is 0 when there is no element type, and otherwise the width
   * `to_cxx_type` gives the resolved element: one of the CDR widths, or 0
   * for an element that is no enum, string or primitive.
   */
  lemma DescribeElementWidth(input: Input, fe: FrontEnd, cxx11: bool)
    requires WellFormed(fe, input.typ) && Describe(input, fe, cxx11).Success?
    ensures var t, d := input.typ, Describe(input, fe, cxx11).value;
            && (ElementBase(t).None? ==> d.elem == CxxType("", 0))
            && (ElementBase(t).Some? ==> Success(d.elem) == ToCxxType(fe, fe.resolve(ElementBase(t).value), 0, cxx11))
            && d.elem.size in {0, 1, 2, 4, 8, 16}
            && (d.elem.size == 0 <==>
                  ElementBase(t).None?
                  || var cls := fe.classify(fe.resolve(ElementBase(t).value));
                     Enum !in cls && String !in cls && Primitive !in cls)
  {
    var t := input.typ;
    if ElementBase(t).Some? {
      ToCxxTypeWidth(fe, fe.resolve(ElementBase(t).value), 0, cxx11);
    }
  }

  /**
   * The element references are set exactly for an array or sequence whose
   * element has a non-empty scoped name, and then tag the element's scoped
   * name with its mangled name; the mangled name is the `_`-joined scoped
   * name when the element's name is made of identifiers.
   */
  lemma ElementReferences(fe: FrontEnd, t: AstType)
    ensures var e := ElementsOf(fe, t);
            && (e.asAct.Some? <==> e.asBase.Some?)
            && (e.elemRef != "" <==> e.asBase.Some? && Scoped(e.asBase.value.name) != "")
            && (e.elemConstRef != "" <==> e.elemRef != "")
            && (e.elemRef != "" ==>
                  e.elemRef == Ref(e.scopedElem, e.underscoredElem, "")
                  && e.elemConstRef == Ref(e.scopedElem, e.underscoredElem, "const ")
                  && e.elemRef != e.elemConstRef)
            && (e.asBase.Some? && AllIdentifiers(e.asBase.value.name) ==>
                  e.underscoredElem == ScopedHelper(e.asBase.value.name, "_"))
  {
    var e := ElementsOf(fe, t);
    UnderscoredEmpty(e.scopedElem);
    RefConstDiffers(e.scopedElem, e.underscoredElem);
    if e.asBase.Some? && AllIdentifiers(e.asBase.value.name) {
      UnderscoredScoped(e.asBase.value.name);
    }
  }

  // ---------------------------------------------------------------------
  // Language mapping

  /**
   * Classic mapping: the argument name stays, nothing is unwrapped, the
   * reference is the type (its `_forany` wrapper for an array) taken by
   * reference, and the const reference is that reference with `const `.
   */
  lemma ClassicMapping(nm: Naming, arr: bool, arg: string)
    ensures var m := MappingOf(nm, arr, arg, false);
            && m.arg == arg && m.unwrap == "" && m.constUnwrap == ""
            && m.ref == nm.scopedType + (if arr then "_forany&" else "&")
            && m.constRef == "const " + m.ref && m.constRef != m.ref
  {
  }

  /**
   * C++11 mapping: the argument becomes `wrap`, the unwrap lines bind the
   * former argument name to it (the const one with `const `), and the
   * references are `DistinctType` wrappers tagged with the mangled name.
   */
  lemma Cxx11Mapping(nm: Naming, arr: bool, arg: string)
    ensures var m := MappingOf(nm, arr, arg, true);
            && m.arg == "wrap"
            && m.unwrap == "  " + nm.scopedType + "& " + arg + " = wrap;\n  ACE_UNUSED_ARG(" + arg + ");\n"
            && m.constUnwrap == "  const " + m.unwrap[2..]
            && m.ref == Ref(nm.scopedType, nm.underscored, "")
            && m.constRef == Ref(nm.scopedType, nm.underscored, "const ")
            && m.constRef != m.ref
  {
    RefConstDiffers(nm.scopedType, nm.underscored);
  }

  /** The pointer type is the same under both mappings, and the two mappings' references differ. */
  lemma MappingPointer(nm: Naming, arr: bool, arg: string)
    ensures MappingOf(nm, arr, arg, true).ptr == MappingOf(nm, arr, arg, false).ptr
    ensures MappingOf(nm, arr, arg, false).ptr == nm.scopedType + (if arr then "_forany*" else "*")
    ensures MappingOf(nm, arr, arg, true).ref != MappingOf(nm, arr, arg, false).ref
  {
    var classic := MappingOf(nm, arr, arg, false).ref;
    var wrapped := MappingOf(nm, arr, arg, true).ref;
    assert classic[|classic| - 1] == '&';
    assert wrapped[|wrapped| - 1] == '>';
  }

  /**
   * For a struct field, the language mapping changes neither whether
   * `init()` throws (nor what) nor the actual types, classes, element
   * names, element count, element width and the type's scoped, struct and
   * type names.
   */
  lemma FieldMappingIndependent(field: AstField, fe: FrontEnd)
    requires WellFormed(fe, field.fieldType)
    ensures var d1, d0 := Describe(FieldInput(field, true), fe, true), Describe(FieldInput(field, false), fe, false);
            && (d1.Success? <==> d0.Success?)
            && (d1.Failure? ==> d1.error == d0.error)
            && (d1.Success? ==>
                  && d1.value.elements == d0.value.elements
                  && d1.value.nElems == d0.value.nElems && d1.value.length == d0.value.length
                  && d1.value.elem.size == d0.value.elem.size
                  && d1.value.naming.scopedType == d0.value.naming.scopedType
                  && d1.value.naming.structName == d0.value.naming.structName
                  && d1.value.naming.typeName == d0.value.naming.typeName)
  {
    var t := field.fieldType;
    DescribeFails(FieldInput(field, true), fe, true);
    DescribeFails(FieldInput(field, false), fe, false);
    if ElementBase(t).Some? {
      ToCxxTypeMappingIndependent(fe, fe.resolve(ElementBase(t).value), 0);
    }
  }

  // ---------------------------------------------------------------------
  // EleLen keys

  /**
   * The key of a built descriptor is its element node (0 for a type with no
   * element) and its element count, so two descriptors share a key exactly
   * when they have the same element node, or none, and the same count.
   */
  lemma EleLenOfEquivalent(d1: Descriptor, d2: Descriptor)
    ensures var k1, k2 := EleLenOf(d1), EleLenOf(d2);
            (!EleLenLess(k1, k2) && !EleLenLess(k2, k1)) <==>
              && (d1.elements.asBase.Some? <==> d2.elements.asBase.Some?)
              && (d1.elements.asBase.Some? ==> d1.elements.asBase.value.id == d2.elements.asBase.value.id)
              && d1.nElems == d2.nElems
  {
    EleLenStrictWeakOrder(EleLenOf(d1), EleLenOf(d2), EleLenOf(d2));
  }

  /** The key `init()` leads to: the element of an array or sequence, and 0 for anything else. */
  lemma DescribeKey(input: Input, fe: FrontEnd, cxx11: bool)
    requires WellFormed(fe, input.typ) && Describe(input, fe, cxx11).Success?
    ensures var t, d := input.typ, Describe(input, fe, cxx11).value;
            && (EleLenOf(d).ele == 0 <==> ElementBase(t).None?)
            && (ElementBase(t).Some? ==> EleLenOf(d).ele == ElementBase(t).value.id)
            && EleLenOf(d).len == ElementCount(t.node).nElems
  {
  }
}
