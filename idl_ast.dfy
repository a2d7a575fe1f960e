/**
 * The part of the IDL compiler's abstract syntax tree that the field
 * descriptor engine reads: type nodes with their scoped names, the array and
 * sequence nodes, the predefined (primitive) kinds, and the two front-end
 * services it calls, `resolveActualType` and `classify`, which are inputs
 * to this model and not modelled themselves.
 */
module IdlAst {
  import opened Wrappers
  import opened Text

  /**
   * The classification flags of `AstTypeClassification` that the engine
   * tests. A classification is a set of them; the empty set is CL_UNKNOWN.
   */
  datatype ClassFlag = Primitive | Enum | String | Wide | Array | Sequence

  type Classification = set<ClassFlag>

  /** `AST_PredefinedType::PredefinedType`. */
  datatype PredefinedKind =
    | Long | ULong | LongLong | ULongLong | Short | UShort
    | Float | Double | LongDouble
    | Char | WChar | Boolean | Octet
    | Any | Object | ValueBase | Abstract | Void | Pseudo

  /** An IDL `unsigned long` constant value (`ev()->u.ulval`). */
  type ULongValue = n: nat | n < 0x1_0000_0000

  /** The address of a type node; 0 is reserved for the null pointer. */
  type Address = n: nat | 0 < n witness 1

  /**
   * An `AST_Type` node: its identity, its scoped name (`name()`, one
   * identifier per scope level), whether it is anonymous, and what kind of
   * declaration it is as far as `narrow_from_decl` can tell.
   */
  datatype AstType = AstType(id: Address, name: seq<string>, anonymous: bool, node: NodeKind)

  datatype NodeKind =
    | ArrayNode(base: AstType, dims: seq<ULongValue>)
      /** `AST_Sequence`; `maxSize` is None for an unbounded sequence. */
    | SequenceNode(base: AstType, maxSize: Option<ULongValue>)
    | PredefinedNode(pt: PredefinedKind)
      /** Any other declaration: typedef, struct, union, enum, string, ... */
    | OtherNode

  /** An `AST_Field`: its local name and its declared type. */
  datatype AstField = AstField(localName: string, fieldType: AstType)

  /** `resolveActualType` and `classify`, as supplied by the front end. */
  datatype FrontEnd = FrontEnd(resolve: AstType -> AstType, classify: AstType -> Classification)

  /** `dds_generator::scoped_helper`: the scoped name joined with `sep`. */
  function ScopedHelper(name: seq<string>, sep: string): string
  {
    Join(name, sep)
  }

  /** `scoped`: the scoped name joined with the scope operator. */
  function Scoped(name: seq<string>): string
  {
    ScopedHelper(name, "::")
  }

  /** `local_name()`: the last component of the scoped name. */
  function LocalName(t: AstType): string
  {
    if |t.name| == 0 then "" else t.name[|t.name| - 1]
  }

  /** An IDL identifier: non-empty and free of the colon that makes up `::`. */
  predicate IsIdentifier(s: string)
  {
    |s| > 0 && ':' !in s
  }

  predicate AllIdentifiers(name: seq<string>)
  {
    forall k :: 0 <= k < |name| ==> IsIdentifier(name[k])
  }
}
