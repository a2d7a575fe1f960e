/**
 * The naming half of dds/idl/field_info.cpp: the scope operator, the
 * search functions of `std::string` over it (with npos and its size_t
 * wrap-around), `underscore`, `get_type_name`, `underscored_type_name` and
 * `ref`.
 */
module FieldNaming {
  import opened Wrappers
  import opened Text
  import opened IdlAst

  /** `FieldInfo::scope_op`. */
  const SCOPE_OP := "::"

  /** Arithmetic on `std::size_t` is modulo 2^64. */
  const SIZE_T_MODULUS: nat := 0x1_0000_0000_0000_0000

  /** `std::string::npos`, the largest `std::size_t`. */
  const NPOS: nat := SIZE_T_MODULUS - 1

  /** The scope operator starts at index `k` of `s`. */
  predicate ScopeOpAt(s: string, k: int)
  {
    0 <= k && k + 1 < |s| && s[k] == ':' && s[k + 1] == ':'
  }

  predicate NoScopeOp(s: string)
  {
    forall k :: 0 <= k < |s| ==> !ScopeOpAt(s, k)
  }

  /** `s.find(scope_op, from)`: the first occurrence at or after `from`; None is npos. */
  function Find(s: string, from: nat): (r: Option<nat>)
    ensures r.Some? ==> from <= r.value && ScopeOpAt(s, r.value)
    ensures r.Some? ==> forall k :: from <= k < r.value ==> !ScopeOpAt(s, k)
    ensures r.None? ==> forall k :: from <= k ==> !ScopeOpAt(s, k)
    decreases |s| - from
  {
    if from + 2 > |s| then None
    else if ScopeOpAt(s, from) then Some(from)
    else Find(s, from + 1)
  }

  /** The last occurrence of the scope operator that starts below `end`. */
  function RFindBelow(s: string, end: nat): (r: Option<nat>)
    ensures r.Some? ==> r.value < end && ScopeOpAt(s, r.value)
    ensures r.Some? ==> forall k :: r.value < k < end ==> !ScopeOpAt(s, k)
    ensures r.None? ==> forall k :: k < end ==> !ScopeOpAt(s, k)
  {
    if end == 0 then None
    else if ScopeOpAt(s, end - 1) then Some(end - 1)
    else RFindBelow(s, end - 1)
  }

  /** `s.rfind(scope_op)`: the last occurrence; None is npos. */
  function RFind(s: string): (r: Option<nat>)
    ensures r.Some? ==> ScopeOpAt(s, r.value) && forall k :: r.value < k ==> !ScopeOpAt(s, k)
    ensures r.None? ==> NoScopeOp(s)
  {
    RFindBelow(s, |s|)
  }

  /** The size_t value of `pos + 2` when `pos` is a search result (npos wraps to 1). */
  function PastScopeOp(pos: Option<nat>): nat
  {
    match pos
    case Some(i) => i + 2
    case None => (NPOS + 2) % SIZE_T_MODULUS
  }

  lemma NposPlusTwoWraps()
    ensures PastScopeOp(None) == 1
  {
  }

  // ---------------------------------------------------------------------
  // underscore

  /**
   * What `underscore` produces from the text `s` it may still search:
   * each scope operator found becomes one underscore, and, because the
   * search resumes two characters after the replacement, the character that
   * follows a replaced operator is copied without being searched (Skip).
   */
  function Scan(s: string): string
    decreases |s|, 1
  {
    if |s| < 2 then s
    else if s[0] == ':' && s[1] == ':' then "_" + Skip(s[2..])
    else [s[0]] + Scan(s[1..])
  }

  function Skip(s: string): string
    decreases |s|, 0
  {
    if |s| == 0 then s else [s[0]] + Scan(s[1..])
  }

  /** The result of `FieldInfo::underscore(s)`. */
  function Underscored(s: string): string
  {
    Scan(s)
  }

  /** The output so far plus what is left to search from `pos`. */
  function Finish(s: string, pos: nat): string
  {
    if pos >= |s| then s else s[..pos] + Scan(s[pos..])
  }

  /** Text free of the operator from `pos` on is left as it is. */
  lemma {:induction false} ScanNoScopeOp(s: string, pos: nat)
    requires pos <= |s|
    requires forall k :: pos <= k ==> !ScopeOpAt(s, k)
    ensures Scan(s[pos..]) == s[pos..]
    decreases |s| - pos
  {
    if |s| - pos >= 2 {
      assert !ScopeOpAt(s, pos);
      ScanNoScopeOp(s, pos + 1);
      assert s[pos..] == [s[pos]] + s[pos + 1..];
      assert s[pos..][1..] == s[pos + 1..];
    }
  }

  /** Scanning copies everything before the first operator at or after `pos`. */
  lemma {:induction false} ScanUpTo(s: string, pos: nat, j: nat)
    requires pos <= j && j + 2 <= |s|
    requires forall k :: pos <= k < j ==> !ScopeOpAt(s, k)
    ensures Scan(s[pos..]) == s[pos..j] + Scan(s[j..])
    decreases j - pos
  {
    if pos < j {
      assert !ScopeOpAt(s, pos);
      var t := s[pos..];
      assert t[1..] == s[pos + 1..];
      assert Scan(t) == [s[pos]] + Scan(s[pos + 1..]);
      ScanUpTo(s, pos + 1, j);
      assert s[pos..j] == [s[pos]] + s[pos + 1..j];
    }
  }

  /** A scope operator at the front of the searched text becomes one underscore. */
  lemma ScanAtScopeOp(s: string, j: nat)
    requires ScopeOpAt(s, j)
    ensures Scan(s[j..]) == "_" + Skip(s[j + 2..])
  {
    assert s[j..][2..] == s[j + 2..];
  }

  /** After replacing the operator at `j`, the text searched from `j + 2` on is Skip's. */
  lemma FinishReplaced(s: string, j: nat)
    requires ScopeOpAt(s, j)
    ensures Finish(s[..j] + "_" + s[j + 2..], j + 2) == s[..j] + "_" + Skip(s[j + 2..])
  {
    var t := s[..j] + "_" + s[j + 2..];
    if j + 2 < |t| {
      assert t[..j + 2] == s[..j] + "_" + [s[j + 2]];
      assert t[j + 2..] == s[j + 3..];
      assert s[j + 2..][1..] == s[j + 3..];
      assert Skip(s[j + 2..]) == [s[j + 2]] + Scan(s[j + 3..]);
    } else if j + 2 < |s| {
      assert s[j + 2..] == [s[j + 2]];
      assert Skip(s[j + 2..]) == [s[j + 2]] + Scan([]);
    } else {
      assert s[j + 2..] == [];
    }
  }

  /** One replacement, seen through Finish. */
  lemma ReplaceStep(s: string, pos: nat, j: nat)
    requires pos <= j && ScopeOpAt(s, j)
    requires forall k :: pos <= k < j ==> !ScopeOpAt(s, k)
    ensures Finish(s[..j] + "_" + s[j + 2..], j + 2) == Finish(s, pos)
  {
    ScanUpTo(s, pos, j);
    ScanAtScopeOp(s, j);
    FinishReplaced(s, j);
    var x := Scan(s[j..]);
    assert Finish(s, pos) == s[..pos] + (s[pos..j] + x);
    SeqAssociative(s[..pos], s[pos..j], x);
    assert s[..pos] + s[pos..j] == s[..j];
    SeqAssociative(s[..j], "_", Skip(s[j + 2..]));
  }

  /** Concatenation is associative. */
  lemma SeqAssociative<T>(a: seq<T>, b: seq<T>, c: seq<T>)
    ensures a + (b + c) == (a + b) + c
  {
  }

  /**
   * `FieldInfo::underscore`: replaces each scope operator that the forward
   * search finds with one underscore, resuming the search two characters
   * after the replacement.
   */
  method Underscore(scopedType: string) returns (s: string)
    ensures s == Underscored(scopedType)
  {
    s := scopedType;
    ghost var pos: nat := 0;
    var i := Find(s, 0);
    while i.Some?
      invariant i == Find(s, pos)
      invariant Finish(s, pos) == Underscored(scopedType)
      decreases |s|
    {
      var j := i.value;
      ReplaceStep(s, pos, j);
      s := s[..j] + "_" + s[j + 2..];
      pos := j + 2;
      i := Find(s, j + 2);
    }
    if pos < |s| {
      ScanNoScopeOp(s, pos);
      assert s[..pos] + s[pos..] == s;
    }
  }

  /** A name with no scope operator is returned unchanged. */
  lemma UnderscoredUnchanged(s: string)
    requires NoScopeOp(s)
    ensures Underscored(s) == s
  {
    ScanNoScopeOp(s, 0);
    assert s[0..] == s;
  }

  /** The output is empty exactly when the input is. */
  lemma UnderscoredEmpty(s: string)
    ensures Underscored(s) == "" <==> s == ""
  {
  }

  /** Three colons in a row nowhere in `s`: no operator is followed by a colon. */
  predicate NoTripleColon(s: string)
  {
    forall k :: 0 <= k && k + 2 < |s| ==> !(s[k] == ':' && s[k + 1] == ':' && s[k + 2] == ':')
  }

  lemma NoTripleColonSuffix(s: string, j: nat)
    requires j <= |s| && NoTripleColon(s)
    ensures NoTripleColon(s[j..])
  {
    var t := s[j..];
    forall k | 0 <= k && k + 2 < |t|
      ensures !(t[k] == ':' && t[k + 1] == ':' && t[k + 2] == ':')
    {
      assert t[k] == s[j + k] && t[k + 1] == s[j + k + 1] && t[k + 2] == s[j + k + 2];
    }
  }

  lemma NoScopeOpCons(c: char, x: string)
    requires NoScopeOp(x)
    requires c == ':' ==> |x| == 0 || x[0] != ':'
    ensures NoScopeOp([c] + x)
  {
    var y := [c] + x;
    forall k ensures !ScopeOpAt(y, k) {
      if 1 <= k && k + 1 < |y| {
        assert y[k] == x[k - 1] && y[k + 1] == x[k];
        assert !ScopeOpAt(x, k - 1);
      }
    }
  }

  /**
   * Without three consecutive colons, `underscore` leaves no scope operator
   * behind; and its output starts with a colon only where its input starts
   * with a lone colon.
   */
  lemma {:induction false} ScanRemovesScopeOps(s: string)
    requires NoTripleColon(s)
    ensures NoScopeOp(Scan(s))
    ensures |Scan(s)| > 0 && Scan(s)[0] == ':' ==> s[0] == ':' && (|s| == 1 || s[1] != ':')
    decreases |s|
  {
    if |s| < 2 {
    } else if s[0] == ':' && s[1] == ':' {
      var r := s[2..];
      if |r| > 0 {
        assert r[0] != ':' by { assert !(s[0] == ':' && s[1] == ':' && s[2] == ':'); }
        NoTripleColonSuffix(s, 3);
        assert r[1..] == s[3..];
        ScanRemovesScopeOps(r[1..]);
        NoScopeOpCons(r[0], Scan(r[1..]));
        NoScopeOpCons('_', Skip(r));
      } else {
        NoScopeOpCons('_', "");
      }
    } else {
      NoTripleColonSuffix(s, 1);
      ScanRemovesScopeOps(s[1..]);
      NoScopeOpCons(s[0], Scan(s[1..]));
    }
  }

  lemma UnderscoredRemovesScopeOps(s: string)
    requires NoTripleColon(s)
    ensures NoScopeOp(Underscored(s))
  {
    ScanRemovesScopeOps(s);
  }

  /**
   * Two adjacent operators are not both replaced: "::::" becomes "_::",
   * which still holds the operator.
   */
  lemma UnderscoredAdjacentOperators()
    ensures Underscored("::::") == "_::"
    ensures !NoScopeOp(Underscored("::::"))
  {
    assert Skip(":") == ":";
    assert Skip("::") == "::";
    assert ScopeOpAt("_::", 1);
  }

  /** No character of an identifier is a colon. */
  lemma IdentifierNoColon(s: string)
    requires IsIdentifier(s)
    ensures forall k :: 0 <= k < |s| ==> s[k] != ':'
  {
    forall k | 0 <= k < |s| ensures s[k] != ':' {
      assert s[k] in s;
    }
  }

  /** Scanning text that starts with a colon-free part copies that part. */
  lemma {:induction false} ScanColonFreePrefix(a: string, b: string)
    requires forall k :: 0 <= k < |a| ==> a[k] != ':'
    ensures Scan(a + b) == a + Scan(b)
    decreases |a|
  {
    if |a| > 0 {
      var s := a + b;
      assert s[0] == a[0] != ':';
      assert s[1..] == a[1..] + b;
      assert forall k :: 0 <= k < |a[1..]| ==> a[1..][k] == a[k + 1];
      ScanColonFreePrefix(a[1..], b);
      if |s| >= 2 {
        assert Scan(s) == [a[0]] + Scan(s[1..]);
      } else {
        assert b == [] && s == a;
      }
      assert a == [a[0]] + a[1..];
    } else {
      assert a + b == b;
    }
  }

  /**
   * For a scoped name built from identifiers, `underscore` of the
   * "::"-joined name is the "_"-joined name, as `scoped_helper(sn, "_")`
   * builds it.
   */
  lemma {:induction false} UnderscoredScoped(name: seq<string>)
    requires AllIdentifiers(name)
    ensures Underscored(Scoped(name)) == ScopedHelper(name, "_")
  {
    if |name| == 1 {
      IdentifierNoColon(name[0]);
      ScanColonFreePrefix(name[0], "");
      assert name[0] + "" == name[0];
    } else if |name| > 1 {
      var a, rest := name[0], Join(name[1..], "::");
      assert AllIdentifiers(name[1..]) by {
        forall k | 0 <= k < |name[1..]| ensures IsIdentifier(name[1..][k]) {
          assert name[1..][k] == name[k + 1];
        }
      }
      UnderscoredScoped(name[1..]);
      assert IsIdentifier(name[0]) && IsIdentifier(name[1]);
      assert |rest| > 0 && rest[0] != ':' by {
        JoinStartsWithFirst(name[1..], "::");
      }
      assert Scoped(name) == a + ("::" + rest);
      IdentifierNoColon(a);
      ScanColonFreePrefix(a, "::" + rest);
      assert ("::" + rest)[2..] == rest;
      assert Scan("::" + rest) == "_" + Skip(rest);
      assert Skip(rest) == Scan(rest) by {
        if |rest| >= 2 {
          assert Scan(rest) == [rest[0]] + Scan(rest[1..]);
        } else {
          assert rest == [rest[0]];
        }
      }
      assert ScopedHelper(name, "_") == a + "_" + ScopedHelper(name[1..], "_");
    }
  }

  lemma {:induction false} JoinStartsWithFirst(parts: seq<string>, sep: string)
    requires |parts| > 0 && |parts[0]| > 0
    ensures |Join(parts, sep)| > 0 && Join(parts, sep)[0] == parts[0][0]
  {
  }

  // ---------------------------------------------------------------------
  // get_type_name, underscored_type_name, ref

  /** `FieldInfo::get_type_name`. */
  function GetTypeName(t: AstType): string
  {
    var n := Scoped(t.name);
    if !t.anonymous then n
    else
      var cut := PastScopeOp(RFind(n));
      var m := n[..if cut <= |n| then cut else |n|] + "_" + LocalName(t);
      if t.node.SequenceNode? then m + "_seq" else m
  }

  /** In a joined name whose last part is an identifier, the last operator is the joining one. */
  lemma RFindScoped(scope: seq<string>, local: string)
    requires |scope| > 0 && IsIdentifier(local)
    ensures Scoped(scope + [local]) == Scoped(scope) + "::" + local
    ensures RFind(Scoped(scope + [local])) == Some(|Scoped(scope)|)
  {
    JoinSnoc(scope, local, "::");
    var a := Scoped(scope);
    var n := a + "::" + local;
    assert ScopeOpAt(n, |a|);
    forall k | |a| < k
      ensures !ScopeOpAt(n, k)
    {
      if k + 1 < |n| {
        assert n[k + 1] == local[k + 1 - |a| - 2];
      }
    }
  }

  /**
   * An anonymous type `S::...::L` is named `S::..._L` (with `_seq` for a
   * sequence): the text up to and including its last scope operator, an
   * underscore, and its local name.
   */
  lemma GetTypeNameAnonymous(t: AstType, scope: seq<string>)
    requires t.anonymous && |scope| > 0
    requires |t.name| == |scope| + 1 && t.name[..|scope|] == scope
    requires IsIdentifier(LocalName(t))
    ensures GetTypeName(t) == Scoped(scope) + "::_" + LocalName(t)
                              + (if t.node.SequenceNode? then "_seq" else "")
  {
    var local := LocalName(t);
    assert t.name == scope + [local];
    RFindScoped(scope, local);
    var n := Scoped(scope) + "::" + local;
    assert n[..|Scoped(scope)| + 2] == Scoped(scope) + "::";
  }

  /**
   * A one-level anonymous name has no operator: rfind gives npos, npos + 2
   * wraps to 1, and the name keeps its first character as the prefix.
   */
  lemma GetTypeNameTopLevel(t: AstType)
    requires t.anonymous && |t.name| == 1 && IsIdentifier(t.name[0])
    ensures GetTypeName(t) == t.name[0][..1] + "_" + t.name[0]
                              + (if t.node.SequenceNode? then "_seq" else "")
  {
    var n := t.name[0];
    assert Scoped(t.name) == n;
    assert NoScopeOp(n) by {
      forall k ensures !ScopeOpAt(n, k) {
        if 0 <= k < |n| { assert n[k] in n; }
      }
    }
  }

  /** A type that is not anonymous is named by its scoped name. */
  lemma GetTypeNameNamed(t: AstType)
    requires !t.anonymous
    ensures GetTypeName(t) == Scoped(t.name)
  {
  }

  /** `FieldInfo::underscored_type_name`: empty under the classic mapping. */
  function UnderscoredTypeName(sn: seq<string>, cxx11: bool): (r: string)
  {
    if cxx11 then ScopedHelper(sn, "_") else ""
  }

  /**
   * Under the C++11 mapping, the tag name built from a name's parts is the
   * `underscore` of its scoped name whenever the parts are identifiers; the
   * classic mapping never names a tag.
   */
  lemma UnderscoredTypeNameIsUnderscore(sn: seq<string>, cxx11: bool)
    requires AllIdentifiers(sn)
    ensures UnderscoredTypeName(sn, cxx11) == if cxx11 then Underscored(Scoped(sn)) else ""
  {
    UnderscoredScoped(sn);
  }

  /** `FieldInfo::ref`: the C++11 wrapper type that tags `scopedT` with `underscoredT`. */
  function Ref(scopedT: string, underscoredT: string, constS: string): string
  {
    "IDL::DistinctType<" + constS + scopedT + ", " + underscoredT + "_tag>"
  }

  /**
   * The tag tells wrapper types apart: with the same wrapped type and
   * qualifier, two references are equal exactly when their tags are.
   */
  lemma RefDistinguishesTags(scopedT: string, u1: string, u2: string, constS: string)
    ensures Ref(scopedT, u1, constS) == Ref(scopedT, u2, constS) <==> u1 == u2
  {
    var p := "IDL::DistinctType<" + constS + scopedT + ", ";
    assert Ref(scopedT, u1, constS) == p + u1 + "_tag>";
    assert Ref(scopedT, u2, constS) == p + u2 + "_tag>";
    if Ref(scopedT, u1, constS) == Ref(scopedT, u2, constS) {
      var r1, r2 := p + u1 + "_tag>", p + u2 + "_tag>";
      assert |u1| == |u2|;
      assert u1 == r1[|p|..|p| + |u1|];
      assert u2 == r2[|p|..|p| + |u2|];
    }
  }

  /** The const reference and the plain one differ. */
  lemma RefConstDiffers(scopedT: string, underscoredT: string)
    ensures Ref(scopedT, underscoredT, "const ") != Ref(scopedT, underscoredT, "")
  {
    assert |Ref(scopedT, underscoredT, "const ")| == |Ref(scopedT, underscoredT, "")| + 6;
  }
}
