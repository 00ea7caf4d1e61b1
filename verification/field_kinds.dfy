/** `FieldKind` and its classifier `FieldKind::from_attrs`: reading a field's
    `#[prost(...)]` attributes and choosing the one kind the accessors follow. */
module FieldKinds {
  import opened Base
  import opened Syntax

  datatype FieldKind =
    | Optional
    | Repeated
    | Int
    | Bool
    | Bytes
    | String
    | OneOf(name: string)
    | Enumeration(typeName: string)

  /** The integer widths the classifier knows; all of them collapse to `Int`. */
  const IntTypes: seq<string> := ["int32", "int64", "uint32", "uint64"]

  // ---------------------------------------------------------------------------
  // The derived ordering: variants in declaration order, payloads compared
  // only between two values of the same variant.

  /** Position of the variant in the declaration. */
  function Rank(k: FieldKind): nat {
    match k
    case Optional => 0
    case Repeated => 1
    case Int => 2
    case Bool => 3
    case Bytes => 4
    case String => 5
    case OneOf(_) => 6
    case Enumeration(_) => 7
  }

  /** Lexicographic order on strings, a proper prefix first. Rust orders
      `String`s by their UTF-8 bytes, which is the same order as by code points. */
  predicate StrLess(s: string, t: string) {
    if |s| == 0 then |t| > 0
    else |t| > 0 && (s[0] < t[0] || (s[0] == t[0] && StrLess(s[1..], t[1..])))
  }

  predicate Less(a: FieldKind, b: FieldKind) {
    Rank(a) < Rank(b)
    || (a.OneOf? && b.OneOf? && StrLess(a.name, b.name))
    || (a.Enumeration? && b.Enumeration? && StrLess(a.typeName, b.typeName))
  }

  predicate LessEq(a: FieldKind, b: FieldKind) {
    a == b || Less(a, b)
  }

  lemma {:induction false} StrLessIrreflexive(s: string)
    ensures !StrLess(s, s)
  {
    if |s| > 0 {
      StrLessIrreflexive(s[1..]);
    }
  }

  lemma {:induction false} StrLessTransitive(s: string, t: string, u: string)
    requires StrLess(s, t) && StrLess(t, u)
    ensures StrLess(s, u)
  {
    if |s| > 0 && s[0] == t[0] && t[0] == u[0] {
      StrLessTransitive(s[1..], t[1..], u[1..]);
    }
  }

  lemma {:induction false} StrLessTotal(s: string, t: string)
    requires s != t
    ensures StrLess(s, t) || StrLess(t, s)
  {
    if |s| > 0 && |t| > 0 && s[0] == t[0] {
      assert s == [s[0]] + s[1..] && t == [t[0]] + t[1..];
      StrLessTotal(s[1..], t[1..]);
    }
  }

  /** The derived order is a strict total order, so the least candidate is
      well defined: irreflexive, transitive and connected. */
  lemma LessIsStrictTotalOrder(a: FieldKind, b: FieldKind, c: FieldKind)
    ensures !Less(a, a)
    ensures Less(a, b) && Less(b, c) ==> Less(a, c)
    ensures a != b ==> Less(a, b) || Less(b, a)
  {
    if a.OneOf? {
      StrLessIrreflexive(a.name);
    } else if a.Enumeration? {
      StrLessIrreflexive(a.typeName);
    }
    if Less(a, b) && Less(b, c) && Rank(a) == Rank(b) == Rank(c) {
      if a.OneOf? {
        StrLessTransitive(a.name, b.name, c.name);
      } else {
        StrLessTransitive(a.typeName, b.typeName, c.typeName);
      }
    }
    if a != b && Rank(a) == Rank(b) {
      if a.OneOf? {
        StrLessTotal(a.name, b.name);
      } else if a.Enumeration? {
        StrLessTotal(a.typeName, b.typeName);
      }
    }
  }

  // ---------------------------------------------------------------------------
  // Token mapping: the closure of `filter_map`.

  /** What one entry of a `prost(...)` list contributes. A `name = lit` entry
      first has its literal's first and last characters cut off (the quotes);
      a literal shorter than two characters makes that slice panic, whatever
      the name is. */
  function TokenKind(n: Nested): (r: Result<Option<FieldKind>>)
    ensures r.Err? ==> n.NameValue? && r.error == MalformedLiteral
    ensures r.Ok? && r.value.Some? ==>
      (n.NameValue? <==> r.value.value.Enumeration? || r.value.value.OneOf?)
  {
    match n
    case Word(id) =>
      Ok(if id == "optional" then Some(Optional)
         else if id == "repeated" then Some(Repeated)
         else if id == "bytes" then Some(Bytes)
         else if id == "string" then Some(String)
         else if id == "bool" then Some(Bool)
         else if id in IntTypes then Some(Int)
         else None)
    case NameValue(id, lit) =>
      if |lit| < 2 then Err(MalformedLiteral)
      else
        var value := lit[1..|lit| - 1];
        Ok(if id == "enumeration" then Some(Enumeration(value))
           else if id == "oneof" then Some(OneOf(value))
           else None)
    case OtherNested => Ok(None)
  }

  /** The keyword table the classifier recognises, written as a table. */
  const Keywords: map<string, FieldKind> := map[
    "optional" := Optional, "repeated" := Repeated, "bytes" := Bytes,
    "string" := String, "bool" := Bool,
    "int32" := Int, "int64" := Int, "uint32" := Int, "uint64" := Int]

  /** A bare word maps through the keyword table, and every other word
      contributes nothing. */
  lemma WordTokens(w: string)
    ensures TokenKind(Word(w)) == Ok(if w in Keywords then Some(Keywords[w]) else None)
  {
  }

  /** `enumeration = "L"` and `oneof = "L"` yield the literal with its quotes
      removed; any other name contributes nothing. */
  lemma QuotedValueTokens(id: string, v: string)
    ensures TokenKind(NameValue(id, "\"" + v + "\"")) ==
      Ok(if id == "enumeration" then Some(Enumeration(v))
         else if id == "oneof" then Some(OneOf(v))
         else None)
  {
    var lit := "\"" + v + "\"";
    assert lit[1..|lit| - 1] == v;
  }

  /** Nested entries and other literals never contribute a kind; only a
      too-short `name = lit` literal fails. */
  lemma TokenFailsOnlyOnShortLiteral(n: Nested)
    ensures TokenKind(n).Err? <==> n.NameValue? && |n.lit| < 2
    ensures n.OtherNested? ==> TokenKind(n) == Ok(None)
  {
  }

  /** A token yields a kind. */
  ghost predicate Yields(n: Nested, k: FieldKind) {
    TokenKind(n) == Ok(Some(k))
  }

  /** The candidates of one `prost(...)` list, in entry order; the whole list
      fails when any entry fails. */
  function Candidates(ns: seq<Nested>): (r: Result<seq<FieldKind>>)
    ensures r.Err? ==> r.error == MalformedLiteral
    ensures r.Ok? ==> |r.value| <= |ns|
  {
    if ns == [] then
      Ok([])
    else
      match TokenKind(ns[0])
      case Err(e) => Err(e)
      case Ok(o) =>
        match Candidates(ns[1..])
        case Err(e) => Err(e)
        case Ok(ks) => Ok((if o.Some? then [o.value] else []) + ks)
  }

  /** The list fails exactly when one of its entries fails, and otherwise its
      candidates are exactly the kinds its entries yield. */
  lemma {:induction false} CandidatesSpec(ns: seq<Nested>)
    ensures Candidates(ns).Err? <==> exists i :: 0 <= i < |ns| && TokenKind(ns[i]).Err?
    ensures Candidates(ns).Ok? ==>
      forall k :: k in Candidates(ns).value <==> exists i :: 0 <= i < |ns| && Yields(ns[i], k)
  {
    if ns != [] {
      CandidatesSpec(ns[1..]);
      assert forall i :: 0 < i < |ns| ==> ns[i] == ns[1..][i - 1];
      assert forall i :: 0 <= i < |ns| - 1 ==> ns[1..][i] == ns[i + 1];
    }
  }

  /** What one attribute contributes: its candidates when it is
      `#[prost(...)]` with a list, nothing otherwise. */
  function AttrCandidates(a: Attr): Result<seq<FieldKind>> {
    if IsIdent(a.path, "prost") && a.meta.Some? then Candidates(a.meta.value) else Ok([])
  }

  // ---------------------------------------------------------------------------
  // Sort, then take the first.

  /** The least element of a non-empty candidate list. */
  function Least(ks: seq<FieldKind>): (r: FieldKind)
    requires |ks| > 0
    ensures r in ks
  {
    if |ks| == 1 then ks[0]
    else
      var m := Least(ks[1..]);
      if LessEq(ks[0], m) then ks[0] else m
  }

  lemma {:induction false} LeastIsMinimum(ks: seq<FieldKind>)
    requires |ks| > 0
    ensures Least(ks) in ks
    ensures forall k :: k in ks ==> LessEq(Least(ks), k)
  {
    if |ks| > 1 {
      LeastIsMinimum(ks[1..]);
      var m := Least(ks[1..]);
      forall k | k in ks ensures LessEq(Least(ks), k) {
        if k != ks[0] {
          assert k in ks[1..];
          LessIsStrictTotalOrder(ks[0], m, k);
        }
        LessIsStrictTotalOrder(m, ks[0], k);
      }
    }
  }

  predicate Sorted(s: seq<FieldKind>) {
    forall i, j :: 0 <= i < j < |s| ==> LessEq(s[i], s[j])
  }

  /** `kinds.sort()` followed by taking the first element: whatever order the
      sort leaves, the head of a sorted permutation of the candidates is their
      least element. */
  lemma SortedHeadIsLeast(ks: seq<FieldKind>, sorted: seq<FieldKind>)
    requires |ks| > 0
    requires multiset(sorted) == multiset(ks) && Sorted(sorted)
    ensures |sorted| > 0 && sorted[0] == Least(ks)
  {
    assert |sorted| == |ks|;
    LeastIsMinimum(ks);
    var m := Least(ks);
    assert m in multiset(ks);
    assert m in multiset(sorted);
    assert m in sorted;
    var j :| 0 <= j < |sorted| && sorted[j] == m;
    assert sorted[0] in multiset(ks);
    assert LessEq(m, sorted[0]);
    if j > 0 {
      assert LessEq(sorted[0], m);
      if sorted[0] != m {
        LessIsStrictTotalOrder(m, sorted[0], m);
      }
    }
  }

  // ---------------------------------------------------------------------------
  // The classifier.

  /** `from_attrs`: the least candidate of the first `prost` attribute that
      yields any; a failing entry list panics when it is reached; no
      candidates anywhere panics with "Unknown field kind". */
  function Classify(attrs: seq<Attr>): (r: Result<FieldKind>)
    ensures r.Err? ==> r.error == UnknownFieldKind || r.error == MalformedLiteral
    ensures attrs == [] ==> r == Err(UnknownFieldKind)
  {
    if attrs == [] then
      Err(UnknownFieldKind)
    else
      match AttrCandidates(attrs[0])
      case Err(e) => Err(e)
      case Ok(ks) => if ks != [] then Ok(Least(ks)) else Classify(attrs[1..])
  }

  /** A `prost` list whose one entry is recognised classifies the field as
      that entry's kind, whatever attributes follow. */
  lemma SingleEntryClassifies(p: Path, n: Nested, k: FieldKind, tts: string, rest: seq<Attr>)
    requires IsIdent(p, "prost") && Yields(n, k)
    ensures Classify([Attr(p, Some([n]), tts)] + rest) == Ok(k)
  {
    assert [n][0] == n && [n][1..] == [];
    assert Candidates([n][1..]) == Ok([]);
    assert [k] + [] == [k];
    assert Candidates([n]) == Ok([k]);
    var attrs := [Attr(p, Some([n]), tts)] + rest;
    assert attrs[0] == Attr(p, Some([n]), tts);
    assert AttrCandidates(attrs[0]) == Ok([k]);
  }

  /** Every attribute before index `i` contributes nothing. */
  ghost predicate SilentBefore(attrs: seq<Attr>, i: int)
    requires 0 <= i <= |attrs|
  {
    forall j :: 0 <= j < i ==> AttrCandidates(attrs[j]) == Ok([])
  }

  /** The attribute at `i` is the first one that contributes or fails. */
  ghost predicate DecidesAt(attrs: seq<Attr>, i: int) {
    0 <= i < |attrs| && SilentBefore(attrs, i) && AttrCandidates(attrs[i]) != Ok([])
  }

  /** The classifier's result, characterised by the deciding attribute:
      success is the least candidate of the first attribute with candidates,
      a failure comes from that first deciding attribute, and
      `UnknownFieldKind` means that no attribute contributes anything. */
  lemma {:induction false} ClassifyDecided(attrs: seq<Attr>)
    ensures Classify(attrs) == Err(UnknownFieldKind) <==> SilentBefore(attrs, |attrs|)
    ensures forall i :: DecidesAt(attrs, i) ==>
      Classify(attrs) == (match AttrCandidates(attrs[i])
                          case Err(e) => Err(e)
                          case Ok(ks) => Ok(Least(ks)))
  {
    if attrs != [] {
      ClassifyDecided(attrs[1..]);
      assert forall j :: 0 < j < |attrs| ==> attrs[j] == attrs[1..][j - 1];
      forall i | DecidesAt(attrs, i) && i > 0 ensures DecidesAt(attrs[1..], i - 1) {
      }
      assert SilentBefore(attrs, |attrs|) <==>
        AttrCandidates(attrs[0]) == Ok([]) && SilentBefore(attrs[1..], |attrs| - 1);
    }
  }

  /** A successful classification is the least candidate of some attribute,
      so it is one of the field's own tokens. */
  lemma ClassifyIsLeastOfAttr(attrs: seq<Attr>, k: FieldKind)
    requires Classify(attrs) == Ok(k)
    ensures exists i :: (0 <= i < |attrs| && AttrCandidates(attrs[i]).Ok? &&
      var ks := AttrCandidates(attrs[i]).value;
      |ks| > 0 && k == Least(ks) && forall c :: c in ks ==> LessEq(k, c))
  {
    ClassifyDecided(attrs);
    var i := FirstDeciding(attrs);
    LeastIsMinimum(AttrCandidates(attrs[i]).value);
  }

  /** Index of the first attribute that contributes or fails (helper for proofs). */
  lemma {:induction false} FirstDecidingExists(attrs: seq<Attr>)
    requires !SilentBefore(attrs, |attrs|)
    ensures exists i :: DecidesAt(attrs, i)
  {
    var j :| 0 <= j < |attrs| && AttrCandidates(attrs[j]) != Ok([]);
    var i := 0;
    while i < j && AttrCandidates(attrs[i]) == Ok([])
      invariant 0 <= i <= j
      invariant SilentBefore(attrs, i)
    {
      i := i + 1;
    }
    assert DecidesAt(attrs, i);
  }

  ghost function FirstDeciding(attrs: seq<Attr>): (i: nat)
    requires !SilentBefore(attrs, |attrs|)
    ensures DecidesAt(attrs, i)
  {
    FirstDecidingExists(attrs);
    var i :| DecidesAt(attrs, i); i
  }

  /** `FieldKind::from_attrs`, as the loop over the attributes with an early return. */
  method FromAttrs(attrs: seq<Attr>) returns (r: Result<FieldKind>)
    ensures r == Classify(attrs)
  {
    var i := 0;
    while i < |attrs|
      invariant 0 <= i <= |attrs|
      invariant Classify(attrs[i..]) == Classify(attrs)
    {
      assert attrs[i..][1..] == attrs[i + 1..];
      var a := attrs[i];
      if IsIdent(a.path, "prost") && a.meta.Some? {
        var kinds := Candidates(a.meta.value);
        if kinds.Err? {
          return Err(kinds.error);
        }
        if kinds.value != [] {
          return Ok(Least(kinds.value));
        }
      }
      i := i + 1;
    }
    return Err(UnknownFieldKind);
  }
}
