/** The per-field accessor descriptor `FieldMethods` and its synthesis from a
    field kind (`FieldMethods::new` and `FieldKind::methods`). */
module Descriptors {
  import opened Base
  import opened Syntax
  import opened FieldKinds

  /** How `get_` returns the value: by value, as `&T`, or as `&S` for a view type `S`. */
  datatype RefType = Copy | Ref | Deref(target: string)

  /** Whether a `mut_` accessor exists: none, `&mut self.field`, or a custom body. */
  datatype MethodKind = NoMethod | Standard | Custom(body: string)

  /** Everything the renderer needs for one field. `name` is the field's
      identifier as printed (it may be raw, `r#type`); `unescName` is the
      identifier used inside generated method names. `clear` None means "call
      the field's own `clear()`", `setExpr` None means "store `v`", `get` None
      means "return the field (borrowed unless copied)". */
  datatype FieldMethods = FieldMethods(
    ty: string,
    refTy: RefType,
    overrideTy: Option<string>,
    name: string,
    unescName: string,
    has: bool,
    clear: Option<string>,
    setExpr: Option<string>,
    get: Option<string>,
    mt: MethodKind,
    take: Option<string>)

  /** The identifier with one leading `r#` removed. */
  function Unescape(ident: string): string {
    if |ident| >= 2 && ident[..2] == "r#" then ident[2..] else ident
  }

  /** Unescaping undoes exactly one raw prefix and touches nothing else. */
  lemma UnescapeStripsRawPrefix(ident: string, x: string)
    ensures "r#" <= ident ==> "r#" + Unescape(ident) == ident
    ensures !("r#" <= ident) ==> Unescape(ident) == ident
    ensures Unescape("r#" + x) == x
  {
    assert ("r#" + x)[..2] == "r#";
    if "r#" <= ident {
      assert ident == ident[..2] + ident[2..];
    }
  }

  /** `FieldMethods::new`: the defaults every kind starts from. */
  function NewFieldMethods(ty: Ty, ident: string): (r: FieldMethods)
    ensures !r.has && r.mt == NoMethod && r.take.None?
    ensures r.clear.None? && r.setExpr.None? && r.get.None? && r.overrideTy.None?
  {
    FieldMethods(
      ty := ty.text, refTy := Ref, overrideTy := None, name := ident,
      unescName := Unescape(ident), has := false, clear := None, setExpr := None,
      get := None, mt := NoMethod, take := None)
  }

  /** The payload type of an `Option<T>` field type: the first angle-bracketed
      argument of the last path segment, which must be named `Option`. Every
      other shape is a panic in the generator. */
  function OptionArg(ty: Ty): (r: Option<string>)
    ensures ty.TOther? ==> r.None?
    ensures r.Some? ==>
      var segs := ty.path.segments;
      && |segs| > 0 && segs[|segs| - 1].ident == "Option"
      && segs[|segs| - 1].arguments.AngleBracketed?
      && |segs[|segs| - 1].arguments.args| > 0
      && segs[|segs| - 1].arguments.args[0] == TypeArg(r.value)
  {
    match ty
    case TOther(_) => None
    case TPath(p, _) =>
      if |p.segments| == 0 then None
      else
        var seg := p.segments[|p.segments| - 1];
        if seg.ident != "Option" then None
        else
          match seg.arguments
          case AngleBracketed(args) =>
            if |args| == 0 then None
            else if args[0].TypeArg? then Some(args[0].text)
            else None
          case _ => None
  }

  // The body expressions the generator splices into the accessors.

  const OptionNone := "::std::option::Option::None"
  const OptionSomeV := "::std::option::Option::Some(v);"

  function OptionalGet(name: string, inner: string): string {
    "self." + name + ".as_ref().unwrap_or_else(|| " + inner + "::default_instance())"
  }

  function OptionalMut(name: string, inner: string): string {
    "if self." + name + ".is_none() {\n                        self." + name
      + " = ::std::option::Option::Some(" + inner + "::default());\n                    }\n                    self."
      + name + ".as_mut().unwrap()"
  }

  function OptionalTake(name: string, inner: string): string {
    "self." + name + ".take().unwrap_or_else(|| " + inner + "::default())"
  }

  function ReplaceWith(name: string, empty: string): string {
    "::std::mem::replace(&mut self." + name + ", " + empty + ")"
  }

  const VecNew := "::std::vec::Vec::new()"
  const StringNew := "::std::string::String::new()"

  function EnumSet(enumType: string): string {
    "unsafe { ::std::mem::transmute::<" + enumType + ", i32>(v) }"
  }

  function EnumGet(enumType: string, name: string): string {
    "unsafe { ::std::mem::transmute::<i32, " + enumType + ">(self." + name + ") }"
  }

  /** The kinds that get a `take_` accessor. */
  predicate Takes(k: FieldKind) {
    k.Optional? || k.Repeated? || k.Bytes? || k.String?
  }

  /** The descriptor of a field, kind by kind: None for a `oneof` field (those
      are written by hand), a failure for an optional field whose type is not
      `Option<T>`. */
  function Synthesize(kind: FieldKind, ty: Ty, ident: string): (r: Result<Option<FieldMethods>>)
    ensures r.Err? ==> r.error == MalformedOptionType
  {
    var base := NewFieldMethods(ty, ident);
    match kind
    case Optional =>
      (match OptionArg(ty)
       case None => Err(MalformedOptionType)
       case Some(inner) =>
         Ok(Some(base.(overrideTy := Some(inner), has := true, clear := Some(OptionNone),
                       setExpr := Some(OptionSomeV), get := Some(OptionalGet(ident, inner)),
                       mt := Custom(OptionalMut(ident, inner)),
                       take := Some(OptionalTake(ident, inner))))))
    case Int => Ok(Some(base.(refTy := Copy, clear := Some("0"))))
    case Bool => Ok(Some(base.(refTy := Copy, clear := Some("false"))))
    case Repeated => Ok(Some(base.(mt := Standard, take := Some(ReplaceWith(ident, VecNew)))))
    case Bytes =>
      Ok(Some(base.(refTy := Deref("[u8]"), mt := Standard, take := Some(ReplaceWith(ident, VecNew)))))
    case String =>
      Ok(Some(base.(refTy := Deref("str"), mt := Standard, take := Some(ReplaceWith(ident, StringNew)))))
    case Enumeration(e) =>
      Ok(Some(base.(overrideTy := Some(e), refTy := Copy, clear := Some("0"),
                    setExpr := Some(EnumSet(e)), get := Some(EnumGet(e, ident)))))
    case OneOf(_) => Ok(None)
  }

  /** The descriptor table by columns: which kinds fail, which write nothing,
      and what each slot holds for each kind. */
  lemma DescriptorTable(kind: FieldKind, ty: Ty, ident: string)
    ensures Synthesize(kind, ty, ident).Err? <==> kind.Optional? && OptionArg(ty).None?
    ensures Synthesize(kind, ty, ident).Ok? ==> (Synthesize(kind, ty, ident).value.None? <==> kind.OneOf?)
    ensures Synthesize(kind, ty, ident).Ok? && Synthesize(kind, ty, ident).value.Some? ==>
      var m := Synthesize(kind, ty, ident).value.value;
      && m.ty == ty.text && m.name == ident && m.unescName == Unescape(ident)
      && (m.has <==> kind.Optional?)
      && (m.take.Some? <==> Takes(kind))
      && (m.mt.Custom? <==> kind.Optional?)
      && (m.mt == Standard <==> kind.Repeated? || kind.Bytes? || kind.String?)
      && (m.mt == NoMethod <==> kind.Int? || kind.Bool? || kind.Enumeration?)
      && m.refTy == (match kind
                     case Int | Bool | Enumeration(_) => Copy
                     case Bytes => Deref("[u8]")
                     case String => Deref("str")
                     case _ => Ref)
      && m.clear == (match kind
                     case Int | Enumeration(_) => Some("0")
                     case Bool => Some("false")
                     case Optional => Some(OptionNone)
                     case _ => None)
      && m.overrideTy == (match kind
                          case Optional => OptionArg(ty)
                          case Enumeration(e) => Some(e)
                          case _ => None)
      && (m.setExpr.Some? <==> kind.Optional? || kind.Enumeration?)
      && (m.get.Some? <==> kind.Optional? || kind.Enumeration?)
  {
  }

  /** `FieldKind::methods`: start from the defaults and overwrite the slots of
      the kind one by one. */
  method Methods(kind: FieldKind, ty: Ty, ident: string) returns (r: Result<Option<FieldMethods>>)
    ensures r == Synthesize(kind, ty, ident)
  {
    var result := NewFieldMethods(ty, ident);
    match kind {
      case Optional =>
        var unwrapped := OptionArg(ty);
        if unwrapped.None? {
          return Err(MalformedOptionType);
        }
        var inner := unwrapped.value;
        result := result.(overrideTy := Some(inner));
        result := result.(has := true);
        result := result.(clear := Some(OptionNone));
        result := result.(setExpr := Some(OptionSomeV));
        result := result.(get := Some(OptionalGet(result.name, inner)));
        result := result.(mt := Custom(OptionalMut(result.name, inner)));
        result := result.(take := Some(OptionalTake(result.name, inner)));
      case Int =>
        result := result.(refTy := Copy);
        result := result.(clear := Some("0"));
      case Bool =>
        result := result.(refTy := Copy);
        result := result.(clear := Some("false"));
      case Repeated =>
        result := result.(mt := Standard);
        result := result.(take := Some(ReplaceWith(result.name, VecNew)));
      case Bytes =>
        result := result.(refTy := Deref("[u8]"));
        result := result.(mt := Standard);
        result := result.(take := Some(ReplaceWith(result.name, VecNew)));
      case String =>
        result := result.(refTy := Deref("str"));
        result := result.(mt := Standard);
        result := result.(take := Some(ReplaceWith(result.name, StringNew)));
      case Enumeration(enumType) =>
        result := result.(overrideTy := Some(enumType));
        result := result.(refTy := Copy);
        result := result.(clear := Some("0"));
        result := result.(setExpr := Some(EnumSet(enumType)));
        result := result.(get := Some(EnumGet(enumType, result.name)));
      case OneOf(_) =>
        return Ok(None);
    }
    return Ok(Some(result));
  }

  /** The optional kind succeeds exactly on `…::Option<T>` with a type `T`
      first between the angle brackets, and then exposes `T`; any other type
      form is rejected. */
  lemma OptionalTypeShape(p: Path, text: string, ident: string)
    ensures Synthesize(Optional, TOther(text), ident).Err?
    ensures Synthesize(Optional, TPath(p, text), ident).Ok? <==>
      |p.segments| > 0 && p.segments[|p.segments| - 1].ident == "Option" &&
      p.segments[|p.segments| - 1].arguments.AngleBracketed? &&
      |p.segments[|p.segments| - 1].arguments.args| > 0 &&
      p.segments[|p.segments| - 1].arguments.args[0].TypeArg?
    ensures forall inner ::
      (Synthesize(Optional, TPath(p, text), ident).Ok? &&
       p.segments[|p.segments| - 1].arguments.args[0] == TypeArg(inner)) ==>
      Synthesize(Optional, TPath(p, text), ident).value.value.overrideTy == Some(inner)
  {
    var r := Synthesize(Optional, TPath(p, text), ident);
    assert r.Ok? <==> OptionArg(TPath(p, text)).Some?;
  }
}
