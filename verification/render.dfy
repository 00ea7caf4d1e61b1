/** Rendering a descriptor into accessor methods (`FieldMethods::write_methods`).
    The output buffer is a sequence of chunks, one per `write!`/`writeln!`
    call; a `writeln!` chunk ends in a newline. */
module Rendering {
  import opened Base
  import opened Syntax
  import opened FieldKinds
  import opened Descriptors

  /** The output buffer the generator appends to. */
  class Output {
    var chunks: seq<string>

    constructor ()
      ensures chunks == []
    {
      chunks := [];
    }

    method Write(s: string)
      modifies this
      ensures chunks == old(chunks) + [s]
    {
      chunks := chunks + [s];
    }
  }

  /** The accessor family, in the order they are written. */
  datatype Accessor = Has | Clear | Set | Get | Mut | Take

  function Position(a: Accessor): nat {
    match a
    case Has => 0
    case Clear => 1
    case Set => 2
    case Get => 3
    case Mut => 4
    case Take => 5
  }

  function MethodPrefix(a: Accessor): string {
    match a
    case Has => "has_"
    case Clear => "clear_"
    case Set => "set_"
    case Get => "get_"
    case Mut => "mut_"
    case Take => "take_"
  }

  /** Whether the descriptor asks for the accessor. */
  predicate Present(a: Accessor, m: FieldMethods) {
    match a
    case Has => m.has
    case Mut => !m.mt.NoMethod?
    case Take => m.take.Some?
    case _ => true
  }

  /** The accessors a descriptor yields, in writing order. */
  function Accessors(m: FieldMethods): (r: seq<Accessor>)
    ensures 3 <= |r| <= 6
  {
    (if m.has then [Has] else []) + [Clear, Set, Get]
      + (if m.mt.NoMethod? then [] else [Mut]) + (if m.take.Some? then [Take] else [])
  }

  /** A descriptor yields each accessor it asks for exactly once, in writing
      order, and no other. */
  lemma AccessorsInWritingOrder(m: FieldMethods)
    ensures forall a :: a in Accessors(m) <==> Present(a, m)
    ensures forall i, j :: 0 <= i < j < |Accessors(m)| ==> Position(Accessors(m)[i]) < Position(Accessors(m)[j])
    ensures |Accessors(m)| == 3 + (if m.has then 1 else 0) + (if m.mt.NoMethod? then 0 else 1)
                              + (if m.take.Some? then 1 else 0)
  {
  }

  /** The type `set_`, `mut_` and `take_` speak of: the override, else the field type. */
  function ExposedTy(m: FieldMethods): string {
    match m.overrideTy
    case Some(s) => s
    case None => m.ty
  }

  /** The return type of `get_`. */
  function ReturnTy(m: FieldMethods): string {
    match m.refTy
    case Copy => ExposedTy(m)
    case Ref => "&" + ExposedTy(m)
    case Deref(s) => "&" + s
  }

  /** The shape every generated accessor has:
      `pub fn <prefix><name>(<params>)<ret> { <body> }`. */
  function Decl(prefix: string, name: string, params: string, ret: string, body: string): string {
    "pub fn " + prefix + name + "(" + params + ")" + ret + " { " + body + " }"
  }

  /** The body of `get_` when the descriptor has no custom getter: the field,
      borrowed unless it is returned by copy. */
  function DefaultGetBody(m: FieldMethods): string {
    (if m.refTy.Copy? then "" else "&") + "self." + m.name
  }

  /** A getter hands out a reference, to the field or to a view of it, unless
      its value is copied out: then it returns the exposed type itself. */
  lemma GetterBorrowsUnlessCopied(m: FieldMethods)
    ensures m.refTy.Copy? ==> ReturnTy(m) == ExposedTy(m)
    ensures !m.refTy.Copy? ==> |ReturnTy(m)| > 0 && ReturnTy(m)[0] == '&'
    ensures !m.refTy.Copy? <==> |DefaultGetBody(m)| > 0 && DefaultGetBody(m)[0] == '&'
  {
  }

  /** The parameter list of each accessor. */
  function Params(a: Accessor, m: FieldMethods): (r: string)
  {
    match a
    case Has | Get => "&self"
    case Set => "&mut self, v: " + ExposedTy(m)
    case _ => "&mut self"
  }

  /** Only `has_` and `get_` borrow `self` immutably; the others may change
      the field. */
  lemma ReadOnlyAccessors(a: Accessor, m: FieldMethods)
    ensures Params(a, m) == "&self" <==> a == Has || a == Get
    ensures Params(a, m) != "&self" ==> "&mut self" <= Params(a, m)
  {
  }

  /** The return-type part of each accessor's signature (empty for unit). */
  function Ret(a: Accessor, m: FieldMethods): (r: string)
  {
    match a
    case Has => " -> bool"
    case Get => " -> " + ReturnTy(m)
    case Mut => " -> &mut " + ExposedTy(m)
    case Take => " -> " + ExposedTy(m)
    case _ => ""
  }

  /** `clear_` and `set_` return nothing; every other accessor returns a value. */
  lemma UnitAccessors(a: Accessor, m: FieldMethods)
    ensures Ret(a, m) == "" <==> a == Clear || a == Set
  {
  }

  /** The body of each accessor. */
  function Body(a: Accessor, m: FieldMethods): string {
    var n := m.name;
    match a
    case Has => "self." + n + ".is_some()"
    case Clear =>
      (match m.clear
       case Some(s) => "self." + n + " = " + s
       case None => "self." + n + ".clear();")
    case Set =>
      (match m.setExpr
       case Some(s) => "self." + n + " = " + s + ";"
       case None => "self." + n + " = v;")
    case Get =>
      (match m.get
       case Some(s) => s
       case None => DefaultGetBody(m))
    case Mut =>
      (match m.mt
       case Custom(s) => s
       case _ => "&mut self." + n)
    case Take => m.take.GetOr("")
  }

  /** The text written for one accessor; the custom `mut_` line alone ends
      in a space before its newline. */
  function Render(a: Accessor, m: FieldMethods): string {
    var lineEnd := if a == Mut && m.mt.Custom? then " \n" else "\n";
    Decl(MethodPrefix(a), m.unescName, Params(a, m), Ret(a, m), Body(a, m)) + lineEnd
  }

  /** Every accessor is one `writeln!` chunk that ends in a newline right after
      its body's closing brace; only the custom `mut_` chunk has a space between
      the brace and the newline (its spliced body spans several text lines). */
  lemma RenderEndsAfterBrace(a: Accessor, m: FieldMethods)
    ensures var r := Render(a, m);
      && |r| >= 3 && r[|r| - 1] == '\n'
      && (r[|r| - 2] == ' ' <==> a == Mut && m.mt.Custom?)
      && (r[|r| - 2] == '}' <==> !(a == Mut && m.mt.Custom?))
  {
    var d := Decl(MethodPrefix(a), m.unescName, Params(a, m), Ret(a, m), Body(a, m));
    assert d[|d| - 1] == '}';
  }

  /** A sequence is a prefix of itself extended. */
  lemma PrefixOfAppend(x: string, y: string, z: string)
    requires x <= y
    ensures x <= y + z
  {
    assert (y + z)[..|y|] == y;
  }

  /** Every accessor is a public method named after the unescaped identifier. */
  lemma RenderNamesMethod(a: Accessor, m: FieldMethods)
    ensures "pub fn " + MethodPrefix(a) + m.unescName + "(" <= Render(a, m)
  {
    var h := "pub fn " + MethodPrefix(a) + m.unescName + "(";
    var lineEnd := if a == Mut && m.mt.Custom? then " \n" else "\n";
    PrefixOfAppend(h, h, Params(a, m));
    PrefixOfAppend(h, h + Params(a, m), ")");
    PrefixOfAppend(h, h + Params(a, m) + ")", Ret(a, m));
    PrefixOfAppend(h, h + Params(a, m) + ")" + Ret(a, m), " { ");
    PrefixOfAppend(h, h + Params(a, m) + ")" + Ret(a, m) + " { ", Body(a, m));
    PrefixOfAppend(h, h + Params(a, m) + ")" + Ret(a, m) + " { " + Body(a, m), " }");
    PrefixOfAppend(h, h + Params(a, m) + ")" + Ret(a, m) + " { " + Body(a, m) + " }", lineEnd);
  }

  /** The line of an accessor when the descriptor asks for it. */
  function LineIf(a: Accessor, m: FieldMethods): seq<string> {
    if Present(a, m) then [Render(a, m)] else []
  }

  /** The texts of a run of accessors, in the same order. */
  function RenderAll(acc: seq<Accessor>, m: FieldMethods): (r: seq<string>)
    ensures |r| == |acc|
  {
    if acc == [] then [] else [Render(acc[0], m)] + RenderAll(acc[1..], m)
  }

  /** Rendering distributes over concatenating runs of accessors. */
  lemma {:induction false} RenderAllAppend(a: seq<Accessor>, b: seq<Accessor>, m: FieldMethods)
    ensures RenderAll(a + b, m) == RenderAll(a, m) + RenderAll(b, m)
  {
    if a == [] {
      assert a + b == b;
    } else {
      assert (a + b)[1..] == a[1..] + b;
      RenderAllAppend(a[1..], b, m);
    }
  }

  /** All lines `write_methods` appends for a descriptor: the text of each
      accessor the descriptor asks for, in writing order. */
  function MethodLines(m: FieldMethods): (r: seq<string>)
    ensures |r| == |Accessors(m)|
  {
    RenderAll(Accessors(m), m)
  }

  /** Rendering the run of an accessor the descriptor may omit. */
  lemma RenderAllOptional(a: Accessor, m: FieldMethods)
    ensures RenderAll(if Present(a, m) then [a] else [], m) == LineIf(a, m)
  {
    if Present(a, m) {
      assert [a][1..] == [];
    }
  }

  /** Rendering the three accessors every descriptor has. */
  lemma RenderAllFixed(m: FieldMethods)
    ensures RenderAll([Clear, Set, Get], m) == [Render(Clear, m), Render(Set, m), Render(Get, m)]
  {
    assert RenderAll([Get], m) == [Render(Get, m)] by {
      assert [Get][1..] == [];
    }
    assert RenderAll([Set, Get], m) == [Render(Set, m)] + RenderAll([Get], m) by {
      assert [Set, Get][1..] == [Get];
    }
    assert RenderAll([Clear, Set, Get], m) == [Render(Clear, m)] + RenderAll([Set, Get], m) by {
      assert [Clear, Set, Get][1..] == [Set, Get];
    }
  }

  /** The `i`-th line renders the `i`-th accessor. */
  lemma {:induction false} RenderAllAt(acc: seq<Accessor>, m: FieldMethods, i: nat)
    requires i < |acc|
    ensures RenderAll(acc, m)[i] == Render(acc[i], m)
  {
    if i > 0 {
      RenderAllAt(acc[1..], m, i - 1);
    }
  }

  /** Each line of a descriptor is a public method named after the field and
      prefixed with its accessor, in the order of the accessors. */
  lemma MethodLineNamesAccessor(m: FieldMethods, i: nat)
    requires i < |MethodLines(m)|
    ensures "pub fn " + MethodPrefix(Accessors(m)[i]) + m.unescName + "(" <= MethodLines(m)[i]
  {
    RenderAllAt(Accessors(m), m, i);
    RenderNamesMethod(Accessors(m)[i], m);
  }

  /** The same lines, section by section as `write_methods` writes them. */
  lemma MethodLinesBySection(m: FieldMethods)
    ensures MethodLines(m) ==
      LineIf(Has, m) + [Render(Clear, m), Render(Set, m), Render(Get, m)] + LineIf(Mut, m) + LineIf(Take, m)
  {
    var hs: seq<Accessor> := if Present(Has, m) then [Has] else [];
    var us: seq<Accessor> := if Present(Mut, m) then [Mut] else [];
    var ts: seq<Accessor> := if Present(Take, m) then [Take] else [];
    assert Accessors(m) == hs + [Clear, Set, Get] + us + ts;
    RenderAllAppend(hs + [Clear, Set, Get] + us, ts, m);
    RenderAllAppend(hs + [Clear, Set, Get], us, m);
    RenderAllAppend(hs, [Clear, Set, Get], m);
    RenderAllOptional(Has, m);
    RenderAllOptional(Mut, m);
    RenderAllOptional(Take, m);
    RenderAllFixed(m);
  }

  /** Appending parts one after another is appending their concatenation. */
  lemma AppendSections(b: seq<string>, p1: seq<string>, p2: seq<string>, p3: seq<string>, p4: seq<string>)
    ensures b + p1 + p2 + p3 + p4 == b + (p1 + p2 + p3 + p4)
  {
  }

  /** `FieldMethods::write_methods`: the optional `has_`, then `clear_`,
      `set_` and `get_`, then `mut_` unless the descriptor has none, then
      `take_` when it has a take expression. */
  method WriteMethods(m: FieldMethods, buf: Output)
    modifies buf
    ensures buf.chunks == old(buf.chunks) + MethodLines(m)
  {
    ghost var start := buf.chunks;
    if m.has {
      buf.Write(Render(Has, m));
    }
    assert buf.chunks == start + LineIf(Has, m);
    buf.Write(Render(Clear, m));
    buf.Write(Render(Set, m));
    buf.Write(Render(Get, m));
    ghost var mid := buf.chunks;
    assert mid == start + LineIf(Has, m) + [Render(Clear, m), Render(Set, m), Render(Get, m)];
    match m.mt {
      case Standard | Custom(_) =>
        buf.Write(Render(Mut, m));
      case NoMethod =>
    }
    assert buf.chunks == mid + LineIf(Mut, m);
    ghost var late := buf.chunks;
    if m.take.Some? {
      buf.Write(Render(Take, m));
    }
    assert buf.chunks == late + LineIf(Take, m);
    MethodLinesBySection(m);
    AppendSections(start, LineIf(Has, m), [Render(Clear, m), Render(Set, m), Render(Get, m)],
                   LineIf(Mut, m), LineIf(Take, m));
  }

  // ---------------------------------------------------------------------------
  // What the descriptor table and the renderer give together, kind by kind.

  /** The methods each kind gets: all six for an optional field, no `has_`
      for containers, only `clear_`, `set_` and `get_` for scalars and enums. */
  lemma AccessorsByKind(kind: FieldKind, ty: Ty, ident: string)
    requires Synthesize(kind, ty, ident).Ok? && Synthesize(kind, ty, ident).value.Some?
    ensures Accessors(Synthesize(kind, ty, ident).value.value) ==
      match kind
      case Optional => [Has, Clear, Set, Get, Mut, Take]
      case Repeated | Bytes | String => [Clear, Set, Get, Mut, Take]
      case _ => [Clear, Set, Get]
  {
  }

  /** The types the accessors expose: the `Option` payload for optional
      fields, the enum type for enumerations, the field type otherwise; `get_`
      borrows except for scalars and enums, and views bytes and strings as
      `[u8]` and `str`. */
  lemma ExposedTypesByKind(kind: FieldKind, ty: Ty, ident: string)
    requires Synthesize(kind, ty, ident).Ok? && Synthesize(kind, ty, ident).value.Some?
    ensures var m := Synthesize(kind, ty, ident).value.value;
      && ExposedTy(m) == (match kind
                          case Optional => OptionArg(ty).value
                          case Enumeration(e) => e
                          case _ => ty.text)
      && ReturnTy(m) == (match kind
                         case Optional => "&" + OptionArg(ty).value
                         case Enumeration(e) => e
                         case Int | Bool => ty.text
                         case Bytes => "&[u8]"
                         case String => "&str"
                         case _ => "&" + ty.text)
  {
  }

  /** The complete text for a scalar field `n: T` (an integer, whose zero is
      `0`, or a boolean, whose zero is `false`): reset to the zero, store `v`,
      return the field by copy. */
  lemma ScalarLines(kind: FieldKind, ty: Ty, n: string)
    requires kind == Int || kind == Bool
    ensures Synthesize(kind, ty, n).Ok? && Synthesize(kind, ty, n).value.Some?
    ensures var u, t, zero := Unescape(n), ty.text, if kind == Int then "0" else "false";
      MethodLines(Synthesize(kind, ty, n).value.value) ==
      [ Decl("clear_", u, "&mut self", "", "self." + n + " = " + zero) + "\n",
        Decl("set_", u, "&mut self, v: " + t, "", "self." + n + " = v;") + "\n",
        Decl("get_", u, "&self", " -> " + t, "self." + n) + "\n" ]
  {
    var u, t, zero := Unescape(n), ty.text, if kind == Int then "0" else "false";
    var m := FieldMethods(t, Copy, None, n, u, false, Some(zero), None, None, NoMethod, None);
    calc {
      MethodLines(Synthesize(kind, ty, n).value.value);
      { assert Synthesize(kind, ty, n) == Ok(Some(m)); }
      MethodLines(m);
      { FixedOnlyLines(m); }
      [Render(Clear, m), Render(Set, m), Render(Get, m)];
      { ClearValueLine(m, zero); SetLine(m); GetCopiedLine(m); assert ExposedTy(m) == t; }
      [ Decl("clear_", u, "&mut self", "", "self." + n + " = " + zero) + "\n",
        Decl("set_", u, "&mut self, v: " + t, "", "self." + n + " = v;") + "\n",
        Decl("get_", u, "&self", " -> " + t, "self." + n) + "\n" ];
    }
  }

  /** The complete text for a repeated field `n: T`: the getter borrows, the
      mutator hands out `&mut`, and `take_` swaps in an empty `Vec`. */
  lemma RepeatedLines(ty: Ty, n: string)
    ensures Synthesize(Repeated, ty, n).Ok? && Synthesize(Repeated, ty, n).value.Some?
    ensures var u, t := Unescape(n), ty.text;
      MethodLines(Synthesize(Repeated, ty, n).value.value) ==
      [ Decl("clear_", u, "&mut self", "", "self." + n + ".clear();") + "\n",
        Decl("set_", u, "&mut self, v: " + t, "", "self." + n + " = v;") + "\n",
        Decl("get_", u, "&self", " -> &" + t, "&self." + n) + "\n",
        Decl("mut_", u, "&mut self", " -> &mut " + t, "&mut self." + n) + "\n",
        Decl("take_", u, "&mut self", " -> " + t, ReplaceWith(n, VecNew)) + "\n" ]
  {
    var u, t := Unescape(n), ty.text;
    var m := FieldMethods(t, Ref, None, n, u, false, None, None, None, Standard, Some(ReplaceWith(n, VecNew)));
    calc {
      MethodLines(Synthesize(Repeated, ty, n).value.value);
      { assert Synthesize(Repeated, ty, n) == Ok(Some(m)); }
      MethodLines(m);
      { ContainerLines(m); }
      [ Decl("clear_", m.unescName, "&mut self", "", "self." + m.name + ".clear();") + "\n",
        Decl("set_", m.unescName, "&mut self, v: " + m.ty, "", "self." + m.name + " = v;") + "\n",
        Decl("get_", m.unescName, "&self", " -> " + ReturnTy(m), "&self." + m.name) + "\n",
        Decl("mut_", m.unescName, "&mut self", " -> &mut " + m.ty, "&mut self." + m.name) + "\n",
        Decl("take_", m.unescName, "&mut self", " -> " + m.ty, m.take.value) + "\n" ];
      { assert " -> " + ReturnTy(m) == " -> &" + t; }
      [ Decl("clear_", u, "&mut self", "", "self." + n + ".clear();") + "\n",
        Decl("set_", u, "&mut self, v: " + t, "", "self." + n + " = v;") + "\n",
        Decl("get_", u, "&self", " -> &" + t, "&self." + n) + "\n",
        Decl("mut_", u, "&mut self", " -> &mut " + t, "&mut self." + n) + "\n",
        Decl("take_", u, "&mut self", " -> " + t, ReplaceWith(n, VecNew)) + "\n" ];
    }
  }

  /** The complete text for a bytes or string field `n: T`: as for a repeated
      field, except that `get_` returns the `[u8]` or `str` view and `take_`
      swaps in an empty `Vec` or `String`. */
  lemma ViewLines(kind: FieldKind, ty: Ty, n: string)
    requires kind == Bytes || kind == String
    ensures Synthesize(kind, ty, n).Ok? && Synthesize(kind, ty, n).value.Some?
    ensures var u, t := Unescape(n), ty.text;
      var view, empty := if kind == Bytes then "[u8]" else "str", if kind == Bytes then VecNew else StringNew;
      MethodLines(Synthesize(kind, ty, n).value.value) ==
      [ Decl("clear_", u, "&mut self", "", "self." + n + ".clear();") + "\n",
        Decl("set_", u, "&mut self, v: " + t, "", "self." + n + " = v;") + "\n",
        Decl("get_", u, "&self", " -> &" + view, "&self." + n) + "\n",
        Decl("mut_", u, "&mut self", " -> &mut " + t, "&mut self." + n) + "\n",
        Decl("take_", u, "&mut self", " -> " + t, ReplaceWith(n, empty)) + "\n" ]
  {
    var u, t := Unescape(n), ty.text;
    var view, empty := if kind == Bytes then "[u8]" else "str", if kind == Bytes then VecNew else StringNew;
    var m := FieldMethods(t, Deref(view), None, n, u, false, None, None, None, Standard, Some(ReplaceWith(n, empty)));
    calc {
      MethodLines(Synthesize(kind, ty, n).value.value);
      { assert Synthesize(kind, ty, n) == Ok(Some(m)); }
      MethodLines(m);
      { ContainerLines(m); }
      [ Decl("clear_", m.unescName, "&mut self", "", "self." + m.name + ".clear();") + "\n",
        Decl("set_", m.unescName, "&mut self, v: " + m.ty, "", "self." + m.name + " = v;") + "\n",
        Decl("get_", m.unescName, "&self", " -> " + ReturnTy(m), "&self." + m.name) + "\n",
        Decl("mut_", m.unescName, "&mut self", " -> &mut " + m.ty, "&mut self." + m.name) + "\n",
        Decl("take_", m.unescName, "&mut self", " -> " + m.ty, m.take.value) + "\n" ];
      { assert " -> " + ReturnTy(m) == " -> &" + view; }
      [ Decl("clear_", u, "&mut self", "", "self." + n + ".clear();") + "\n",
        Decl("set_", u, "&mut self, v: " + t, "", "self." + n + " = v;") + "\n",
        Decl("get_", u, "&self", " -> &" + view, "&self." + n) + "\n",
        Decl("mut_", u, "&mut self", " -> &mut " + t, "&mut self." + n) + "\n",
        Decl("take_", u, "&mut self", " -> " + t, ReplaceWith(n, empty)) + "\n" ];
    }
  }

  /** The lines of a descriptor shaped like a container field's: no `has_`,
      the field's own `clear()`, a plain store, a getter that borrows (the
      field itself or a view of it), a standard mutator, and a `take_` with
      the given body. */
  lemma ContainerLines(m: FieldMethods)
    requires !m.refTy.Copy? && m.overrideTy.None? && !m.has
    requires m.clear.None? && m.setExpr.None? && m.get.None? && m.mt == Standard && m.take.Some?
    ensures MethodLines(m) ==
      [ Decl("clear_", m.unescName, "&mut self", "", "self." + m.name + ".clear();") + "\n",
        Decl("set_", m.unescName, "&mut self, v: " + m.ty, "", "self." + m.name + " = v;") + "\n",
        Decl("get_", m.unescName, "&self", " -> " + ReturnTy(m), "&self." + m.name) + "\n",
        Decl("mut_", m.unescName, "&mut self", " -> &mut " + m.ty, "&mut self." + m.name) + "\n",
        Decl("take_", m.unescName, "&mut self", " -> " + m.ty, m.take.value) + "\n" ]
  {
    MethodLinesBySection(m);
    ClearLine(m);
    SetLine(m);
    GetBorrowedLine(m);
    MutLine(m);
    TakeLine(m);
  }

  /** The complete text for an optional field `n: Option<T>`: all six
      accessors, speaking of `T`; `get_` falls back to `T`'s default
      instance, `mut_` fills an empty field first, and `take_` leaves `None`
      behind. */
  lemma OptionalLines(ty: Ty, n: string, inner: string)
    requires OptionArg(ty) == Some(inner)
    ensures Synthesize(Optional, ty, n).Ok? && Synthesize(Optional, ty, n).value.Some?
    ensures var u := Unescape(n);
      MethodLines(Synthesize(Optional, ty, n).value.value) ==
      [ Decl("has_", u, "&self", " -> bool", "self." + n + ".is_some()") + "\n",
        Decl("clear_", u, "&mut self", "", "self." + n + " = " + OptionNone) + "\n",
        Decl("set_", u, "&mut self, v: " + inner, "", "self." + n + " = " + OptionSomeV + ";") + "\n",
        Decl("get_", u, "&self", " -> &" + inner, OptionalGet(n, inner)) + "\n",
        Decl("mut_", u, "&mut self", " -> &mut " + inner, OptionalMut(n, inner)) + " \n",
        Decl("take_", u, "&mut self", " -> " + inner, OptionalTake(n, inner)) + "\n" ]
  {
    var u := Unescape(n);
    var m := FieldMethods(ty.text, Ref, Some(inner), n, u, true, Some(OptionNone), Some(OptionSomeV),
                          Some(OptionalGet(n, inner)), Custom(OptionalMut(n, inner)), Some(OptionalTake(n, inner)));
    calc {
      MethodLines(Synthesize(Optional, ty, n).value.value);
      { assert Synthesize(Optional, ty, n) == Ok(Some(m)); }
      MethodLines(m);
      { OptionalShapeLines(m); }
      [ Decl("has_", m.unescName, "&self", " -> bool", "self." + m.name + ".is_some()") + "\n",
        Decl("clear_", m.unescName, "&mut self", "", "self." + m.name + " = " + m.clear.value) + "\n",
        Decl("set_", m.unescName, "&mut self, v: " + ExposedTy(m), "", "self." + m.name + " = " + m.setExpr.value + ";") + "\n",
        Decl("get_", m.unescName, "&self", " -> " + ReturnTy(m), m.get.value) + "\n",
        Decl("mut_", m.unescName, "&mut self", " -> &mut " + ExposedTy(m), m.mt.body) + " \n",
        Decl("take_", m.unescName, "&mut self", " -> " + ExposedTy(m), m.take.value) + "\n" ];
      { assert ExposedTy(m) == inner; assert " -> " + ReturnTy(m) == " -> &" + inner; }
      [ Decl("has_", u, "&self", " -> bool", "self." + n + ".is_some()") + "\n",
        Decl("clear_", u, "&mut self", "", "self." + n + " = " + OptionNone) + "\n",
        Decl("set_", u, "&mut self, v: " + inner, "", "self." + n + " = " + OptionSomeV + ";") + "\n",
        Decl("get_", u, "&self", " -> &" + inner, OptionalGet(n, inner)) + "\n",
        Decl("mut_", u, "&mut self", " -> &mut " + inner, OptionalMut(n, inner)) + " \n",
        Decl("take_", u, "&mut self", " -> " + inner, OptionalTake(n, inner)) + "\n" ];
    }
  }

  /** The lines of a descriptor shaped like an optional field's: every
      accessor, each with its own expression. */
  lemma OptionalShapeLines(m: FieldMethods)
    requires m.has && m.clear.Some? && m.setExpr.Some? && m.get.Some? && m.mt.Custom? && m.take.Some?
    ensures MethodLines(m) ==
      [ Decl("has_", m.unescName, "&self", " -> bool", "self." + m.name + ".is_some()") + "\n",
        Decl("clear_", m.unescName, "&mut self", "", "self." + m.name + " = " + m.clear.value) + "\n",
        Decl("set_", m.unescName, "&mut self, v: " + ExposedTy(m), "", "self." + m.name + " = " + m.setExpr.value + ";") + "\n",
        Decl("get_", m.unescName, "&self", " -> " + ReturnTy(m), m.get.value) + "\n",
        Decl("mut_", m.unescName, "&mut self", " -> &mut " + ExposedTy(m), m.mt.body) + " \n",
        Decl("take_", m.unescName, "&mut self", " -> " + ExposedTy(m), m.take.value) + "\n" ]
  {
    AllAccessorLines(m);
    HasLine(m);
    ClearValueLine(m, m.clear.value);
    SetExprLine(m, m.setExpr.value);
    GetExprLine(m, m.get.value);
    CustomMutLine(m, m.mt.body);
    TakeLine(m);
  }

  /** The complete text for an enumeration field `n: i32` of enum `E`: the
      accessors speak of `E`, store and load through a `transmute`, and reset
      to `0`. */
  lemma EnumerationLines(e: string, ty: Ty, n: string)
    ensures Synthesize(Enumeration(e), ty, n).Ok? && Synthesize(Enumeration(e), ty, n).value.Some?
    ensures var u := Unescape(n);
      MethodLines(Synthesize(Enumeration(e), ty, n).value.value) ==
      [ Decl("clear_", u, "&mut self", "", "self." + n + " = 0") + "\n",
        Decl("set_", u, "&mut self, v: " + e, "", "self." + n + " = " + EnumSet(e) + ";") + "\n",
        Decl("get_", u, "&self", " -> " + e, EnumGet(e, n)) + "\n" ]
  {
    var u := Unescape(n);
    var m := FieldMethods(ty.text, Copy, Some(e), n, u, false, Some("0"), Some(EnumSet(e)), Some(EnumGet(e, n)),
                          NoMethod, None);
    calc {
      MethodLines(Synthesize(Enumeration(e), ty, n).value.value);
      { assert Synthesize(Enumeration(e), ty, n) == Ok(Some(m)); }
      MethodLines(m);
      { FixedOnlyLines(m); }
      [Render(Clear, m), Render(Set, m), Render(Get, m)];
      { ClearValueLine(m, "0"); SetExprLine(m, EnumSet(e)); GetExprLine(m, EnumGet(e, n));
        assert ExposedTy(m) == e && ReturnTy(m) == e;
        assert "self." + n + " = " + "0" == "self." + n + " = 0"; }
      [ Decl("clear_", u, "&mut self", "", "self." + n + " = 0") + "\n",
        Decl("set_", u, "&mut self, v: " + e, "", "self." + n + " = " + EnumSet(e) + ";") + "\n",
        Decl("get_", u, "&self", " -> " + e, EnumGet(e, n)) + "\n" ];
    }
  }

  /** A descriptor without `has_`, `mut_` and `take_` renders just the three
      accessors every field has. */
  lemma FixedOnlyLines(m: FieldMethods)
    requires !m.has && m.mt == NoMethod && m.take.None?
    ensures MethodLines(m) == [Render(Clear, m), Render(Set, m), Render(Get, m)]
  {
    MethodLinesBySection(m);
    assert LineIf(Has, m) == [] && LineIf(Mut, m) == [] && LineIf(Take, m) == [];
  }

  /** A descriptor asking for every optional accessor renders all six. */
  lemma AllAccessorLines(m: FieldMethods)
    requires m.has && !m.mt.NoMethod? && m.take.Some?
    ensures MethodLines(m) ==
      [Render(Has, m), Render(Clear, m), Render(Set, m), Render(Get, m), Render(Mut, m), Render(Take, m)]
  {
    MethodLinesBySection(m);
    assert LineIf(Has, m) == [Render(Has, m)];
    assert LineIf(Mut, m) == [Render(Mut, m)];
    assert LineIf(Take, m) == [Render(Take, m)];
  }

  // The line of each accessor, one format at a time.

  lemma HasLine(m: FieldMethods)
    ensures Render(Has, m) == Decl("has_", m.unescName, "&self", " -> bool", "self." + m.name + ".is_some()") + "\n"
  {
  }

  lemma ClearValueLine(m: FieldMethods, s: string)
    requires m.clear == Some(s)
    ensures Render(Clear, m) == Decl("clear_", m.unescName, "&mut self", "", "self." + m.name + " = " + s) + "\n"
  {
  }

  lemma ClearLine(m: FieldMethods)
    requires m.clear.None?
    ensures Render(Clear, m) == Decl("clear_", m.unescName, "&mut self", "", "self." + m.name + ".clear();") + "\n"
  {
  }

  lemma SetExprLine(m: FieldMethods, s: string)
    requires m.setExpr == Some(s)
    ensures Render(Set, m) ==
      Decl("set_", m.unescName, "&mut self, v: " + ExposedTy(m), "", "self." + m.name + " = " + s + ";") + "\n"
  {
  }

  lemma SetLine(m: FieldMethods)
    requires m.setExpr.None?
    ensures Render(Set, m) == Decl("set_", m.unescName, "&mut self, v: " + ExposedTy(m), "", "self." + m.name + " = v;") + "\n"
  {
  }

  lemma GetExprLine(m: FieldMethods, s: string)
    requires m.get == Some(s)
    ensures Render(Get, m) == Decl("get_", m.unescName, "&self", " -> " + ReturnTy(m), s) + "\n"
  {
  }

  lemma GetBorrowedLine(m: FieldMethods)
    requires !m.refTy.Copy? && m.get.None?
    ensures Render(Get, m) == Decl("get_", m.unescName, "&self", " -> " + ReturnTy(m), "&self." + m.name) + "\n"
  {
    assert "&" + "self." + m.name == "&self." + m.name;
  }

  lemma GetCopiedLine(m: FieldMethods)
    requires m.refTy.Copy? && m.get.None?
    ensures Render(Get, m) == Decl("get_", m.unescName, "&self", " -> " + ExposedTy(m), "self." + m.name) + "\n"
  {
    assert "" + "self." + m.name == "self." + m.name;
  }

  lemma MutLine(m: FieldMethods)
    requires m.mt == Standard
    ensures Render(Mut, m) == Decl("mut_", m.unescName, "&mut self", " -> &mut " + ExposedTy(m), "&mut self." + m.name) + "\n"
  {
  }

  lemma CustomMutLine(m: FieldMethods, s: string)
    requires m.mt == Custom(s)
    ensures Render(Mut, m) == Decl("mut_", m.unescName, "&mut self", " -> &mut " + ExposedTy(m), s) + " \n"
  {
  }

  lemma TakeLine(m: FieldMethods)
    requires m.take.Some?
    ensures Render(Take, m) == Decl("take_", m.unescName, "&mut self", " -> " + ExposedTy(m), m.take.value) + "\n"
  {
  }
}
