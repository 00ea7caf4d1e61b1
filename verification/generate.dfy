/** Walking a parsed file and writing an `impl` block for every message
    struct (`generate_from_items`, `generate_one`, `generate_new`,
    `is_message`), and the name of the file the blocks go to
    (`WrapperGen::new`). */
module Generation {
  import opened Base
  import opened Syntax
  import opened FieldKinds
  import opened Descriptors
  import opened Rendering

  // ---------------------------------------------------------------------------
  // The output file name.

  /** The part of a path after its last `/`, the whole path when it has none. */
  function BaseName(path: string): (r: string)
    ensures '/' !in r
    ensures |r| <= |path| && r == path[|path| - |r|..]
    ensures |r| < |path| ==> path[|path| - |r| - 1] == '/'
  {
    match LastIndexOf(path, '/')
    case None => path
    case Some(i) => path[i + 1..]
  }

  /** `WrapperGen::new`: the generated file is named after the input file,
      without its directories, behind `wrapper_`. */
  function WrapperFileName(path: string): (r: string)
    ensures |r| >= 8 && r[..8] == "wrapper_" && '/' !in r[8..]
    ensures |r| <= |path| + 8 && path[|path| - (|r| - 8)..] == r[8..]
  {
    "wrapper_" + BaseName(path)
  }

  /** The base name drops exactly the directories: a file name under any
      directory keeps its own name, and a name without `/` is its own base. */
  lemma BaseNameOfJoin(dir: string, file: string)
    requires '/' !in file
    ensures BaseName(dir + "/" + file) == file
    ensures BaseName(file) == file
    ensures WrapperFileName(dir + "/" + file) == "wrapper_" + file
  {
    var p := dir + "/" + file;
    var b := BaseName(p);
    assert p[|dir|] == '/';
    assert p[|dir| + 1..] == file;
  }

  // ---------------------------------------------------------------------------
  // `is_message`.

  const DeriveMarker := ":: prost_derive :: Message"

  /** The attribute is a `derive` whose printed tokens mention prost's `Message`. */
  predicate DerivesAt(attrs: seq<Attr>, i: int)
    requires 0 <= i < |attrs|
  {
    IsIdent(attrs[i].path, "derive") && Contains(attrs[i].tts, DeriveMarker)
  }

  /** A struct is a message when some attribute derives prost's `Message`. */
  predicate DerivesMessage(attrs: seq<Attr>) {
    exists i :: 0 <= i < |attrs| && DerivesAt(attrs, i)
  }

  /** `is_message`: scan the attributes, stop at the first `derive` of `Message`. */
  method IsMessage(attrs: seq<Attr>) returns (b: bool)
    ensures b <==> DerivesMessage(attrs)
  {
    for i := 0 to |attrs|
      invariant forall j :: 0 <= j < i ==> !DerivesAt(attrs, j)
    {
      if IsIdent(attrs[i].path, "derive") {
        if Contains(attrs[i].tts, DeriveMarker) {
          assert DerivesAt(attrs, i);
          return true;
        }
      }
    }
    return false;
  }

  // ---------------------------------------------------------------------------
  // What a run writes.

  /** The chunks a piece of the generator writes, and whether it finishes or
      panics; on a panic the chunks are those written before it. */
  datatype Emission = Emission(chunks: seq<string>, outcome: Outcome)

  const Nothing := Emission([], Pass)

  /** Running one piece after another: the second only runs when the first
      finishes. */
  function Then(a: Emission, b: Emission): (r: Emission)
    ensures a.chunks <= r.chunks
    ensures r.outcome.Pass? <==> a.outcome.Pass? && b.outcome.Pass?
    ensures a.outcome.Pass? ==> r.chunks[|a.chunks|..] == b.chunks && r.outcome == b.outcome
    ensures a.outcome.Fail? ==> r == a
  {
    if a.outcome.Fail? then a else Emission(a.chunks + b.chunks, b.outcome)
  }

  /** Writing nothing before or after a piece leaves it as it is. */
  lemma ThenNothing(e: Emission)
    ensures Then(Nothing, e) == e && Then(e, Nothing) == e
  {
    assert [] + e.chunks == e.chunks && e.chunks + [] == e.chunks;
  }

  lemma AppendAssoc(a: seq<string>, b: seq<string>, c: seq<string>)
    ensures a + b + c == a + (b + c)
  {
  }

  lemma ThenAssociative(a: Emission, b: Emission, c: Emission)
    ensures Then(Then(a, b), c) == Then(a, Then(b, c))
  {
    if a.outcome.Pass? && b.outcome.Pass? {
      AppendAssoc(a.chunks, b.chunks, c.chunks);
    }
  }

  /** The first `n` pieces of a run, one after another, up to the first panic:
      the `?` after each write in the generator. */
  function RunUpTo(es: seq<Emission>, n: nat): Emission
    requires n <= |es|
  {
    if n == 0 then Nothing else Then(RunUpTo(es, n - 1), es[n - 1])
  }

  /** All pieces of a run. */
  function Run(es: seq<Emission>): Emission {
    RunUpTo(es, |es|)
  }

  /** What the first `n` pieces write depends on those pieces only. */
  lemma {:induction false} RunUpToPrefix(a: seq<Emission>, b: seq<Emission>, n: nat)
    requires n <= |a| && n <= |b| && a[..n] == b[..n]
    ensures RunUpTo(a, n) == RunUpTo(b, n)
  {
    if n > 0 {
      assert a[n - 1] == a[..n][n - 1] && b[n - 1] == b[..n][n - 1];
      assert a[..n - 1] == a[..n][..n - 1] && b[..n - 1] == b[..n][..n - 1];
      RunUpToPrefix(a, b, n - 1);
    }
  }

  /** Once a run has panicked, later pieces change nothing. */
  lemma {:induction false} RunFailureSticks(es: seq<Emission>, i: nat, n: nat)
    requires i <= n <= |es| && RunUpTo(es, i).outcome.Fail?
    ensures RunUpTo(es, n) == RunUpTo(es, i)
    decreases n
  {
    if n > i {
      RunFailureSticks(es, i, n - 1);
    }
  }

  /** One more piece after a part of the run that went through. */
  lemma RunStep(start: seq<string>, es: seq<Emission>, i: nat)
    requires i < |es| && RunUpTo(es, i).outcome.Pass?
    ensures start + RunUpTo(es, i).chunks + es[i].chunks == start + RunUpTo(es, i + 1).chunks
    ensures RunUpTo(es, i + 1).outcome == es[i].outcome
  {
    AppendAssoc(start, RunUpTo(es, i).chunks, es[i].chunks);
  }

  /** A run finishes exactly when every piece of it finishes. */
  lemma {:induction false} RunPassIffAllPass(es: seq<Emission>, n: nat)
    requires n <= |es|
    ensures RunUpTo(es, n).outcome.Pass? <==> forall i :: 0 <= i < n ==> es[i].outcome.Pass?
  {
    if n > 0 {
      RunPassIffAllPass(es, n - 1);
    }
  }

  /** The first piece that panics ends the run: what is written is what the
      pieces before it wrote, then what that piece wrote before its panic. */
  lemma RunStopsAtFirstFailure(es: seq<Emission>, i: nat)
    requires i < |es|
    requires forall j :: 0 <= j < i ==> es[j].outcome.Pass?
    requires es[i].outcome.Fail?
    ensures Run(es) == Then(Run(es[..i]), es[i])
  {
    RunPassIffAllPass(es, i);
    RunUpToPrefix(es, es[..i], i);
    RunFailureSticks(es, i + 1, |es|);
  }

  /** A run split in two is the first part followed by the second. */
  lemma RunAppend(a: seq<Emission>, b: seq<Emission>)
    ensures Run(a + b) == Then(Run(a), Run(b))
  {
    RunAppendUpTo(a, b, |b|);
  }

  lemma {:induction false} RunAppendUpTo(a: seq<Emission>, b: seq<Emission>, n: nat)
    requires n <= |b|
    ensures RunUpTo(a + b, |a| + n) == Then(Run(a), RunUpTo(b, n))
  {
    if n == 0 {
      assert (a + b)[..|a|] == a[..|a|];
      RunUpToPrefix(a + b, a, |a|);
      var e := Run(a);
      assert e.outcome.Pass? ==> e.chunks + [] == e.chunks;
    } else {
      RunAppendUpTo(a, b, n - 1);
      assert (a + b)[|a| + n - 1] == b[n - 1];
      ThenAssociative(Run(a), RunUpTo(b, n - 1), b[n - 1]);
    }
  }

  /** A run of one piece is that piece. */
  lemma RunSingle(e: Emission)
    ensures Run([e]) == e
  {
    assert RunUpTo([e], 1) == Then(Nothing, e);
    assert Nothing.chunks + e.chunks == e.chunks;
  }

  /** A run of pieces that write nothing and finish writes nothing. */
  lemma {:induction false} RunOfNothing(es: seq<Emission>, n: nat)
    requires n <= |es| && forall i :: 0 <= i < n ==> es[i] == Nothing
    ensures RunUpTo(es, n) == Nothing
  {
    if n > 0 {
      RunOfNothing(es, n - 1);
      assert Nothing.chunks + Nothing.chunks == [];
    }
  }

  /** Every chunk of a run was written by one of its pieces. */
  lemma {:induction false} RunChunks(es: seq<Emission>, n: nat)
    requires n <= |es|
    ensures forall c :: c in RunUpTo(es, n).chunks ==> exists j :: 0 <= j < n && c in es[j].chunks
  {
    if n > 0 {
      RunChunks(es, n - 1);
    }
  }

  // ---------------------------------------------------------------------------
  // The fields of a struct.

  /** The lines of one field inside `generate_one`: nothing for a tuple-struct
      field, the classifier's or the synthesiser's panic, nothing for a
      `oneof` field, and otherwise the descriptor's methods. */
  function FieldEmission(f: Field): (r: Emission)
    ensures r.outcome.Fail? ==> r.chunks == []
  {
    match f.ident
    case None => Nothing
    case Some(n) =>
      match Classify(f.attrs)
      case Err(e) => Emission([], Fail(e))
      case Ok(k) =>
        match Synthesize(k, f.ty, n)
        case Err(e) => Emission([], Fail(e))
        case Ok(None) => Nothing
        case Ok(Some(m)) => Emission(MethodLines(m), Pass)
  }

  function FieldEmissions(fields: seq<Field>): seq<Emission> {
    seq(|fields|, j requires 0 <= j < |fields| => FieldEmission(fields[j]))
  }

  /** The field chain of a struct: its fields in order, up to the first panic. */
  function FieldsEmission(fields: seq<Field>): Emission {
    Run(FieldEmissions(fields))
  }

  /** A field fails exactly when it is named and its classification fails,
      or its kind is `optional` and its type is not `Option<T>`. */
  lemma FieldFailure(f: Field)
    ensures FieldEmission(f).outcome.Fail? <==>
      f.ident.Some? &&
      (Classify(f.attrs).Err? || (Classify(f.attrs).value == Optional && OptionArg(f.ty).None?))
    ensures FieldEmission(f).outcome.Fail? && Classify(f.attrs).Ok? ==>
      FieldEmission(f).outcome == Fail(MalformedOptionType)
    ensures f.ident.Some? && f.attrs == [] ==> FieldEmission(f) == Emission([], Fail(UnknownFieldKind))
  {
    if f.ident.Some? && Classify(f.attrs).Ok? {
      DescriptorTable(Classify(f.attrs).value, f.ty, f.ident.value);
    }
  }

  /** The field chain finishes exactly when every field does. */
  lemma FieldsPassIffAllPass(fields: seq<Field>)
    ensures FieldsEmission(fields).outcome.Pass? <==>
      forall i :: 0 <= i < |fields| ==> FieldEmission(fields[i]).outcome.Pass?
  {
    var es := FieldEmissions(fields);
    RunPassIffAllPass(es, |fields|);
    assert forall i :: 0 <= i < |fields| ==> es[i] == FieldEmission(fields[i]);
  }

  /** The first field that panics stops the chain: what is written is what
      the fields before it wrote. */
  lemma FieldsStopAtFirstFailure(fields: seq<Field>, i: nat)
    requires i < |fields|
    requires forall j :: 0 <= j < i ==> FieldEmission(fields[j]).outcome.Pass?
    requires FieldEmission(fields[i]).outcome.Fail?
    ensures FieldsEmission(fields) == Emission(FieldsEmission(fields[..i]).chunks, FieldEmission(fields[i]).outcome)
  {
    var es := FieldEmissions(fields);
    var before := FieldEmissions(fields[..i]);
    assert es[..i] == before;
    RunStopsAtFirstFailure(es, i);
    RunPassIffAllPass(before, i);
    assert es[i] == FieldEmission(fields[i]);
    assert Run(before).chunks + [] == Run(before).chunks;
  }

  /** Every accessor line starts with `pub fn`, so none is a closing brace. */
  lemma FieldClosingFree(f: Field)
    ensures Closing !in FieldEmission(f).chunks
  {
    var fe := FieldEmission(f);
    forall i | 0 <= i < |fe.chunks| ensures fe.chunks[i] != Closing {
      var m := Synthesize(Classify(f.attrs).value, f.ty, f.ident.value).value.value;
      MethodLineNamesAccessor(m, i);
      assert fe.chunks[i][0] == 'p';
    }
  }

  lemma FieldsClosingFree(fields: seq<Field>)
    ensures Closing !in FieldsEmission(fields).chunks
  {
    var es := FieldEmissions(fields);
    RunChunks(es, |es|);
    forall j | 0 <= j < |es| ensures Closing !in es[j].chunks {
      FieldClosingFree(fields[j]);
    }
  }

  // ---------------------------------------------------------------------------
  // `generate_new` and `generate_one`.

  /** The header of a struct's block, written without a newline. */
  function Header(prefix: string, name: string): string {
    "impl " + prefix + name + " {"
  }

  /** The two lines of `generate_new`. */
  function NewLines(prefix: string, name: string): seq<string> {
    [ "pub fn new_() -> " + prefix + name + " { ::std::default::Default::default() }\n",
      "pub fn default_instance() -> &'static " + prefix + name + " { unimplemented!(); }\n" ]
  }

  const Closing := "}\n"

  /** One message struct: the header, the constructors, the fields' methods,
      and the closing brace unless a field panics. */
  function StructEmission(prefix: string, name: string, fields: seq<Field>): (r: Emission)
    ensures r.outcome == FieldsEmission(fields).outcome
    ensures [Header(prefix, name)] + NewLines(prefix, name) <= r.chunks
  {
    Then(Then(Emission([Header(prefix, name)] + NewLines(prefix, name), Pass), FieldsEmission(fields)),
         Emission([Closing], Pass))
  }

  /** A struct's block, spelled out by whether its fields go through. */
  lemma StructChunks(prefix: string, name: string, fields: seq<Field>)
    ensures var fe := FieldsEmission(fields);
      StructEmission(prefix, name, fields) ==
        if fe.outcome.Pass? then Emission([Header(prefix, name)] + NewLines(prefix, name) + fe.chunks + [Closing], Pass)
        else Emission([Header(prefix, name)] + NewLines(prefix, name) + fe.chunks, fe.outcome)
  {
  }

  /** A block is opened by its header and the two constructors; it is closed
      exactly when all fields go through, and then it holds each field's lines
      in field order. */
  lemma StructBlock(prefix: string, name: string, fields: seq<Field>)
    ensures var e := StructEmission(prefix, name, fields);
      && |e.chunks| >= 3
      && e.chunks[0] == Header(prefix, name)
      && e.chunks[1..3] == NewLines(prefix, name)
      && e.outcome == FieldsEmission(fields).outcome
      && (e.outcome.Pass? <==> e.chunks[|e.chunks| - 1] == Closing)
      && (e.outcome.Pass? ==> e.chunks[3..|e.chunks| - 1] == FieldsEmission(fields).chunks)
      && (e.outcome.Fail? ==> e.chunks[3..] == FieldsEmission(fields).chunks)
  {
    var e := StructEmission(prefix, name, fields);
    var fe := FieldsEmission(fields);
    FieldsClosingFree(fields);
    if fe.outcome.Pass? {
      assert e.chunks == [Header(prefix, name)] + NewLines(prefix, name) + fe.chunks + [Closing];
    } else {
      assert e.chunks == [Header(prefix, name)] + NewLines(prefix, name) + fe.chunks;
      if |fe.chunks| == 0 {
        assert e.chunks[|e.chunks| - 1] == NewLines(prefix, name)[1];
      } else {
        assert e.chunks[|e.chunks| - 1] == fe.chunks[|fe.chunks| - 1];
      }
    }
  }

  /** `generate_new`: the `new_` and `default_instance` constructors. */
  method GenerateNew(name: string, prefix: string, buf: Output)
    modifies buf
    ensures buf.chunks == old(buf.chunks) + NewLines(prefix, name)
  {
    buf.Write("pub fn new_() -> " + prefix + name + " { ::std::default::Default::default() }\n");
    buf.Write("pub fn default_instance() -> &'static " + prefix + name + " { unimplemented!(); }\n");
  }

  /** One field inside `generate_one`'s iterator chain: a named field is
      classified, its descriptor synthesised, and the descriptor's methods
      written; a panic in either step stops the run. */
  method GenerateField(f: Field, buf: Output) returns (o: Outcome)
    modifies buf
    ensures buf.chunks == old(buf.chunks) + FieldEmission(f).chunks
    ensures o == FieldEmission(f).outcome
  {
    match f.ident {
      case None =>
      case Some(n) =>
        var k := FromAttrs(f.attrs);
        if k.Err? {
          return Fail(k.error);
        }
        var r := Methods(k.value, f.ty, n);
        if r.Err? {
          return Fail(r.error);
        }
        if r.value.Some? {
          WriteMethods(r.value.value, buf);
        }
    }
    return Pass;
  }

  /** `plan` lists what each field writes. */
  ghost predicate Planned(fields: seq<Field>, plan: seq<Emission>) {
    |plan| == |fields| &&
    forall j {:trigger FieldEmission(fields[j])} :: 0 <= j < |fields| ==> plan[j] == FieldEmission(fields[j])
  }

  /** The `i`-th field of the chain writes its planned lines. */
  method GenerateFieldAt(fields: seq<Field>, i: nat, ghost plan: seq<Emission>, buf: Output) returns (o: Outcome)
    requires i < |fields| && Planned(fields, plan)
    modifies buf
    ensures buf.chunks == old(buf.chunks) + plan[i].chunks
    ensures o == plan[i].outcome
  {
    o := GenerateField(fields[i], buf);
  }

  /** The iterator chain of `generate_one`: the fields in order, each one
      classified, synthesised and written before the next is looked at, up to
      the first panic. */
  method GenerateFields(fields: seq<Field>, ghost plan: seq<Emission>, buf: Output) returns (o: Outcome)
    requires Planned(fields, plan)
    modifies buf
    ensures buf.chunks == old(buf.chunks) + Run(plan).chunks
    ensures o == Run(plan).outcome
  {
    ghost var start := buf.chunks;
    o := Pass;
    var i := 0;
    while i < |fields| && o.Pass?
      invariant i <= |fields|
      invariant RunUpTo(plan, i).outcome == o
      invariant buf.chunks == start + RunUpTo(plan, i).chunks
    {
      o := GenerateFieldAt(fields, i, plan, buf);
      RunStep(start, plan, i);
      i := i + 1;
    }
    if o.Fail? {
      RunFailureSticks(plan, i, |fields|);
    }
  }

  /** `generate_one`: header, constructors, then the fields in order, then
      the closing brace. A panic stops the run with what was written so far. */
  method GenerateOne(name: string, fields: seq<Field>, prefix: string, buf: Output) returns (o: Outcome)
    modifies buf
    ensures buf.chunks == old(buf.chunks) + StructEmission(prefix, name, fields).chunks
    ensures o == StructEmission(prefix, name, fields).outcome
  {
    ghost var start := buf.chunks;
    ghost var opening := [Header(prefix, name)] + NewLines(prefix, name);
    buf.Write(Header(prefix, name));
    GenerateNew(name, prefix, buf);
    assert buf.chunks == start + opening;
    o := GenerateFields(fields, FieldEmissions(fields), buf);
    ghost var fe := FieldsEmission(fields);
    StructChunks(prefix, name, fields);
    AppendAssoc(start, opening, fe.chunks);
    if o.Pass? {
      buf.Write(Closing);
      AppendAssoc(start, opening + fe.chunks, [Closing]);
    }
  }

  // ---------------------------------------------------------------------------
  // `generate_from_items`.

  /** One item: a message struct gets its block, a module with a body is
      walked with its name added to the prefix, everything else (other
      structs, `mod m;`, other items) writes nothing. */
  function ItemEmission(item: Item, prefix: string): (r: Emission)
    ensures Silent(item) ==> r == Nothing
    decreases item, 0
  {
    match item
    case Struct(name, attrs, fields) =>
      if DerivesMessage(attrs) then StructEmission(prefix, name, fields) else Nothing
    case Mod(name, content) =>
      (match content
       case Inline(c) => ItemsEmission(c, prefix + name + "::")
       case Declared => Nothing)
    case OtherItem => Nothing
  }

  function ItemEmissions(items: seq<Item>, prefix: string): seq<Emission>
    decreases items, 1
  {
    seq(|items|, j requires 0 <= j < |items| => ItemEmission(items[j], prefix))
  }

  /** The items of a file or module body, in order, up to the first panic. */
  function ItemsEmission(items: seq<Item>, prefix: string): (r: Emission)
    ensures r.outcome.Pass? <==> forall i :: 0 <= i < |items| ==> ItemEmission(items[i], prefix).outcome.Pass?
    decreases items, 2
  {
    var es := ItemEmissions(items, prefix);
    RunPassIffAllPass(es, |es|);
    assert forall i :: 0 <= i < |items| ==> es[i] == ItemEmission(items[i], prefix);
    Run(es)
  }

  /** The output of a list of items is the output of its first part followed
      by that of the rest: items are written in source order, each
      independently of its neighbours. */
  lemma ItemsAppend(a: seq<Item>, b: seq<Item>, prefix: string)
    ensures ItemsEmission(a + b, prefix) == Then(ItemsEmission(a, prefix), ItemsEmission(b, prefix))
  {
    var ea, eb := ItemEmissions(a, prefix), ItemEmissions(b, prefix);
    var whole := ItemEmissions(a + b, prefix);
    forall j | 0 <= j < |a + b| ensures whole[j] == (ea + eb)[j] {
      if j < |a| {
        assert (a + b)[j] == a[j];
      } else {
        assert (a + b)[j] == b[j - |a|];
      }
    }
    assert whole == ea + eb;
    RunAppend(ea, eb);
  }

  /** Modules only lengthen the prefix: the structs of nested modules are
      named by the path of module names leading to them. */
  lemma NestedModules(outer: string, inner: string, body: seq<Item>, prefix: string)
    ensures ItemsEmission([Mod(outer, Inline([Mod(inner, Inline(body))]))], prefix) ==
            ItemsEmission(body, prefix + outer + "::" + inner + "::")
  {
    var innerMod := Mod(inner, Inline(body));
    var outerMod := Mod(outer, Inline([innerMod]));
    assert ItemEmissions([innerMod], prefix + outer + "::") == [ItemEmission(innerMod, prefix + outer + "::")];
    RunSingle(ItemEmission(innerMod, prefix + outer + "::"));
    assert ItemEmissions([outerMod], prefix) == [ItemEmission(outerMod, prefix)];
    RunSingle(ItemEmission(outerMod, prefix));
  }

  /** Items that are neither message structs nor modules with a body
      contribute nothing. */
  predicate Silent(item: Item) {
    match item
    case Struct(_, attrs, _) => !DerivesMessage(attrs)
    case Mod(_, content) => content.Declared?
    case OtherItem => true
  }

  lemma SilentItemsWriteNothing(items: seq<Item>, prefix: string)
    requires forall i :: 0 <= i < |items| ==> Silent(items[i])
    ensures ItemsEmission(items, prefix) == Nothing
  {
    var es := ItemEmissions(items, prefix);
    assert forall i :: 0 <= i < |items| ==> es[i] == ItemEmission(items[i], prefix);
    RunOfNothing(es, |items|);
  }

  /** One item of `generate_from_items`: a message struct gets its block, a
      module with a body is walked with its name added to the prefix. */
  method GenerateItem(item: Item, prefix: string, buf: Output) returns (o: Outcome)
    modifies buf
    ensures buf.chunks == old(buf.chunks) + ItemEmission(item, prefix).chunks
    ensures o == ItemEmission(item, prefix).outcome
    decreases item, 0
  {
    o := Pass;
    match item {
      case Struct(name, attrs, fields) =>
        var isMessage := IsMessage(attrs);
        if isMessage {
          o := GenerateOne(name, fields, prefix, buf);
        }
      case Mod(name, content) =>
        if content.Inline? {
          o := GenerateFromItems(content.items, prefix + name + "::", ItemEmissions(content.items, prefix + name + "::"), buf);
        }
      case OtherItem =>
    }
  }

  /** `plan` lists what each item writes. */
  ghost predicate ItemsPlanned(items: seq<Item>, prefix: string, plan: seq<Emission>) {
    |plan| == |items| &&
    forall j {:trigger ItemEmission(items[j], prefix)} :: 0 <= j < |items| ==> plan[j] == ItemEmission(items[j], prefix)
  }

  /** The `i`-th item of a walk writes its planned lines. */
  method GenerateItemAt(items: seq<Item>, i: nat, prefix: string, ghost plan: seq<Emission>, buf: Output)
    returns (o: Outcome)
    requires i < |items| && ItemsPlanned(items, prefix, plan)
    modifies buf
    ensures buf.chunks == old(buf.chunks) + plan[i].chunks
    ensures o == plan[i].outcome
    decreases items, 1
  {
    o := GenerateItem(items[i], prefix, buf);
  }

  /** `generate_from_items`: walk the items in order, writing a block for each
      message struct and descending into module bodies, up to the first panic.
      `plan` is ghost: it names what each item writes, for the proof. */
  method GenerateFromItems(items: seq<Item>, prefix: string, ghost plan: seq<Emission>, buf: Output)
    returns (o: Outcome)
    requires ItemsPlanned(items, prefix, plan)
    modifies buf
    ensures buf.chunks == old(buf.chunks) + Run(plan).chunks
    ensures o == Run(plan).outcome
    decreases items, 2
  {
    ghost var start := buf.chunks;
    o := Pass;
    var i := 0;
    while i < |items| && o.Pass?
      invariant i <= |items|
      invariant RunUpTo(plan, i).outcome == o
      invariant buf.chunks == start + RunUpTo(plan, i).chunks
    {
      o := GenerateItemAt(items, i, prefix, plan, buf);
      RunStep(start, plan, i);
      i := i + 1;
    }
    if o.Fail? {
      RunFailureSticks(plan, i, |items|);
    }
  }

  /** `WrapperGen::generate`: the items of the file, with an empty prefix. */
  method Generate(items: seq<Item>, buf: Output) returns (o: Outcome)
    modifies buf
    ensures buf.chunks == old(buf.chunks) + ItemsEmission(items, "").chunks
    ensures o == ItemsEmission(items, "").outcome
  {
    o := GenerateFromItems(items, "", ItemEmissions(items, ""), buf);
  }
}
