# protobuf-build wrapper generator, modelled in Dafny

`src/wrapper.rs` reads a Rust file that `prost` generated from protobuf
definitions. For every struct that derives prost's `Message`, it writes an
`impl` block of accessor methods to `wrapper_<file name>`: `new_`,
`default_instance`, and per field `has_`, `clear_`, `set_`, `get_`, `mut_` and
`take_` as the field's kind calls for. The model covers four parts of that
generator:

- **The field classifier** (`FieldKind::from_attrs`, module `FieldKinds`).
  It reads the `#[prost(...)]` entries of a field and maps each recognised
  entry to a kind. It takes the least kind under the derived order of the
  enum, from the first `prost` attribute that yields any kind.
- **Descriptor synthesis** (`FieldMethods::new` and `FieldKind::methods`,
  module `Descriptors`). This is the per-kind table that fills a
  `FieldMethods` record.
- **Rendering** (`FieldMethods::write_methods`, module `Rendering`). It turns
  one descriptor into 3 to 6 method chunks, one `writeln!` per method.
- **The walk over the file** (`generate_from_items`, `generate_one`,
  `generate_new`, `is_message`, and the output file name from
  `WrapperGen::new`, module `Generation`).

The output buffer is a class `Rendering.Output` whose field `chunks` holds
one string per `write!`/`writeln!` call, in call order. A `writeln!` chunk
ends in `"\n"`. The `impl P N {` header is a `write!` and has no newline.
Below, a "line" of output means one such chunk: one `writeln!` call. Most
are a single line of text, but the custom `mut_` of an optional field splices
a body that spans several text lines into its one chunk.

A panic of the generator is modelled as a failure value (`Base.Failure`):

- `UnknownFieldKind`: the `unreachable!` at the end of `from_attrs`.
- `MalformedLiteral`: slicing the quotes off a literal shorter than two
  characters.
- `MalformedOptionType`: every panic of the `Optional` arm of `methods`.

`Generation.Emission` pairs the chunks written before the panic with the
outcome. `Generation.Run` chains pieces the way the generator does: each
piece runs only when the previous ones finished.

Parsing is not modelled. Wherever the generator prints a syntax node, the
node in `Syntax` carries its printed text as a string: a type's text, a
literal with its quotes, an attribute's token text.

## Model

| member | source | states |
|---|---|---|
| FieldKinds.LessIsStrictTotalOrder | src/wrapper.rs:108-119 | The derived order (variants in declaration order, payload strings compared only within the same variant) is irreflexive, transitive and total. |
| FieldKinds.TokenKind | src/wrapper.rs:129-160 | An entry can only fail by the literal-slicing panic, and only when it is a `name = literal` pair. A pair yields only Enumeration or OneOf, and a bare word only the payload-free kinds. |
| FieldKinds.WordTokens | src/wrapper.rs:130-145 | A bare word yields Optional, Repeated, Bytes, String or Bool for its keyword, Int for any of the four int widths, and nothing for any other word. |
| FieldKinds.QuotedValueTokens | src/wrapper.rs:146-156 | `enumeration = "L"` yields Enumeration(L) and `oneof = "L"` yields OneOf(L), with the quotes trimmed; any other name yields nothing. |
| FieldKinds.TokenFailsOnlyOnShortLiteral | src/wrapper.rs:146-159 | An entry panics exactly when it is a name-value pair whose literal text is shorter than two characters; a nested list or bare literal yields nothing. |
| FieldKinds.Candidates | src/wrapper.rs:126-161 | Collecting the candidates of one list can only fail with the literal-slicing panic, and yields at most one kind per entry. |
| FieldKinds.CandidatesSpec | src/wrapper.rs:126-161 | The list fails exactly when some entry fails; otherwise a kind is a candidate exactly when some entry yields it. |
| FieldKinds.Least | src/wrapper.rs:162-164 | The least candidate is one of the candidates. |
| FieldKinds.LeastIsMinimum | src/wrapper.rs:162-164 | The least candidate is one of the candidates and is below or equal to every candidate. |
| FieldKinds.SortedHeadIsLeast | src/wrapper.rs:162-164 | The head of any sorted permutation of the candidates is the least candidate, so sorting and taking the first element picks the minimum. |
| FieldKinds.Classify | src/wrapper.rs:122-170 | Classification fails only with "Unknown field kind" or the literal-slicing panic, and a field without attributes is always unknown. |
| FieldKinds.ClassifyDecided | src/wrapper.rs:122-170 | Classification fails with UnknownFieldKind exactly when no attribute is a `prost` list that yields a kind or fails. Otherwise the result is decided by the first such attribute: its error, or the least of its candidates. |
| FieldKinds.ClassifyIsLeastOfAttr | src/wrapper.rs:122-170 | A successful classification is the least candidate of one of the field's attributes. |
| FieldKinds.SingleEntryClassifies | src/wrapper.rs:122-170 | A `prost` list whose single entry is recognised classifies the field as that entry's kind, whatever attributes follow. |
| FieldKinds.FromAttrs | src/wrapper.rs:122-170 | The attribute loop with its early return computes exactly the classification above. |
| Descriptors.UnescapeStripsRawPrefix | src/wrapper.rs:287-290 | A leading `r#` is removed once and nothing else changes; an identifier without it is kept as is. |
| Descriptors.NewFieldMethods | src/wrapper.rs:286-304 | The defaults ask for no `has_`, `mut_` or `take_`, carry no custom clear, set or get expression, and no override type. |
| Descriptors.OptionArg | src/wrapper.rs:176-191 | A payload is found only in a path type whose last segment is `Option` with a type first between its angle brackets, and it is that type; a non-path type has none. |
| Descriptors.Synthesize | src/wrapper.rs:172-263 | Synthesis can only fail with the malformed-Option panic. |
| Descriptors.DescriptorTable | src/wrapper.rs:172-263 | Per kind: failure iff Optional without an `Option<T>` type; no descriptor iff OneOf. `has` only for Optional. `take_` for Optional, Repeated, Bytes and String. `mut_` is custom for Optional, standard for the containers and absent for scalars and enums. It also gives the `ref_ty`, `clear` and `override_ty` slots of each kind, and which kinds have a `set` or `get` expression. Type text, raw name and unescaped name come from `FieldMethods::new`. |
| Descriptors.OptionalTypeShape | src/wrapper.rs:175-193 | Optional succeeds exactly on a path type whose last segment is `Option` with a type first between its angle brackets, and then exposes that type; a non-path type fails. |
| Descriptors.Methods | src/wrapper.rs:172-263 | Building the record by overwriting the defaults slot by slot gives the descriptor table's result. |
| Rendering.Output.Write | src/wrapper.rs:312-316 | One `writeln!` appends exactly one chunk to the buffer. |
| Rendering.Accessors | src/wrapper.rs:310-398 | Every descriptor yields between 3 and 6 methods. |
| Rendering.AccessorsInWritingOrder | src/wrapper.rs:310-398 | `has_`, `mut_` and `take_` appear exactly when the descriptor asks for them; `clear_`, `set_` and `get_` always appear. Each appears once, in the order has, clear, set, get, mut, take. |
| Rendering.GetterBorrowsUnlessCopied | src/wrapper.rs:322-370 | The getter returns the exposed type itself when the value is copied, and otherwise a reference starting with `&`. The default getter body starts with `&` exactly when the value is not copied. |
| Rendering.ReadOnlyAccessors | src/wrapper.rs:312-396 | Only `has_` and `get_` take `&self`; every other accessor takes `&mut self`. |
| Rendering.UnitAccessors | src/wrapper.rs:327-351 | `clear_` and `set_` return unit; every other accessor declares a return type. |
| Rendering.RenderEndsAfterBrace | src/wrapper.rs:310-398 | Every accessor is written as one `writeln!` chunk that ends in a newline right after its closing brace; only the custom `mut_` chunk has a space between the brace and that newline. |
| Rendering.MethodLines | src/wrapper.rs:306-401 | A descriptor renders one line per accessor it yields. |
| Rendering.RenderNamesMethod | src/wrapper.rs:312-397 | Each accessor's line starts `pub fn <prefix><unescaped name>(`. |
| Rendering.MethodLineNamesAccessor | src/wrapper.rs:312-397 | The i-th rendered line declares the public method of the i-th accessor, named with the unescaped field name. |
| Rendering.MethodLinesBySection | src/wrapper.rs:310-398 | The rendered lines are the optional `has_` line, then `clear_`, `set_`, `get_`, then the optional `mut_` and `take_` lines. |
| Rendering.WriteMethods | src/wrapper.rs:306-401 | `write_methods` appends exactly the descriptor's rendered lines to the buffer, in that order. |
| Rendering.AccessorsByKind | src/wrapper.rs:172-263 | Optional fields get all six methods; Repeated, Bytes and String get all but `has_`; Int, Bool and Enumeration get only `clear_`, `set_` and `get_`. |
| Rendering.ExposedTypesByKind | src/wrapper.rs:318-326 | The exposed type is the `Option` payload for Optional, the enum type for Enumeration, and the field type otherwise. The getter returns the type by value for scalars and enums, `&[u8]` for Bytes, `&str` for String, and a reference to the exposed type for the rest. |
| Rendering.ScalarLines | src/wrapper.rs:213-220 | An int or bool field renders exactly three lines: reset to `0`/`false`, store `v`, and return the field by copy. |
| Rendering.RepeatedLines | src/wrapper.rs:221-227 | A repeated field renders exactly five lines: the field's own `clear()`, a plain store, a borrowing getter, `&mut` access, and a `take_` that swaps in an empty `Vec`. |
| Rendering.ViewLines | src/wrapper.rs:228-243 | A bytes or string field renders exactly five lines: its own `clear()`, a plain store, a getter returning `&[u8]` or `&str`, `&mut` access, and a `take_` that swaps in an empty `Vec` or `String`. |
| Rendering.OptionalLines | src/wrapper.rs:175-212 | An `Option<T>` field renders exactly six lines that speak of `T`: `is_some()`, reset to `None`, store `Some(v)`, a getter falling back to `T::default_instance()`, a `mut_` that fills an empty field with `T::default()`, and a `take_` that leaves `None`. |
| Rendering.EnumerationLines | src/wrapper.rs:244-256 | An enumeration field of enum `E` renders exactly three lines that speak of `E`: reset to `0`, and store and load through `transmute`. |
| Rendering.ContainerLines | src/wrapper.rs:327-398 | The five lines of any descriptor shaped like a container field, text for text. Its getter borrows the field, whether as the field's own type or as a view type. |
| Rendering.OptionalShapeLines | src/wrapper.rs:310-398 | The six lines of any descriptor asking for every accessor with its own expressions, text for text. |
| Rendering.FixedOnlyLines | src/wrapper.rs:310-398 | A descriptor without `has_`, `mut_` and `take_` renders only `clear_`, `set_` and `get_`. |
| Rendering.AllAccessorLines | src/wrapper.rs:310-398 | A descriptor asking for `has_`, `mut_` and `take_` renders all six accessors in writing order. |
| Rendering.HasLine | src/wrapper.rs:311-317 | `has_` returns whether the field `is_some()`. |
| Rendering.ClearValueLine | src/wrapper.rs:329-333 | With a `clear` value, `clear_` assigns it to the field. |
| Rendering.ClearLine | src/wrapper.rs:334-338 | Without a `clear` value, `clear_` calls the field's own `clear()`. |
| Rendering.SetExprLine | src/wrapper.rs:342-346 | With a `set` expression, `set_` takes `v` of the exposed type and assigns the expression. |
| Rendering.SetLine | src/wrapper.rs:347-351 | Without a `set` expression, `set_` takes `v` of the exposed type and stores it. |
| Rendering.GetExprLine | src/wrapper.rs:355-359 | With a `get` expression, `get_` returns it as the getter's return type. |
| Rendering.GetBorrowedLine | src/wrapper.rs:360-370 | Without a `get` expression, a getter that does not copy returns `&self.<name>` as its reference type (`&T`, `&[u8]` or `&str`). |
| Rendering.GetCopiedLine | src/wrapper.rs:360-370 | Without a `get` expression, a copying getter returns `self.<name>` as the exposed type. |
| Rendering.MutLine | src/wrapper.rs:374-379 | A standard `mut_` returns `&mut self.<name>` as `&mut` of the exposed type. |
| Rendering.CustomMutLine | src/wrapper.rs:381-387 | A custom `mut_` runs its body and returns `&mut` of the exposed type; its line ends in a space before the newline. |
| Rendering.TakeLine | src/wrapper.rs:392-397 | `take_` returns the exposed type (the `Option` payload for an optional field) through the descriptor's take expression. |
| Base.LastIndexOf | src/wrapper.rs:24 | `rfind`: None iff the character is absent; otherwise an index holding it with no occurrence after it. |
| Generation.BaseName | src/wrapper.rs:22-25 | The base name has no `/`, is a suffix of the path, and is preceded by a `/` whenever it is shorter than the path. |
| Generation.WrapperFileName | src/wrapper.rs:22-25 | The output name is `wrapper_` followed by a `/`-free suffix of the input path. |
| Generation.BaseNameOfJoin | src/wrapper.rs:22-25 | `dir/file` names its output `wrapper_file`, and a name without `/` is its own base name. |
| Base.Contains | src/wrapper.rs:420 | Substring search holds exactly when the text occurs at some position. |
| Generation.IsMessage | src/wrapper.rs:416-426 | `is_message` holds exactly when some attribute is a `derive` whose token text contains `:: prost_derive :: Message`. |
| Generation.Then | src/wrapper.rs:72-85 | Chaining only appends: the first piece's output is kept as a prefix, and after it passes the rest is exactly the second piece's output and the chain reports the second piece's outcome. A panicking first piece ends the chain: nothing more is written and its own panic is the one reported. The chain passes exactly when both pieces pass. |
| Generation.ThenNothing | src/wrapper.rs:53-64 | A piece that writes nothing and passes is a neutral element of chaining, on either side. |
| Generation.ThenAssociative | src/wrapper.rs:53-64 | Chaining is associative, so a run can be grouped in any way. |
| Generation.RunPassIffAllPass | src/wrapper.rs:53-64 | A chain of `?`-separated steps finishes exactly when every step finishes. |
| Generation.RunStopsAtFirstFailure | src/wrapper.rs:53-64 | The first step that panics ends the chain: the output is the earlier steps' output, then that step's partial output. |
| Generation.RunAppend | src/wrapper.rs:53-64 | Running a split chain is running its first part, then its second. |
| Generation.FieldEmission | src/wrapper.rs:74-83 | A field that panics writes nothing of its own. |
| Generation.FieldFailure | src/wrapper.rs:74-83 | A field panics exactly when it is named and either its classification fails, or it is Optional without an `Option<T>` type. A named field with no attributes panics with UnknownFieldKind. |
| Generation.FieldsPassIffAllPass | src/wrapper.rs:74-83 | A struct's fields all go through exactly when each field does. |
| Generation.FieldsStopAtFirstFailure | src/wrapper.rs:74-83 | The first field that panics stops the struct: the lines written are those of the fields before it. |
| Generation.FieldClosingFree | src/wrapper.rs:74-83 | No line of a field's methods is the closing brace. |
| Generation.FieldsClosingFree | src/wrapper.rs:74-83 | No line of any of a struct's fields is the closing brace. |
| Generation.StructEmission | src/wrapper.rs:68-86 | A struct's block always opens with the header and the two constructors, and it passes exactly when its fields do. |
| Generation.StructChunks | src/wrapper.rs:68-86 | A struct's block is header, constructors and field lines, followed by `}` exactly when the fields go through. |
| Generation.StructBlock | src/wrapper.rs:68-86 | A block opens with `impl P N {` and the two constructors. It ends in `}` exactly when every field goes through, and then holds the fields' lines in field order between the two. |
| Generation.GenerateNew | src/wrapper.rs:88-104 | `generate_new` appends the `new_` and `default_instance` lines for `prefix + name`. |
| Generation.GenerateField | src/wrapper.rs:74-83 | One field of the iterator chain writes exactly its planned lines and reports its outcome. |
| Generation.GenerateFields | src/wrapper.rs:74-83 | The lazy iterator chain writes the fields' lines in declaration order, up to the first panic. |
| Generation.GenerateOne | src/wrapper.rs:68-86 | `generate_one` appends exactly the struct's block, or the block up to the first field panic. |
| Generation.ItemEmission | src/wrapper.rs:53-63 | A struct that is not a message, a `mod m;` declaration and any other item write nothing. |
| Generation.ItemsEmission | src/wrapper.rs:49-66 | A list of items passes exactly when each of its items passes. |
| Generation.ItemsAppend | src/wrapper.rs:49-66 | The output of a list of items is the output of its first part followed by that of the rest. |
| Generation.NestedModules | src/wrapper.rs:58-62 | Inline modules only lengthen the prefix: the structs of `mod a { mod b { .. } }` are written with prefix `P + "a::" + "b::"`. |
| Generation.SilentItemsWriteNothing | src/wrapper.rs:53-64 | Structs that are not messages, `mod m;` declarations and other items write nothing. |
| Generation.GenerateItem | src/wrapper.rs:54-63 | One item writes its block, or its module body under the extended prefix, or nothing. |
| Generation.GenerateFromItems | src/wrapper.rs:49-66 | `generate_from_items` writes the items' output in order, up to the first panic. |
| Generation.Generate | src/wrapper.rs:40-46 | Generation of a file is the walk of its items with an empty prefix. |

## Left out

- Reading the input file, creating the output file, `BufWriter`, the output path and the `rustfmt` call (`WrapperGen::new` beyond the name, and `WrapperGen::write`). This is file I/O; the model starts from the parsed items and ends with the chunk buffer.
- `io::Error` from `write!`/`writeln!`. Writes to the buffer always succeed. The `?` chains are modelled only for what they do here: stop at the first panic.
- Parsing and token printing by the parser library (`parse_file`, `parse_meta`, `into_token_stream().to_string()`, `tts.to_string()`). Their results are given strings in `Syntax`.
- The behaviour of the emitted Rust: the `transmute` in enum accessors, `mem::replace`, the `unimplemented!` `default_instance`, lazy `mut_` initialisation. This is output text, not behaviour of the generator.
- Whitespace of the emitted text beyond the literal pieces, which `rustfmt` normalises afterwards. Chunks are the exact concatenations the format strings build.
- Byte-level slicing of non-ASCII text (`&file_name[..]`, `value[1..len-1]`, `unesc_name[2..]`). Strings are sequences of characters and are sliced by character.
- Which of several equal candidates the stable sort puts first. Equal kinds are identical values, so the first element is the same either way.
- Generation.GenerateFields, Generation.GenerateFromItems: they take a ghost `plan` parameter. It names what each element writes, for the proof only, and does not change what the methods compute.
- Generation.Emission: after a panic, the model keeps the chunks written before it. The unwinding panic drops the `BufWriter`, which flushes them to the file. Only the `rustfmt` pass that would follow is skipped, and that pass is not part of this model.
