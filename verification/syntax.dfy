/** The parts of a parsed Rust file that the generator looks at. Parsing and
    printing tokens back to text belong to the parser library and are not part
    of this model: wherever the generator prints a syntax node, the node carries
    its printed text as a given string. */
module Syntax {
  import opened Base

  /** A generic argument between angle brackets: a type (with its printed
      text), or anything else (a lifetime, a binding, a constraint). */
  datatype GenericArg = TypeArg(text: string) | OtherArg

  datatype PathArgs = NoArgs | AngleBracketed(args: seq<GenericArg>) | Parenthesized

  datatype Segment = Segment(ident: string, arguments: PathArgs)

  datatype Path = Path(leadingColon: bool, segments: seq<Segment>)

  /** A field type: a path type such as `Option<Foo>` or `Vec<u8>`, or any other
      type form (reference, tuple, array, ...). `text` is its printed token text. */
  datatype Ty = TPath(path: Path, text: string) | TOther(text: string)

  /** One entry of an attribute's parenthesised list: a bare word (`optional`),
      a `name = literal` pair whose literal is kept as its printed text
      (`"Color"` with its quotes), or anything else (a nested list, a literal). */
  datatype Nested = Word(ident: string) | NameValue(ident: string, lit: string) | OtherNested

  /** An attribute `#[path ...]`. `meta` is the entry list when the attribute
      parses as `path(entries)` and None otherwise; `tts` is the printed text
      of the tokens after the path. */
  datatype Attr = Attr(path: Path, meta: Option<seq<Nested>>, tts: string)

  /** A struct field; `ident` is None for a tuple-struct field. */
  datatype Field = Field(ident: Option<string>, ty: Ty, attrs: seq<Attr>)

  /** A top-level or module-level item. */
  datatype Item =
    | Struct(ident: string, attrs: seq<Attr>, fields: seq<Field>)
    | Mod(ident: string, content: ModContent)
    | OtherItem

  /** The body of a module: `mod m;` declares one whose items live in another
      file, `mod m { ... }` carries its items inline. */
  datatype ModContent = Declared | Inline(items: seq<Item>)

  /** `Path::is_ident`: no leading `::`, one segment, no generic arguments,
      and that segment is `name`. */
  predicate IsIdent(p: Path, name: string) {
    && !p.leadingColon
    && |p.segments| == 1
    && p.segments[0].arguments == NoArgs
    && p.segments[0].ident == name
  }
}
