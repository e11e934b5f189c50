/** The formatter's document: a flat element stream whose structure is carried by paired tags
    (`ir.rs`), and the combinators that are the only writers of it. */
module Document {

  type GroupId = nat

  /** How a line element behaves in flat versus expanded mode. */
  datatype LineMode = Soft | SoftOrSpace | Hard | Empty

  datatype PrintMode = Flat | Expanded

  /** The elements that are not brackets. */
  datatype Atom =
    | Token(content: string)
    | Text(content: string)
    | Space
    | Line(lineMode: LineMode)
    | ExpandParent
    | LineSuffixBoundary

  datatype Tag =
    | StartGroup(id: GroupId) | EndGroup
    | StartIndent | EndIndent
    | StartAlign(width: nat) | EndAlign
    | StartConditional(mode: PrintMode, id: GroupId) | EndConditional
    | StartIndentIfGroupBreaks(id: GroupId) | EndIndentIfGroupBreaks
    | StartFill | EndFill
    | StartEntry | EndEntry
    | StartLineSuffix | EndLineSuffix

  datatype Element =
    | Plain(atom: Atom)
    | BestFitting(variants: seq<Variant>)
    | Mark(tag: Tag)

  /** One layout of a best-fitting element: a stream of its own. */
  datatype Variant = Variant(elements: seq<Element>)

  // ----- the combinators -----

  datatype Indentation = ByLevel | ByAlign(width: nat) | IfBreaks(id: GroupId)

  /** A document as the combinators compose it. */
  datatype Doc =
    | Nothing
    | Cat(first: Doc, second: Doc)
    | Leaf(atom: Atom)
    | Group(id: GroupId, body: Doc)
    | Indented(how: Indentation, body: Doc)
    | Conditional(mode: PrintMode, id: GroupId, body: Doc)
    | Fill(separator: LineMode, entries: Docs)
    | Best(variants: Docs)
    | LineSuffix(body: Doc)

  datatype Docs = NoDocs | Docs(head: Doc, tail: Docs)

  function Opening(how: Indentation): Tag {
    match how
    case ByLevel => StartIndent
    case ByAlign(w) => StartAlign(w)
    case IfBreaks(id) => StartIndentIfGroupBreaks(id)
  }

  function Closing(how: Indentation): Tag {
    match how
    case ByLevel => EndIndent
    case ByAlign(_) => EndAlign
    case IfBreaks(_) => EndIndentIfGroupBreaks
  }

  /** What the combinators push: every `Start*` tag with its `End*`. */
  function Stream(d: Doc): seq<Element>
    decreases d
  {
    match d
    case Nothing => []
    case Cat(a, b) => Stream(a) + Stream(b)
    case Leaf(a) => [Plain(a)]
    case Group(id, b) => [Mark(StartGroup(id))] + Stream(b) + [Mark(EndGroup)]
    case Indented(how, b) => [Mark(Opening(how))] + Stream(b) + [Mark(Closing(how))]
    case Conditional(m, id, b) => [Mark(StartConditional(m, id))] + Stream(b) + [Mark(EndConditional)]
    case Fill(sep, es) => [Mark(StartFill)] + EntryStream(sep, es) + [Mark(EndFill)]
    case Best(vs) => [BestFitting(VariantStreams(vs))]
    case LineSuffix(b) => [Mark(StartLineSuffix)] + Stream(b) + [Mark(EndLineSuffix)]
  }

  /** Entries are wrapped one by one; separators sit between them. */
  function EntryStream(sep: LineMode, es: Docs): seq<Element>
    decreases es
  {
    match es
    case NoDocs => []
    case Docs(d, rest) =>
      [Mark(StartEntry)] + Stream(d) + [Mark(EndEntry)]
      + (if rest == NoDocs then [] else [Plain(Line(sep))] + EntryStream(sep, rest))
  }

  function VariantStreams(vs: Docs): (r: seq<Variant>)
    ensures |r| == Count(vs)
    decreases vs
  {
    match vs
    case NoDocs => []
    case Docs(d, rest) => [Variant(Stream(d))] + VariantStreams(rest)
  }

  function Count(ds: Docs): nat {
    match ds
    case NoDocs => 0
    case Docs(_, rest) => 1 + Count(rest)
  }
}
