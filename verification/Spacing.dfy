/** Where the compact printer puts spaces (`separator.rs`, `compact.rs`), and the text it writes. */
module Spacing {
  import opened Wrappers
  import opened LuaSyntax
  import opened Scanner

  datatype PrevClass =
    | Nothing | WordClass | NumberClass | MinusClass | SlashClass | BracketClass | DotClass | DotDotClass
    | LessClass | GreaterClass | SemicolonClass | Other

  function ClassifyText(text: string): PrevClass {
    if |text| == 1 && text[0] == '-' then MinusClass
    else if |text| == 1 && text[0] == '/' then SlashClass
    else if |text| == 1 && text[0] == '[' then BracketClass
    else if |text| == 1 && text[0] == '.' then DotClass
    else if |text| == 2 && text[0] == '.' && text[1] == '.' then DotDotClass
    else if |text| == 1 && text[0] == '<' then LessClass
    else if |text| == 1 && text[0] == '>' then GreaterClass
    else if |text| == 1 && text[0] == ';' then SemicolonClass
    else if text != "" && IsWordChar(text[0]) then WordClass
    else Other
  }

  predicate NeedsSpace(prev: PrevClass, first: char, wordlike: bool) {
    match prev
    case WordClass => wordlike
    case NumberClass => wordlike || first == '.'
    case MinusClass => first == '-'
    case SlashClass => first == '/'
    case BracketClass => first == '['
    case DotClass => first == '.'
    case DotDotClass => first == '.'
    case LessClass => first == '<'
    case GreaterClass => first == '>' || first == '='
    case _ => false
  }

  function Spell(t: Token): string {
    match t
    case Identifier(name) => name
    case Numeral(text) => text
    case Quoted(text) => text
    case Word(w) => SpellKeyword(w)
    case Sign(s) => SpellSymbol(s)
    case InterpWhole(text) => "`" + text + "`"
    case InterpBegin(text) => "`" + text + "{"
    case InterpMid(text) => "}" + text + "{"
    case InterpEnd(text) => "}" + text + "`"
  }

  function ClassOf(t: Token): PrevClass {
    match t
    case Identifier(_) => WordClass
    case Numeral(_) => NumberClass
    case Word(w) => ClassifyText(SpellKeyword(w))
    case Sign(s) => ClassifyText(SpellSymbol(s))
    case _ => Other
  }

  predicate Wordlike(t: Token) { t.Identifier? || t.Numeral? || t.Word? }

  predicate OpensHole(t: Token) { t.InterpBegin? || t.InterpMid? }

  /** A space goes between `prev` and `t`: by class, or to keep `{{` apart at the start of a hole. */
  predicate Apart(prev: Token, t: Token) {
    || NeedsSpace(ClassOf(prev), CharAt(Spell(t), 0), Wordlike(t))
    || (OpensHole(prev) && t == Sign(LeftBrace))
  }

  function Gap(prev: Option<Token>, t: Token): string {
    if prev.Some? && Apart(prev.value, t) then " " else ""
  }

  /** The printed text of a token sequence. */
  function Render(prev: Option<Token>, ts: Tokens): string
    decreases ts
  {
    match ts
    case Eof => ""
    case Tok(t, k) => Gap(prev, t) + Spell(t) + Render(Some(t), k)
  }
}
