/** Well-formed JSONC as a concrete syntax tree that keeps every blank and comment. */
module JsoncSyntax {
  import opened Options

  /** How strings are escaped: json.Marshal and json.Unmarshal on strings. */
  datatype Codec = Codec(encode: string -> string, decode: string -> Option<string>) {
    ghost predicate Valid() {
      && (forall s: string :: QuotedOk(encode(s)) && decode(encode(s)) == Some(s))
      && (forall s: string :: Plain(s) ==> decode(Bare(s)) == Some(s))
    }
  }

  /** Strings that stand for themselves between quotes. */
  predicate Plain(s: string) { forall i :: 0 <= i < |s| ==> 'a' <= s[i] <= 'z' }

  function Bare(s: string): string { "\"" + s + "\"" }

  // ----- Blanks and comments

  datatype Trivium = Space(c: char) | LineComment(text: string) | BlockComment(text: string)

  type Blank = seq<Trivium>

  predicate IsSpace(c: char) { c == ' ' || c == '\t' || c == '\r' || c == '\n' }

  predicate TriviumOk(t: Trivium) {
    match t
    case Space(c) => c == ' ' || c == '\t' || c == '\r' || c == '\n'
    case LineComment(text) => '\n' !in text
    case BlockComment(text) => forall i :: 0 <= i < |text| - 1 ==> !(text[i] == '*' && text[i + 1] == '/')
  }

  function TriviumText(t: Trivium): (text: string)
    ensures text != []
  {
    match t
    case Space(c) => [c]
    case LineComment(text) => "//" + text + "\n"
    case BlockComment(text) => "/*" + text + "*/"
  }

  predicate BlankOk(b: Blank) { forall i :: 0 <= i < |b| ==> TriviumOk(b[i]) }

  function BlankText(b: Blank): string {
    if b == [] then [] else TriviumText(b[0]) + BlankText(b[1..])
  }

  /** Blanks and line breaks as trivia. */
  function Spaces(text: string): (b: Blank)
  {
    seq(|text|, i requires 0 <= i < |text| => Space(text[i]))
  }

  // ----- Values

  datatype Value =
    | Literal(text: string)
    | Quoted(raw: string)
    | Array(items: Items)
    | Object(props: Props)

  /** What stands between the brackets; `More(..., End(b))` ends in a trailing comma. */
  datatype Items =
    | End(blank: Blank)
    | Last(before: Blank, value: Value, after: Blank)
    | More(before: Blank, value: Value, after: Blank, rest: Items)

  datatype Props =
    | EndProps(blank: Blank)
    | LastProp(before: Blank, key: string, colon: Blank, gap: Blank, value: Value, after: Blank)
    | MoreProps(before: Blank, key: string, colon: Blank, gap: Blank, value: Value, after: Blank, rest: Props)

  datatype Document = Document(lead: Blank, root: Value, trail: Blank, note: Option<string>)

  predicate LiteralChar(c: char) {
    'a' <= c <= 'z' || 'A' <= c <= 'Z' || '0' <= c <= '9' || c == '+' || c == '-' || c == '.'
  }

  predicate LiteralOk(text: string) { text != [] && forall i :: 0 <= i < |text| ==> LiteralChar(text[i]) }

  /** Where a string's closing quote leaves the scan that has reached `pos`. */
  function StringEnd(src: string, pos: nat): Option<nat>
    decreases |src| - pos
  {
    if pos >= |src| then None
    else if src[pos] == '\\' then StringEnd(src, pos + 2)
    else if src[pos] == '"' then Some(pos + 1)
    else StringEnd(src, pos + 1)
  }

  predicate QuotedOk(raw: string) {
    |raw| >= 2 && raw[0] == '"' && StringEnd(raw, 1) == Some(|raw|)
  }

  function ValueText(v: Value): string {
    match v
    case Literal(text) => text
    case Quoted(raw) => raw
    case Array(items) => "[" + ItemsText(items) + "]"
    case Object(props) => "{" + PropsText(props) + "}"
  }

  function ItemsText(items: Items): string {
    match items
    case End(blank) => BlankText(blank)
    case Last(before, value, after) => BlankText(before) + (ValueText(value) + BlankText(after))
    case More(before, value, after, rest) =>
      BlankText(before) + (ValueText(value) + (BlankText(after) + ("," + ItemsText(rest))))
  }

  function PropHead(before: Blank, key: string, colon: Blank, gap: Blank): string {
    BlankText(before) + (key + (BlankText(colon) + (":" + BlankText(gap))))
  }

  function PropsText(props: Props): string {
    match props
    case EndProps(blank) => BlankText(blank)
    case LastProp(before, key, colon, gap, value, after) =>
      PropHead(before, key, colon, gap) + (ValueText(value) + BlankText(after))
    case MoreProps(before, key, colon, gap, value, after, rest) =>
      PropHead(before, key, colon, gap) + (ValueText(value) + (BlankText(after) + ("," + PropsText(rest))))
  }

  function NoteText(note: Option<string>): string {
    match note
    case None => []
    case Some(text) => "//" + text
  }

  function DocumentText(d: Document): string {
    BlankText(d.lead) + (ValueText(d.root) + (BlankText(d.trail) + NoteText(d.note)))
  }

  ghost predicate ValueOk(c: Codec, v: Value) {
    match v
    case Literal(text) => LiteralOk(text)
    case Quoted(raw) => QuotedOk(raw) && c.decode(raw).Some?
    case Array(items) => ItemsOk(c, items)
    case Object(props) => PropsOk(c, props)
  }

  ghost predicate ItemsOk(c: Codec, items: Items) {
    match items
    case End(blank) => BlankOk(blank)
    case Last(before, value, after) => BlankOk(before) && ValueOk(c, value) && BlankOk(after)
    case More(before, value, after, rest) => BlankOk(before) && ValueOk(c, value) && BlankOk(after) && ItemsOk(c, rest)
  }

  ghost predicate PropsOk(c: Codec, props: Props) {
    match props
    case EndProps(blank) => BlankOk(blank)
    case LastProp(before, key, colon, gap, value, after) =>
      && BlankOk(before) && QuotedOk(key) && c.decode(key).Some? && BlankOk(colon) && BlankOk(gap)
      && ValueOk(c, value) && BlankOk(after)
    case MoreProps(before, key, colon, gap, value, after, rest) =>
      && BlankOk(before) && QuotedOk(key) && c.decode(key).Some? && BlankOk(colon) && BlankOk(gap)
      && ValueOk(c, value) && BlankOk(after) && PropsOk(c, rest)
  }

  ghost predicate DocumentOk(c: Codec, d: Document) {
    && BlankOk(d.lead) && ValueOk(c, d.root) && BlankOk(d.trail)
    && (d.note.Some? ==> '\n' !in d.note.value)
  }
}
