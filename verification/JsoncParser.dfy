/** The span-carrying parser of internal/xrayconfig/render.go. */
module JsoncParser {
  import opened JsoncSyntax
  import opened Options

  /** One parsed value with its span; `end` is exclusive. */
  datatype Node = Node(
    kind: char, // '{', '[', '"', or 'l' for a literal
    start: nat, end: nat,
    value: string,
    keys: seq<string>, propStarts: seq<nat>,
    items: seq<Node>, commas: seq<nat>, trailing: bool)

  /** Stuck: the loop of the source never leaves this point, because a literal consumed nothing. */
  datatype Outcome = Parsed(node: Node, pos: nat) | Malformed | Stuck

  // ----- The scanner

  predicate StartsComment(src: string, pos: nat) {
    pos + 1 < |src| && src[pos] == '/' && (src[pos + 1] == '/' || src[pos + 1] == '*')
  }

  function LineEnd(src: string, pos: nat): (end: nat)
    ensures end >= pos
    decreases |src| - pos
  {
    if pos < |src| && src[pos] != '\n' then LineEnd(src, pos + 1) else pos
  }

  function BlockEnd(src: string, pos: nat): (end: nat)
    ensures end >= pos
    decreases |src| - pos
  {
    if pos + 1 < |src| && !(src[pos] == '*' && src[pos + 1] == '/') then BlockEnd(src, pos + 1) else pos
  }

  /** Past whitespace and both comment forms. */
  function SkipBlank(src: string, pos: nat): (end: nat)
    ensures end >= pos
    decreases |src| - pos
  {
    if pos >= |src| then pos
    else if IsSpace(src[pos]) then SkipBlank(src, pos + 1)
    else if StartsComment(src, pos) then
      if src[pos + 1] == '/' then SkipBlank(src, LineEnd(src, pos + 2))
      else SkipBlank(src, BlockEnd(src, pos + 2) + 2)
    else pos
  }

  predicate EndsLiteral(src: string, pos: nat) {
    pos >= |src| || IsSpace(src[pos]) || src[pos] == ',' || src[pos] == '}' || src[pos] == ']' || src[pos] == ':'
    || StartsComment(src, pos)
  }

  function LiteralEnd(src: string, pos: nat): (end: nat)
    ensures end >= pos
    decreases |src| - pos
  {
    if EndsLiteral(src, pos) then pos else LiteralEnd(src, pos + 1)
  }

  function Leaf(kind: char, start: nat, end: nat, value: string): Node {
    Node(kind, start, end, value, [], [], [], [], false)
  }

  function ParseString(c: Codec, src: string, pos: nat): (r: Outcome)
    requires pos < |src|
    ensures r.Parsed? ==> pos < r.pos <= |src|
  {
    match StringEnd(src, pos + 1)
    case None => Malformed
    case Some(end) =>
      StringEndRange(src, pos + 1);
      match c.decode(src[pos..end])
      case None => Malformed
      case Some(value) => Parsed(Leaf('"', pos, end, value), end)
  }

  lemma {:induction false} StringEndRange(src: string, pos: nat)
    ensures StringEnd(src, pos).Some? ==> pos < StringEnd(src, pos).value <= |src|
    decreases |src| - pos
  {
    if pos < |src| && src[pos] == '\\' {
      StringEndRange(src, pos + 2);
    } else if pos < |src| && src[pos] != '"' {
      StringEndRange(src, pos + 1);
    }
  }

  // ----- The recursive descent

  function ParseValue(c: Codec, src: string, from: nat): (r: Outcome)
    ensures r.Parsed? ==> SkipBlank(src, from) <= r.pos
    decreases |src| - from, 0
  {
    var pos := SkipBlank(src, from);
    if pos >= |src| then Malformed
    else if src[pos] == '{' then ParseProps(c, src, pos, pos + 1, [], [], [], false)
    else if src[pos] == '[' then ParseItems(c, src, pos, pos + 1, [], [], false)
    else if src[pos] == '"' then ParseString(c, src, pos)
    else Parsed(Leaf('l', pos, LiteralEnd(src, pos), ""), LiteralEnd(src, pos))
  }

  /** Past a separator comma, if there is one: where it was, where the scan goes on, and whether a closer follows. */
  function Separator(src: string, from: nat, closer: char): (r: (Option<nat>, nat, bool))
    ensures SkipBlank(src, from) <= r.1
    ensures r.0.Some? ==> SkipBlank(src, from) < r.1
  {
    var pos := SkipBlank(src, from);
    if pos < |src| && src[pos] == ',' then
      var next := SkipBlank(src, pos + 1);
      (Some(pos), next, next < |src| && src[next] == closer)
    else (None, pos, false)
  }

  function ParseItems(c: Codec, src: string, start: nat, from: nat,
                      items: seq<Node>, commas: seq<nat>, trailing: bool): (r: Outcome)
    ensures r.Parsed? ==> from <= r.pos
    decreases |src| - from, 1
  {
    var pos := SkipBlank(src, from);
    if pos >= |src| then Malformed
    else if src[pos] == ']' then Parsed(Node('[', start, pos + 1, "", [], [], items, commas, trailing), pos + 1)
    else
      match ParseValue(c, src, pos)
      case Malformed => Malformed
      case Stuck => Stuck
      case Parsed(item, end) =>
        var (comma, next, closes) := Separator(src, end, ']');
        if next <= pos then Stuck // nothing was consumed: the next round starts where this one did
        else
          ParseItems(c, src, start, next, items + [item],
                     if comma.Some? then commas + [comma.value] else commas, trailing || closes)
  }

  function ParseProps(c: Codec, src: string, start: nat, from: nat,
                      keys: seq<string>, propStarts: seq<nat>, items: seq<Node>, trailing: bool): (r: Outcome)
    ensures r.Parsed? ==> from <= r.pos
    decreases |src| - from, 1
  {
    var pos := SkipBlank(src, from);
    if pos >= |src| then Malformed
    else if src[pos] == '}' then Parsed(Node('{', start, pos + 1, "", keys, propStarts, items, [], trailing), pos + 1)
    else
      match ParseString(c, src, pos)
      case Malformed => Malformed
      case Stuck => Stuck
      case Parsed(key, keyEnd) =>
        var colon := SkipBlank(src, keyEnd);
        if colon >= |src| || src[colon] != ':' then Malformed
        else
          match ParseValue(c, src, colon + 1)
          case Malformed => Malformed
          case Stuck => Stuck
          case Parsed(value, end) =>
            var (comma, next, closes) := Separator(src, end, '}');
            ParseProps(c, src, start, next, keys + [key.value], propStarts + [key.start], items + [value], trailing || closes)
  }

  /** The whole document: one value, then nothing but blanks. */
  function ParseDocument(c: Codec, src: string): Outcome {
    match ParseValue(c, src, 0)
    case Parsed(root, end) => if SkipBlank(src, end) != |src| then Malformed else Parsed(root, |src|)
    case other => other
  }
}
