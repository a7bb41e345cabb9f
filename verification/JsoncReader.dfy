/** The parser as the source runs it: one position, advanced by loops. */
module JsoncReader {
  import opened JsoncParser
  import opened JsoncSyntax
  import opened Options

  /** Looping: the source's array loop would never end here. */
  datatype Reading = Read(node: Node) | Failed | Looping

  predicate Agrees(r: Reading, pos: nat, outcome: Outcome) {
    match outcome
    case Parsed(node, end) => r == Read(node) && pos == end
    case Malformed => r == Failed
    case Stuck => r == Looping
  }

  class Parser {
    const codec: Codec
    const src: string
    var pos: nat

    constructor (codec: Codec, src: string)
      ensures this.codec == codec && this.src == src && pos == 0
    {
      this.codec := codec;
      this.src := src;
      pos := 0;
    }

    method SkipBlanks()
      modifies this
      ensures pos == SkipBlank(src, old(pos))
    {
      while pos < |src|
        invariant SkipBlank(src, pos) == SkipBlank(src, old(pos))
        decreases |src| - pos
      {
        if IsSpace(src[pos]) {
          pos := pos + 1;
        } else if src[pos] == '/' && pos + 1 < |src| && src[pos + 1] == '/' {
          ghost var end := LineEnd(src, pos + 2);
          pos := pos + 2;
          while pos < |src| && src[pos] != '\n'
            invariant LineEnd(src, pos) == end
            invariant pos >= 2 && SkipBlank(src, end) == SkipBlank(src, old(pos))
          {
            pos := pos + 1;
          }
        } else if src[pos] == '/' && pos + 1 < |src| && src[pos + 1] == '*' {
          ghost var end := BlockEnd(src, pos + 2);
          pos := pos + 2;
          while pos + 1 < |src| && !(src[pos] == '*' && src[pos + 1] == '/')
            invariant BlockEnd(src, pos) == end
            invariant SkipBlank(src, end + 2) == SkipBlank(src, old(pos))
          {
            pos := pos + 1;
          }
          pos := pos + 2;
        } else {
          return;
        }
      }
    }

    method Str() returns (r: Reading)
      requires pos < |src|
      modifies this
      ensures Agrees(r, pos, ParseString(codec, src, old(pos)))
    {
      var start := pos;
      pos := pos + 1;
      StringEndRange(src, pos);
      ghost var end := StringEnd(src, pos);
      while pos < |src|
        invariant start < pos && StringEnd(src, pos) == end
        decreases |src| - pos
      {
        if src[pos] == '\\' {
          pos := pos + 2;
        } else if src[pos] == '"' {
          pos := pos + 1;
          match codec.decode(src[start..pos])
          case None => return Failed;
          case Some(value) => return Read(Leaf('"', start, pos, value));
        } else {
          pos := pos + 1;
        }
      }
      return Failed;
    }

    method Scalar() returns (r: Reading)
      modifies this
      ensures r == Read(Leaf('l', old(pos), LiteralEnd(src, old(pos)), "")) && pos == LiteralEnd(src, old(pos))
    {
      var start := pos;
      while pos < |src| && !EndsLiteral(src, pos)
        invariant start <= pos && LiteralEnd(src, pos) == LiteralEnd(src, start)
      {
        pos := pos + 1;
      }
      r := Read(Leaf('l', start, pos, ""));
    }

    method ReadValue() returns (r: Reading)
      modifies this
      ensures Agrees(r, pos, ParseValue(codec, src, old(pos)))
      decreases |src| - pos, 1
    {
      hide SkipBlank, ParseString, ParseItems, ParseProps, LiteralEnd;
      SkipBlanks();
      if pos >= |src| {
        return Failed;
      }
      match src[pos]
      case '{' => r := ReadObject();
      case '[' => r := ReadArray();
      case '"' => r := Str();
      case _ => r := Scalar();
    }

    /** The end of either loop's round: past a comma, noting a closer right behind it. */
    method ReadSeparator(closer: char) returns (comma: Option<nat>, closes: bool)
      modifies this
      ensures (comma, pos, closes) == Separator(src, old(pos), closer)
    {
      hide SkipBlank;
      SkipBlanks();
      comma, closes := None, false;
      if pos < |src| && src[pos] == ',' {
        comma := Some(pos);
        pos := pos + 1;
        SkipBlanks();
        closes := pos < |src| && src[pos] == closer;
      }
    }

    method ReadArray() returns (r: Reading)
      requires pos < |src|
      modifies this
      ensures Agrees(r, pos, ParseItems(codec, src, old(pos), old(pos) + 1, [], [], false))
      decreases |src| - pos, 0
    {
      hide SkipBlank, ParseValue, ParseItems, Separator;
      var start := pos;
      pos := pos + 1;
      var items: seq<Node>, commas: seq<nat>, trailing := [], [], false;
      ghost var outcome := ParseItems(codec, src, start, pos, items, commas, trailing);
      while true
        invariant start < pos
        invariant ParseItems(codec, src, start, pos, items, commas, trailing) == outcome
        decreases |src| - pos
      {
        ItemsRound(codec, src, start, pos, items, commas, trailing);
        SkipBlanks();
        if pos >= |src| {
          return Failed;
        }
        if src[pos] == ']' {
          pos := pos + 1;
          return Read(Node('[', start, pos, "", [], [], items, commas, trailing));
        }
        var round := pos;
        var item := ReadValue();
        if !item.Read? {
          return item;
        }
        items := items + [item.node];
        var comma, closes := ReadSeparator(']');
        if comma.Some? {
          commas := commas + [comma.value];
        }
        trailing := trailing || closes;
        if pos <= round {
          return Looping;
        }
      }
    }

    method ReadObject() returns (r: Reading)
      requires pos < |src|
      modifies this
      ensures Agrees(r, pos, ParseProps(codec, src, old(pos), old(pos) + 1, [], [], [], false))
      decreases |src| - pos, 0
    {
      hide SkipBlank, ParseValue, ParseString, ParseProps, Separator;
      var start := pos;
      pos := pos + 1;
      var keys: seq<string>, propStarts: seq<nat>, items: seq<Node>, trailing := [], [], [], false;
      ghost var outcome := ParseProps(codec, src, start, pos, keys, propStarts, items, trailing);
      while true
        invariant start < pos
        invariant ParseProps(codec, src, start, pos, keys, propStarts, items, trailing) == outcome
        decreases |src| - pos
      {
        PropsRound(codec, src, start, pos, keys, propStarts, items, trailing);
        SkipBlanks();
        if pos >= |src| {
          return Failed;
        }
        if src[pos] == '}' {
          pos := pos + 1;
          return Read(Node('{', start, pos, "", keys, propStarts, items, [], trailing));
        }
        var key := Str();
        if !key.Read? {
          return key;
        }
        SkipBlanks();
        if pos >= |src| || src[pos] != ':' {
          return Failed;
        }
        pos := pos + 1;
        var value := ReadValue();
        if !value.Read? {
          return value;
        }
        keys := keys + [key.node.value];
        propStarts := propStarts + [key.node.start];
        items := items + [value.node];
        var _, closes := ReadSeparator('}');
        trailing := trailing || closes;
      }
    }
  }

  lemma ItemsRound(c: Codec, src: string, start: nat, from: nat, items: seq<Node>, commas: seq<nat>, trailing: bool)
    ensures var pos := SkipBlank(src, from);
            var outcome := ParseItems(c, src, start, from, items, commas, trailing);
            && (pos >= |src| ==> outcome == Malformed)
            && (pos < |src| && src[pos] == ']' ==>
                  outcome == Parsed(Node('[', start, pos + 1, "", [], [], items, commas, trailing), pos + 1))
            && (pos < |src| && src[pos] != ']' ==>
                  match ParseValue(c, src, pos)
                  case Parsed(item, end) =>
                    var (comma, next, closes) := Separator(src, end, ']');
                    outcome == if next <= pos then Stuck
                               else ParseItems(c, src, start, next, items + [item],
                                               if comma.Some? then commas + [comma.value] else commas, trailing || closes)
                  case other => outcome == other)
  {
    hide SkipBlank, ParseValue;
  }

  lemma PropsRound(c: Codec, src: string, start: nat, from: nat,
                   keys: seq<string>, propStarts: seq<nat>, items: seq<Node>, trailing: bool)
    ensures var pos := SkipBlank(src, from);
            var outcome := ParseProps(c, src, start, from, keys, propStarts, items, trailing);
            && (pos >= |src| ==> outcome == Malformed)
            && (pos < |src| && src[pos] == '}' ==>
                  outcome == Parsed(Node('{', start, pos + 1, "", keys, propStarts, items, [], trailing), pos + 1))
            && (pos < |src| && src[pos] != '}' ==>
                  match ParseString(c, src, pos)
                  case Parsed(key, keyEnd) =>
                    var colon := SkipBlank(src, keyEnd);
                    if colon >= |src| || src[colon] != ':' then outcome == Malformed
                    else
                      (match ParseValue(c, src, colon + 1)
                       case Parsed(value, end) =>
                         var (comma, next, closes) := Separator(src, end, '}');
                         outcome == ParseProps(c, src, start, next, keys + [key.value], propStarts + [key.start],
                                               items + [value], trailing || closes)
                       case other => outcome == other)
                  case other => outcome == other)
  {
    hide SkipBlank, ParseValue, ParseString;
  }

  method ParseJsonc(codec: Codec, document: string) returns (r: Reading)
    ensures match ParseDocument(codec, document)
            case Parsed(root, _) => r == Read(root)
            case Malformed => r == Failed
            case Stuck => r == Looping
  {
    hide ParseValue, SkipBlank;
    var parser := new Parser(codec, document);
    var root := parser.ReadValue();
    if !root.Read? {
      return root;
    }
    parser.SkipBlanks();
    if parser.pos != |document| {
      return Failed;
    }
    r := root;
  }
}
