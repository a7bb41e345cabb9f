/** The same plan carried out on the syntax tree instead of the text. */
module RenderSyntax {
  import opened JsoncParser
  import opened JsoncSyntax
  import opened JsoncTrees
  import opened Options
  import opened RenderPlanner
  import opened Sequences
  import opened TextEdits

  // ----- Properties of objects

  function FindProp(c: Codec, props: Props, key: string): Option<Value> {
    match props
    case EndProps(_) => None
    case LastProp(_, k, _, _, value, _) => if Decoded(c, k) == key then Some(value) else None
    case MoreProps(_, k, _, _, value, _, rest) => if Decoded(c, k) == key then Some(value) else FindProp(c, rest, key)
  }

  /** Where the value of the first property with the key begins. */
  function FindPos(c: Codec, props: Props, key: string, pos: nat): nat {
    match props
    case EndProps(_) => 0
    case LastProp(_, _, _, _, _, _) => FirstValuePos(props, pos)
    case MoreProps(_, k, _, _, _, _, rest) =>
      if Decoded(c, k) == key then FirstValuePos(props, pos) else FindPos(c, rest, key, RestPropsPos(props, pos))
  }

  /** The value of the first property with the key replaced. */
  function ReplaceProp(c: Codec, props: Props, key: string, v: Value): Props {
    match props
    case EndProps(_) => props
    case LastProp(before, k, colon, gap, value, after) =>
      LastProp(before, k, colon, gap, if Decoded(c, k) == key then v else value, after)
    case MoreProps(before, k, colon, gap, value, after, rest) =>
      if Decoded(c, k) == key then MoreProps(before, k, colon, gap, v, after, rest)
      else MoreProps(before, k, colon, gap, value, after, ReplaceProp(c, rest, key, v))
  }

  function PropOf(c: Codec, v: Value, key: string): Option<Value> {
    if v.Object? then FindProp(c, v.props, key) else None
  }

  function StringOf(c: Codec, v: Value, key: string): Option<string> {
    match PropOf(c, v, key)
    case Some(Quoted(raw)) => Some(Decoded(c, raw))
    case _ => None
  }

  lemma {:induction false} KeyIndexShift(first: string, keys: seq<string>, key: string, from: nat)
    requires from <= |keys|
    ensures KeyIndex([first] + keys, key, from + 1) == 1 + KeyIndex(keys, key, from)
    decreases |keys| - from
  {
    if from < |keys| && keys[from] != key {
      KeyIndexShift(first, keys, key, from + 1);
    }
  }

  lemma {:induction false} KeyIndexOfProps(c: Codec, props: Props, key: string, pos: nat)
    ensures |Keys(c, props)| == |PropNodes(c, props, pos)|
    ensures var index := KeyIndex(Keys(c, props), key, 0);
            if index < |Keys(c, props)| then
              && FindProp(c, props, key).Some?
              && PropNodes(c, props, pos)[index] == TreeOf(c, FindProp(c, props, key).value, FindPos(c, props, key, pos))
            else FindProp(c, props, key).None?
  {
    hide TreeOf, FirstValuePos, RestPropsPos;
    if props.MoreProps? {
      KeyIndexOfProps(c, props.rest, key, RestPropsPos(props, pos));
      KeyIndexShift(Decoded(c, props.key), Keys(c, props.rest), key, 0);
    }
  }

  /** Looking a key up in a parsed object is looking it up in its syntax tree. */
  lemma GetOfTree(c: Codec, v: Value, key: string, pos: nat)
    ensures Get(TreeOf(c, v, pos), key) ==
            match PropOf(c, v, key)
            case None => None
            case Some(value) => Some(TreeOf(c, value, FindPos(c, v.props, key, pos + 1)))
    ensures GetString(TreeOf(c, v, pos), key) == StringOf(c, v, key)
  {
    hide ItemNodes, Commas, Trailing, PropNodes, Keys, PropStarts, TrailingProp, FindProp, FindPos;
    if v.Object? {
      KeyIndexOfProps(c, v.props, key, pos + 1);
    }
  }

  /** The text around a property's value. */
  lemma {:induction false} SplitProp(c: Codec, props: Props, key: string, v: Value, pos: nat)
    returns (left: string, right: string)
    requires FindProp(c, props, key).Some?
    ensures PropsText(props) == left + ValueText(FindProp(c, props, key).value) + right
    ensures PropsText(ReplaceProp(c, props, key, v)) == left + ValueText(v) + right
    ensures FindPos(c, props, key, pos) == pos + |left|
  {
    hide ValueText, PropHead, BlankText;
    var head := PropHead(props.before, props.key, props.colon, props.gap);
    if Decoded(c, props.key) == key {
      left := head;
      right := BlankText(props.after) + if props.LastProp? then "" else "," + PropsText(props.rest);
      if props.MoreProps? {
        SeqAssociative(head, ValueText(v), right);
        SeqAssociative(head, ValueText(props.value), right);
      } else {
        assert right == BlankText(props.after);
        SeqAssociative(head, ValueText(v), right);
        SeqAssociative(head, ValueText(props.value), right);
      }
    } else {
      var l, r := SplitProp(c, props.rest, key, v, RestPropsPos(props, pos));
      var skipped := head + (ValueText(props.value) + (BlankText(props.after) + ","));
      left, right := skipped + l, r;
      PropsTextAfter(props, l, ValueText(FindProp(c, props.rest, key).value), r);
      PropsTextAfter(props.(rest := ReplaceProp(c, props.rest, key, v)), l, ValueText(v), r);
    }
  }

  lemma PropsTextAfter(props: Props, l: string, middle: string, r: string)
    requires props.MoreProps? && PropsText(props.rest) == l + middle + r
    ensures PropsText(props) ==
            PropHead(props.before, props.key, props.colon, props.gap) + (ValueText(props.value) + (BlankText(props.after) + ","))
            + l + middle + r
  {
    hide ValueText, PropHead, BlankText;
    var head, value, after := PropHead(props.before, props.key, props.colon,
                                       props.gap), ValueText(props.value), BlankText(props.after);
    Concat4(head, value, after, ",", l + middle + r);
    SeqAssociative(head + (value + (after + ",")), l, middle);
    SeqAssociative(head + (value + (after + ",")), l + middle, r);
  }

  lemma {:induction false} ReplacedProp(c: Codec, props: Props, key: string, v: Value)
    requires FindProp(c, props, key).Some?
    ensures FindProp(c, ReplaceProp(c, props, key, v), key) == Some(v)
    ensures forall k :: k != key ==> FindProp(c, ReplaceProp(c, props, key, v), k) == FindProp(c, props, k)
  {
    if props.MoreProps? && Decoded(c, props.key) != key {
      ReplacedProp(c, props.rest, key, v);
    }
  }

  lemma {:induction false} ReplacedPropOk(c: Codec, props: Props, key: string, v: Value)
    requires PropsOk(c, props) && ValueOk(c, v)
    ensures PropsOk(c, ReplaceProp(c, props, key, v))
    ensures FindProp(c, props, key).Some? ==> ValueOk(c, FindProp(c, props, key).value)
  {
    hide BlankOk, QuotedOk;
    if props.MoreProps? {
      ReplacedPropOk(c, props.rest, key, v);
    }
  }

  // ----- Edits inside a larger text

  lemma EditedInside(left: string, middle: string, right: string, edits: seq<TextEdit>, offset: nat)
    requires Within(edits, offset + |left|, offset + |left| + |middle|)
    ensures Within(edits, offset, offset + |left + middle + right|)
    ensures Edited(left + middle + right, edits, offset) == left + Edited(middle, edits, offset + |left|) + right
  {
    hide Edited, Within;
    EditedNothing(left, offset);
    EditedNothing(right, offset + |left| + |middle|);
    EditedConcat(left, middle, [], edits, offset);
    assert [] + edits == edits;
    EditedConcat(left + middle, right, edits, [], offset);
    assert edits + [] == edits;
  }

  lemma Braced(left: string, middle: string, right: string)
    ensures "{" + (left + middle + right) + "}" == ("{" + left) + middle + (right + "}")
  {
    SeqAssociative("{", left + middle, right);
    SeqAssociative("{", left, middle);
    SeqAssociative("{" + left + middle, right, "}");
  }

  /** Edits of a property's value carry over to the object. */
  lemma EditedProp(c: Codec, props: Props, key: string, v: Value, edits: seq<TextEdit>, pos: nat)
    requires FindProp(c, props, key).Some?
    requires var old' := FindProp(c, props, key).value;
             var at := FindPos(c, props, key, pos + 1);
             Within(edits, at, at + |ValueText(old')|) && Edited(ValueText(old'), edits, at) == ValueText(v)
    ensures var text := ValueText(Object(props));
            && Within(edits, pos, pos + |text|)
            && Edited(text, edits, pos) == ValueText(Object(ReplaceProp(c, props, key, v)))
  {
    hide PropsText, Edited, Within, FindPos, FindProp, ReplaceProp;
    var left, right := SplitProp(c, props, key, v, pos + 1);
    var old' := FindProp(c, props, key).value;
    EditedInside("{" + left, ValueText(old'), right + "}", edits, pos);
    Braced(left, ValueText(old'), right);
    Braced(left, ValueText(v), right);
  }
}
