/** Where and how the render writes what it inserts. */
module RenderLayout {
  import opened JsoncParser
  import opened JsoncSyntax
  import opened RenderPlanner
  import opened TextEdits

  /** The line of a position begins here. */
  predicate LineBegins(document: string, pos: nat, start: nat) {
    && start <= pos <= |document| && (start == 0 || document[start - 1] == '\n')
    && forall k :: start <= k < pos ==> document[k] != '\n'
  }

  predicate Whitespace(letter: char) { letter == ' ' || letter == '\t' }

  /** All the whitespace that stands here. */
  predicate IndentStands(document: string, start: nat, indent: string) {
    && start + |indent| <= |document| && document[start..start + |indent|] == indent
    && (forall k :: 0 <= k < |indent| ==> Whitespace(indent[k]))
    && (start + |indent| < |document| ==> !Whitespace(document[start + |indent|]))
  }

  /** The whitespace a line begins with, for some position in the line. */
  ghost predicate BeginsLine(document: string, pos: nat, indent: string) {
    exists start :: LineBegins(document, pos, start) && IndentStands(document, start, indent)
  }

  lemma {:induction false} LineStartIs(document: string, pos: nat)
    requires pos <= |document|
    ensures LineBegins(document, pos, LineStart(document, pos))
    decreases pos
  {
    if pos > 0 && document[pos - 1] != '\n' {
      LineStartIs(document, pos - 1);
    }
  }

  lemma {:induction false} IndentIs(document: string, pos: nat)
    requires pos <= |document|
    ensures IndentStands(document, pos, Indent(document, pos))
    decreases |document| - pos
  {
    if pos < |document| && (document[pos] == ' ' || document[pos] == '\t') {
      IndentIs(document, pos + 1);
    }
  }

  lemma LineIndentIs(document: string, pos: nat)
    requires pos <= |document|
    ensures BeginsLine(document, pos, LineIndent(document, pos))
  {
    LineStartIs(document, pos);
    IndentIs(document, LineStart(document, pos));
  }

  /** A line's whitespace is one only: what begins the line of a position is determined. */
  lemma OneIndent(document: string, pos: nat, a: string, b: string)
    requires BeginsLine(document, pos, a) && BeginsLine(document, pos, b)
    ensures a == b
  {
    hide LineBegins, IndentStands;
    var s :| LineBegins(document, pos, s) && IndentStands(document, s, a);
    var t :| LineBegins(document, pos, t) && IndentStands(document, t, b);
    OneStart(document, pos, s, t);
    OneStand(document, s, a, b);
  }

  lemma OneStart(document: string, pos: nat, s: nat, t: nat)
    requires LineBegins(document, pos, s) && LineBegins(document, pos, t)
    ensures s == t
  {
    assert s == 0 || document[s - 1] == '\n';
    assert t == 0 || document[t - 1] == '\n';
  }

  lemma OneStand(document: string, start: nat, a: string, b: string)
    requires IndentStands(document, start, a) && IndentStands(document, start, b)
    ensures a == b
  {
    NoLonger(document, start, a, b);
    NoLonger(document, start, b, a);
  }

  lemma NoLonger(document: string, start: nat, a: string, b: string)
    requires IndentStands(document, start, a) && IndentStands(document, start, b)
    ensures |b| <= |a|
  {
    assert forall k :: 0 <= k < |b| ==> b[k] == document[start + k] && Whitespace(document[start + k]);
  }

  // ----- Lists of entries

  /** Each part with the separator before it. */
  function Led(parts: seq<string>, separator: string): string {
    if parts == [] then "" else Led(parts[..|parts| - 1], separator) + separator + parts[|parts| - 1]
  }

  lemma LedFirst(first: string, rest: seq<string>, separator: string)
    ensures Led([first] + rest, separator) == separator + first + Led(rest, separator)
    decreases |rest|
  {
    var all := [first] + rest;
    if rest == [] {
      assert all[..0] == [] && all == [first];
      assert Led(all, separator) == Led([], separator) + separator + first;
      assert "" + separator + first == separator + first == separator + first + "";
    } else {
      var n := |rest| - 1;
      assert all[..|all| - 1] == [first] + rest[..n] && all[|all| - 1] == rest[n];
      LedFirst(first, rest[..n], separator);
      var head, middle := separator + first, Led(rest[..n], separator);
      assert head + middle + separator + rest[n] == head + (middle + separator + rest[n]);
    }
  }

  lemma {:induction false} JoinIsLed(parts: seq<string>, separator: string)
    requires parts != []
    ensures separator + Join(parts, separator) == Led(parts, separator)
    decreases |parts|
  {
    assert parts == [parts[0]] + parts[1..];
    LedFirst(parts[0], parts[1..], separator);
    if |parts| > 1 {
      JoinIsLed(parts[1..], separator);
      assert separator + (parts[0] + separator + Join(parts[1..], separator)) == separator + parts[0] + (separator + Join(parts[1..], separator));
    } else {
      assert Led(parts[1..], separator) == "";
      assert separator + parts[0] + "" == separator + parts[0];
    }
  }

  ghost predicate SpansLines(document: string, start: nat, end: nat) {
    exists k :: start <= k < end && k < |document| && document[k] == '\n'
  }

  /**
   * Behind the last entry every new one comes with a comma before it: on a line of its own, indented as the last entry's
   * line is, exactly if the array spans lines, and behind a space otherwise.
   */
  lemma AppendIsLaidOut(c: Codec, document: string, clients: Node, ops: seq<ClientOp>, indent: string)
    requires ops != [] && clients.items != [] && !clients.trailing
    requires var last := clients.items[|clients.items| - 1]; last.start <= |document| && BeginsLine(document, last.start, indent)
    ensures var edit, end := PlanAppend(c, document, clients, ops), clients.items[|clients.items| - 1].end;
            && edit.at == edit.end == end
            && edit.text == Led(EntryTexts(c, ops), if SpansLines(document, clients.start, clients.end) then ",\n" + indent else ", ")
  {
    hide LineIndent, EntryTexts, Join, Led, BeginsLine;
    var last := clients.items[|clients.items| - 1];
    LineIndentIs(document, last.start);
    OneIndent(document, last.start, indent, LineIndent(document, last.start));
    EntryCount(c, ops);
    JoinIsLed(EntryTexts(c, ops), ",\n" + indent);
    JoinIsLed(EntryTexts(c, ops), ", ");
  }

  /**
   * Where the last entry has its own comma: whole lines, indented as the last entry's is, before the bracket's line, exactly
   * if the array spans lines, and behind that comma and a space otherwise.
   */
  lemma CommaAppendIsLaidOut(c: Codec, document: string, clients: Node, ops: seq<ClientOp>, indent: string)
    requires ops != [] && clients.items != [] && clients.trailing && 0 < clients.end <= |document|
    requires var last := clients.items[|clients.items| - 1];
             last.start <= |document| && last.end <= |document| && BeginsLine(document, last.start, indent)
    ensures var edit, end := PlanAppend(c, document, clients, ops), clients.items[|clients.items| - 1].end;
            && edit.at == edit.end
            && if SpansLines(document, clients.start, clients.end) then
                 LineBegins(document, clients.end - 1, edit.at) && ",\n" + edit.text == Led(EntryTexts(c, ops), ",\n" + indent) + "\n"
               else
                 && end < edit.at <= |document| + 1 && (forall k :: end <= k < edit.at - 1 ==> document[k] != ',')
                 && (edit.at <= |document| ==> document[edit.at - 1] == ',') && "," + edit.text == Led(EntryTexts(c, ops), ", ")
  {
    hide LineIndent, LineStart, CommaAfter, EntryTexts, Join, Led, BeginsLine, LineBegins;
    var last, entries := clients.items[|clients.items| - 1], EntryTexts(c, ops);
    LineIndentIs(document, last.start);
    OneIndent(document, last.start, indent, LineIndent(document, last.start));
    EntryCount(c, ops);
    JoinIsLed(entries, ",\n" + indent);
    JoinIsLed(entries, ", ");
    LineStartIs(document, clients.end - 1);
    NextComma(document, last.end);
    var joined := Join(entries, ",\n" + indent);
    assert ",\n" + (indent + joined + "\n") == (",\n" + indent) + joined + "\n";
    assert "," + (" " + Join(entries, ", ")) == ", " + Join(entries, ", ");
  }

  lemma {:induction false} NextComma(document: string, pos: nat)
    requires pos <= |document|
    ensures var comma := CommaAfter(document, pos);
            && pos <= comma <= |document| && (comma < |document| ==> document[comma] == ',')
            && forall k :: pos <= k < comma ==> document[k] != ','
    decreases |document| - pos
  {
    if pos < |document| && document[pos] != ',' {
      NextComma(document, pos + 1);
    }
  }

  lemma EntryCount(c: Codec, ops: seq<ClientOp>)
    ensures |EntryTexts(c, ops)| == |ops|
  {}

  /** Between the brackets of an empty array: one entry to a line, indented by two more than the array's line, or inline. */
  lemma FillIsLaidOut(c: Codec, document: string, clients: Node, ops: seq<ClientOp>, indent: string)
    requires ops != [] && clients.items == [] && clients.start <= |document| && BeginsLine(document, clients.start, indent)
    ensures var edit, entries := PlanAppend(c, document, clients, ops), EntryTexts(c, ops);
            && edit.at == edit.end == clients.start + 1
            && if SpansLines(document, clients.start, clients.end) then "," + edit.text == Led(entries, ",\n" + indent + "  ") + "\n" + indent
               else ", " + edit.text == Led(entries, ", ")
  {
    hide LineIndent, EntryTexts, Join, Led, BeginsLine;
    LineIndentIs(document, clients.start);
    OneIndent(document, clients.start, indent, LineIndent(document, clients.start));
    var entries := EntryTexts(c, ops);
    EntryCount(c, ops);
    JoinIsLed(entries, ",\n" + indent + "  ");
    JoinIsLed(entries, ", ");
    if SpansLines(document, clients.start, clients.end) {
      var joined := Join(entries, ",\n" + indent + "  ");
      assert "," + ("\n" + indent + "  " + joined + "\n" + indent) == (",\n" + indent + "  ") + joined + "\n" + indent;
    }
  }

  /** A new clients array: on lines of their own between the brackets, indented by two more than the key. */
  ghost predicate LaidOutUnder(c: Codec, text: string, ops: seq<ClientOp>, indent: string) {
    ops != [] && exists rest: string ::
                    text == "[" + rest + "\n" + indent + "]" && "," + rest == Led(EntryTexts(c, ops), ",\n" + indent + "  ")
  }

  lemma ValueIsLaidOut(c: Codec, ops: seq<ClientOp>, indent: string)
    requires ops != []
    ensures LaidOutUnder(c, ClientsValueText(c, indent, ops), ops, indent)
  {
    hide EntryTexts, Join, Led;
    EntryCount(c, ops);
    var entries := EntryTexts(c, ops);
    JoinIsLed(entries, ",\n" + indent + "  ");
    var rest := "\n" + indent + "  " + Join(entries, ",\n" + indent + "  ");
    assert "," + rest == (",\n" + indent + "  ") + Join(entries, ",\n" + indent + "  ");
    assert ClientsValueText(c, indent, ops) == "[" + rest + "\n" + indent + "]";
  }

  /**
   * Settings that hold something and span lines gain the key on a line of its own, indented as the last key's line is;
   * settings on one line gain it behind a comma and a space.
   */
  lemma KeyIsLaidOut(c: Codec, document: string, settings: Node, ops: seq<ClientOp>, indent: string)
    requires ops != [] && settings.items != [] && settings.propStarts != []
    requires var key := settings.propStarts[|settings.propStarts| - 1]; key <= |document| && BeginsLine(document, key, indent)
    ensures var edit, end := PlanKeyInsert(c, document, settings, ops), settings.items[|settings.items| - 1].end;
            && edit.at == edit.end == end
            && if SpansLines(document, settings.start, settings.end) then
                 exists value: string :: edit.text == ",\n" + indent + c.encode("clients") + ": " + value && LaidOutUnder(c, value, ops, indent)
               else
                 exists rest: string :: edit.text == ", " + c.encode("clients") + ": [" + rest + "]" && ", " + rest == Led(EntryTexts(c, ops), ", ")
  {
    hide LineIndent, EntryTexts, Join, Led, BeginsLine, ClientsValueText, LaidOutUnder;
    var key := settings.propStarts[|settings.propStarts| - 1];
    LineIndentIs(document, key);
    OneIndent(document, key, indent, LineIndent(document, key));
    ValueIsLaidOut(c, ops, indent);
    EntryCount(c, ops);
    JoinIsLed(EntryTexts(c, ops), ", ");
    if !SpansLines(document, settings.start, settings.end) {
      var rest := Join(EntryTexts(c, ops), ", ");
      assert PlanKeyInsert(c, document, settings, ops).text == ", " + c.encode("clients") + ": [" + rest + "]";
    } else {
      var value := ClientsValueText(c, indent, ops);
      assert PlanKeyInsert(c, document, settings, ops).text == ",\n" + indent + c.encode("clients") + ": " + value;
    }
  }
}
