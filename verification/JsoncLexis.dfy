/** What the scanner takes for blanks, strings and literals, character by character. */
module JsoncLexis {
  import opened JsoncParser
  import opened JsoncSyntax
  import opened Options
  import opened Sequences

  // ----- Blanks

  /** A comment without an end: what remains of the text is skipped. */
  predicate OpenComment(text: string) {
    |text| >= 2 && text[0] == '/'
    && ((text[1] == '/' && '\n' !in text) || (text[1] == '*' && NoClose(text, 2)))
  }

  predicate NoClose(text: string, from: nat) { forall i :: from <= i < |text| - 1 ==> !(text[i] == '*' && text[i + 1] == '/') }

  /** What is skipped is made of blanks and comments, the last of them perhaps open to the end. */
  ghost predicate Skipped(src: string, from: nat, end: nat) {
    || (from <= end <= |src| && exists b: Blank :: BlankOk(b) && BlankText(b) == src[from..end])
    || (end >= |src| && from <= |src| && exists b: Blank, rest: string :: BlankOk(b) && BlankText(b) + rest == src[from..] && OpenComment(rest))
  }

  lemma {:induction false} LineEndIs(src: string, pos: nat)
    requires pos <= |src|
    ensures var end := LineEnd(src, pos);
            end <= |src| && '\n' !in src[pos..end] && (end < |src| ==> src[end] == '\n')
    decreases |src| - pos
  {
    if pos < |src| && src[pos] != '\n' {
      LineEndIs(src, pos + 1);
      var end := LineEnd(src, pos + 1);
      assert src[pos..end] == [src[pos]] + src[pos + 1..end];
    }
  }

  lemma {:induction false} BlockEndIs(src: string, pos: nat)
    requires pos <= |src|
    ensures var end := BlockEnd(src, pos);
            && end <= |src| && (forall i :: pos <= i < end && i + 1 < |src| ==> !(src[i] == '*' && src[i + 1] == '/'))
            && (end + 1 < |src| ==> src[end] == '*' && src[end + 1] == '/')
    decreases |src| - pos
  {
    if pos + 1 < |src| && !(src[pos] == '*' && src[pos + 1] == '/') {
      BlockEndIs(src, pos + 1);
    }
  }

  lemma Joined(src: string, from: nat, middle: nat, end: nat, t: Trivium)
    requires from <= middle <= |src| && TriviumOk(t) && src[from..middle] == TriviumText(t) && Skipped(src, middle, end)
    ensures Skipped(src, from, end)
  {
    hide TriviumText, TriviumOk, OpenComment;
    if middle <= end <= |src| && exists b: Blank :: BlankOk(b) && BlankText(b) == src[middle..end] {
      var b: Blank :| BlankOk(b) && BlankText(b) == src[middle..end];
      assert ([t] + b)[1..] == b;
      assert src[from..end] == src[from..middle] + src[middle..end];
      assert BlankOk([t] + b) && BlankText([t] + b) == src[from..end];
    } else {
      var b: Blank, rest: string :| BlankOk(b) && BlankText(b) + rest == src[middle..] && OpenComment(rest);
      assert ([t] + b)[1..] == b;
      assert src[from..] == src[from..middle] + src[middle..];
      SeqAssociative(TriviumText(t), BlankText(b), rest);
      assert BlankOk([t] + b) && BlankText([t] + b) + rest == src[from..];
    }
  }

  lemma NothingSkipped(src: string, from: nat)
    requires from <= |src|
    ensures Skipped(src, from, from)
  {
    assert BlankText([]) == src[from..from] && BlankOk([]);
  }

  lemma OpenToTheEnd(src: string, from: nat, end: nat)
    requires from <= |src| <= end && OpenComment(src[from..])
    ensures Skipped(src, from, end)
  {
    assert BlankText([]) + src[from..] == src[from..] && BlankOk([]);
  }

  /** The scanner skips whitespace and comments, and nothing else. */
  lemma {:induction false} SkippedIsBlank(src: string, from: nat)
    requires from <= |src|
    ensures Skipped(src, from, SkipBlank(src, from))
    decreases |src| - from
  {
    hide Skipped, OpenComment;
    var end := SkipBlank(src, from);
    if from < |src| && IsSpace(src[from]) {
      SkippedIsBlank(src, from + 1);
      assert src[from..from + 1] == [src[from]];
      Joined(src, from, from + 1, end, Space(src[from]));
    } else if from < |src| && StartsComment(src, from) {
      if src[from + 1] == '/' {
        LineSkipped(src, from);
      } else {
        BlockSkipped(src, from);
      }
    } else {
      NothingSkipped(src, from);
    }
  }

  lemma LineSkipped(src: string, from: nat)
    requires from + 1 < |src| && src[from] == '/' && src[from + 1] == '/'
    ensures Skipped(src, from, SkipBlank(src, LineEnd(src, from + 2)))
    decreases |src| - from, 0
  {
    hide Skipped;
    var stop := LineEnd(src, from + 2);
    LineEndIs(src, from + 2);
    if stop == |src| {
      assert src[from..] == "//" + src[from + 2..stop];
      OpenToTheEnd(src, from, SkipBlank(src, stop));
    } else {
      var text := src[from + 2..stop];
      assert src[from..stop + 1] == "//" + text + "\n";
      SkippedIsBlank(src, stop + 1);
      Joined(src, from, stop + 1, SkipBlank(src, stop + 1), LineComment(text));
      assert SkipBlank(src, stop) == SkipBlank(src, stop + 1);
    }
  }

  lemma BlockSkipped(src: string, from: nat)
    requires from + 1 < |src| && src[from] == '/' && src[from + 1] == '*'
    ensures Skipped(src, from, SkipBlank(src, BlockEnd(src, from + 2) + 2))
    decreases |src| - from, 0
  {
    hide Skipped;
    var stop := BlockEnd(src, from + 2);
    BlockEndIs(src, from + 2);
    if stop + 1 < |src| {
      var text := src[from + 2..stop];
      assert src[from..stop + 2] == "/*" + text + "*/";
      SkippedIsBlank(src, stop + 2);
      Joined(src, from, stop + 2, SkipBlank(src, stop + 2), BlockComment(text));
    } else {
      var tail := src[from..];
      assert forall i :: 0 <= i < |tail| ==> tail[i] == src[from + i];
      OpenToTheEnd(src, from, SkipBlank(src, stop + 2));
    }
  }

  // ----- Strings

  /** What may stand between quotes: no bare quote, and each backslash with the character it escapes. */
  predicate StringBody(s: string)
    decreases |s|
  {
    if s == [] then true
    else if s[0] == '\\' then |s| >= 2 && StringBody(s[2..])
    else s[0] != '"' && StringBody(s[1..])
  }

  lemma {:induction false} BodyEnds(raw: string, pos: nat)
    requires 1 <= pos < |raw|
    ensures StringEnd(raw, pos) == Some(|raw|) <==> raw[|raw| - 1] == '"' && StringBody(raw[pos..|raw| - 1])
    decreases |raw| - pos
  {
    var n := |raw| - 1;
    var body := raw[pos..n];
    if pos == n {
      assert body == [];
    } else if raw[pos] == '\\' {
      if pos + 2 <= n {
        BodyEnds(raw, pos + 2);
        assert body[2..] == raw[pos + 2..n];
      } else {
        assert body == ['\\'];
      }
    } else if raw[pos] == '"' {
      assert body[0] == '"';
    } else {
      BodyEnds(raw, pos + 1);
      assert body[1..] == raw[pos + 1..n];
    }
  }

  /** A string is a body between quotes. */
  lemma QuotedExactly(raw: string)
    ensures QuotedOk(raw) <==>
            |raw| >= 2 && raw[0] == '"' && raw[|raw| - 1] == '"' && StringBody(raw[1..|raw| - 1])
  {
    if |raw| >= 2 {
      BodyEnds(raw, 1);
    }
  }

  // ----- Literals

  /** A literal runs up to whitespace, a separator, a closing bracket, a comment or the end. */
  predicate Stops(src: string, i: nat) {
    i >= |src| || src[i] in " \t\r\n,}]:" || (src[i] == '/' && i + 1 < |src| && (src[i + 1] == '/' || src[i + 1] == '*'))
  }

  lemma {:induction false} LiteralEndIs(src: string, pos: nat)
    requires pos <= |src|
    ensures var end := LiteralEnd(src, pos); Stops(src, end) && forall i :: pos <= i < end ==> !Stops(src, i)
    decreases |src| - pos
  {
    if !EndsLiteral(src, pos) {
      LiteralEndIs(src, pos + 1);
    }
  }
}
