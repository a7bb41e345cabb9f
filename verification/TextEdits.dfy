/** Replacing spans of a text, one at a time from last to first, or all at once. */
module TextEdits {
  import opened Sequences

  /** Replaces [at, end) with text; at == end is a pure insert. */
  datatype TextEdit = TextEdit(at: nat, end: nat, text: string)

  function Splice(text: string, e: TextEdit): string
    requires e.at <= e.end <= |text|
  {
    text[..e.at] + e.text + text[e.end..]
  }

  /** Every edit finds its span inside the text the ones before it left. */
  predicate Spliceable(text: string, edits: seq<TextEdit>)
    decreases |edits|
  {
    edits == [] || (edits[0].at <= edits[0].end <= |text| && Spliceable(Splice(text, edits[0]), edits[1..]))
  }

  /** The edits applied in the given order, each to what the ones before it left. */
  function ApplyAll(text: string, edits: seq<TextEdit>): string
    requires Spliceable(text, edits)
    decreases |edits|
  {
    if edits == [] then text else ApplyAll(Splice(text, edits[0]), edits[1..])
  }

  /** Ascending, pairwise disjoint spans between two offsets. */
  predicate Within(edits: seq<TextEdit>, low: int, high: int) {
    if edits == [] then low <= high
    else low <= edits[0].at <= edits[0].end && Within(edits[1..], edits[0].end, high)
  }

  /** All spans of a text that starts at an offset substituted at once. */
  function Edited(text: string, edits: seq<TextEdit>, offset: nat): string
    requires Within(edits, offset, offset + |text|)
  {
    if edits == [] then text
    else
      WithinBounds(edits, offset, offset + |text|);
      text[..edits[0].at - offset] + edits[0].text + Edited(text[edits[0].end - offset..], edits[1..], edits[0].end)
  }

  /** The edits lie in the text, and turn it into the result. */
  predicate EditsTo(text: string, edits: seq<TextEdit>, offset: nat, result: string) {
    Within(edits, offset, offset + |text|) && Edited(text, edits, offset) == result
  }

  lemma {:induction false} WithinBounds(edits: seq<TextEdit>, low: int, high: int)
    requires Within(edits, low, high)
    ensures low <= high
    ensures edits != [] ==> edits[0].end <= high
  {
    if edits != [] {
      WithinBounds(edits[1..], edits[0].end, high);
    }
  }

  lemma {:induction false} WithinConcat(a: seq<TextEdit>, b: seq<TextEdit>, low: int, middle: int, high: int)
    requires Within(a, low, middle) && Within(b, middle, high)
    ensures Within(a + b, low, high)
    ensures Within(b, low, high)
  {
    WithinBounds(a, low, middle);
    WithinBounds(b, middle, high);
    if a == [] {
      assert a + b == b;
    } else {
      WithinConcat(a[1..], b, a[0].end, middle, high);
      assert (a + b)[1..] == a[1..] + b;
    }
  }

  lemma {:induction false} WithinWiden(a: seq<TextEdit>, low: int, high: int, low': int, high': int)
    requires Within(a, low, high) && low' <= low && high <= high'
    ensures Within(a, low', high')
  {
    WithinBounds(a, low, high);
    if a != [] {
      WithinWiden(a[1..], a[0].end, high, a[0].end, high');
    }
  }

  /** Edits of two adjoining texts are edits of the whole. */
  lemma {:induction false} EditedConcat(s: string, t: string, a: seq<TextEdit>, b: seq<TextEdit>, offset: nat)
    requires Within(a, offset, offset + |s|) && Within(b, offset + |s|, offset + |s| + |t|)
    ensures Within(a + b, offset, offset + |s + t|)
    ensures Edited(s + t, a + b, offset) == Edited(s, a, offset) + Edited(t, b, offset + |s|)
    decreases |a|
  {
    hide Edited;
    WithinConcat(a, b, offset, offset + |s|, offset + |s| + |t|);
    if a == [] {
      assert a + b == b;
      EditedPrefix(s, t, b, offset);
      EditedNothing(s, offset);
    } else {
      WithinBounds(a, offset, offset + |s|);
      var at, cut := a[0].at - offset, a[0].end - offset;
      var rest := s[cut..];
      assert (a + b)[1..] == a[1..] + b && (a + b)[0] == a[0];
      assert (s + t)[cut..] == rest + t;
      assert (s + t)[..at] == s[..at];
      EditedConcat(rest, t, a[1..], b, a[0].end);
      EditedFirst(s, a, offset);
      EditedFirst(s + t, a + b, offset);
      SeqAssociative(s[..at] + a[0].text, Edited(rest, a[1..], a[0].end), Edited(t, b, offset + |s|));
    }
  }

  lemma EditedFirst(text: string, edits: seq<TextEdit>, offset: nat)
    requires Within(edits, offset, offset + |text|) && edits != []
    ensures var cut := edits[0].end - offset;
            && edits[0].end <= offset + |text| && Within(edits[1..], edits[0].end, offset + |text|)
            && Edited(text, edits, offset) == text[..edits[0].at - offset] + edits[0].text + Edited(text[cut..], edits[1..], edits[0].end)
  {
    WithinBounds(edits, offset, offset + |text|);
  }

  lemma EditedPrefix(s: string, t: string, b: seq<TextEdit>, offset: nat)
    requires Within(b, offset + |s|, offset + |s| + |t|)
    ensures Within(b, offset, offset + |s + t|)
    ensures Edited(s + t, b, offset) == s + Edited(t, b, offset + |s|)
  {
    hide Edited, Within;
    WithinWiden(b, offset + |s|, offset + |s| + |t|, offset, offset + |s + t|);
    if b == [] {
      EditedNothing(s + t, offset);
      EditedNothing(t, offset + |s|);
    } else {
      EditedFirst(t, b, offset + |s|);
      EditedFirst(s + t, b, offset);
      FirstStart(b, offset + |s|, offset + |s| + |t|);
      var at, end := b[0].at - offset - |s|, b[0].end - offset - |s|;
      PrefixCuts(s, t, at, end);
      var rest := Edited(t[end..], b[1..], b[0].end);
      SeqAssociative(s, t[..at], b[0].text);
      SeqAssociative(s, t[..at] + b[0].text, rest);
    }
  }

  lemma FirstStart(b: seq<TextEdit>, low: int, high: int)
    requires Within(b, low, high) && b != []
    ensures low <= b[0].at <= b[0].end
  {}

  lemma PrefixCuts(s: string, t: string, at: nat, end: nat)
    requires at <= |t| && end <= |t|
    ensures (s + t)[..|s| + at] == s + t[..at] && (s + t)[|s| + end..] == t[end..]
  {}

  lemma EditedNothing(text: string, offset: nat)
    ensures Within([], offset, offset + |text|)
    ensures Edited(text, [], offset) == text
  {}

  lemma EditsToConcat(s: string, t: string, a: seq<TextEdit>, b: seq<TextEdit>, offset: nat, s': string, t': string)
    requires EditsTo(s, a, offset, s') && EditsTo(t, b, offset + |s|, t')
    ensures EditsTo(s + t, a + b, offset, s' + t')
  {
    hide Edited, Within;
    EditedConcat(s, t, a, b, offset);
  }

  lemma EditsToNothing(text: string, offset: nat)
    ensures EditsTo(text, [], offset, text)
  {}

  /** Text left alone before and after. */
  lemma EditsToPrefix(s: string, t: string, edits: seq<TextEdit>, offset: nat, t': string)
    requires EditsTo(t, edits, offset + |s|, t')
    ensures EditsTo(s + t, edits, offset, s + t')
  {
    hide EditsTo;
    EditsToNothing(s, offset);
    EditsToConcat(s, t, [], edits, offset, s, t');
    assert [] + edits == edits;
  }

  lemma EditsToSuffix(s: string, t: string, edits: seq<TextEdit>, offset: nat, s': string)
    requires EditsTo(s, edits, offset, s')
    ensures EditsTo(s + t, edits, offset, s' + t)
  {
    hide EditsTo;
    EditsToNothing(t, offset + |s|);
    EditsToConcat(s, t, edits, [], offset, s', t);
    assert edits + [] == edits;
  }

  lemma EditsToWhole(text: string, result: string, offset: nat)
    ensures EditsTo(text, [TextEdit(offset, offset + |text|, result)], offset, result)
  {
    var edits := [TextEdit(offset, offset + |text|, result)];
    assert edits[1..] == [];
    assert Within([], offset + |text|, offset + |text|);
    assert text[..0] + result + text[|text|..] == result;
  }

  function Reversed(edits: seq<TextEdit>): (r: seq<TextEdit>)
    ensures |r| == |edits|
  {
    if edits == [] then [] else Reversed(edits[1..]) + [edits[0]]
  }

  lemma {:induction false} ReversedSnoc(edits: seq<TextEdit>, last: TextEdit)
    ensures Reversed(edits + [last]) == [last] + Reversed(edits)
  {
    if edits == [] {
    } else {
      assert (edits + [last])[1..] == edits[1..] + [last];
      ReversedSnoc(edits[1..], last);
    }
  }

  /** Disjoint edits applied from last to first do what substituting them all at once does. */
  lemma {:induction false} LastToFirst(text: string, edits: seq<TextEdit>)
    requires Within(edits, 0, |text|)
    ensures Spliceable(text, Reversed(edits))
    ensures ApplyAll(text, Reversed(edits)) == Edited(text, edits, 0)
    decreases |edits|
  {
    if edits == [] {
    } else {
      var init, last := edits[..|edits| - 1], edits[|edits| - 1];
      assert edits == init + [last];
      ReversedSnoc(init, last);
      WithinSplit(init, last, 0, |text|);
      var spliced := Splice(text, last);
      var tail := last.text + text[last.end..];
      assert spliced == text[..last.at] + tail;
      WithinWiden(init, 0, last.at, 0, |spliced|);
      LastToFirst(spliced, init);
      EditedNothing(tail, last.at);
      EditedConcat(text[..last.at], tail, init, [], 0);
      assert init + [] == init;
      LastSpan(text, init, last);
      assert Reversed(edits)[1..] == Reversed(init);
    }
  }

  lemma {:induction false} WithinSplit(init: seq<TextEdit>, last: TextEdit, low: int, high: int)
    requires Within(init + [last], low, high)
    ensures Within(init, low, last.at) && last.at <= last.end <= high
  {
    var all := init + [last];
    if init == [] {
      assert all == [last];
      assert Within([], last.end, high);
    } else {
      assert all[1..] == init[1..] + [last];
      WithinSplit(init[1..], last, init[0].end, high);
    }
  }

  lemma LastSpan(text: string, init: seq<TextEdit>, last: TextEdit)
    requires Within(init + [last], 0, |text|)
    requires Within(init, 0, last.at) && last.at <= last.end <= |text|
    ensures Edited(text, init + [last], 0) == Edited(text[..last.at], init, 0) + (last.text + text[last.end..])
  {
    hide Edited, Within;
    var rest := text[last.at..];
    assert text == text[..last.at] + rest;
    OneSpan(rest, last);
    assert rest[last.end - last.at..] == text[last.end..];
    EditedConcat(text[..last.at], rest, init, [last], 0);
  }

  lemma OneSpan(rest: string, last: TextEdit)
    requires last.at <= last.end <= last.at + |rest|
    ensures Within([last], last.at, last.at + |rest|)
    ensures Edited(rest, [last], last.at) == last.text + rest[last.end - last.at..]
  {
    assert [last][1..] == [];
    assert Within([], last.end, last.at + |rest|);
    assert rest[..0] + last.text == last.text;
  }

  // ----- Sorting

  predicate Descending(edits: seq<TextEdit>) {
    forall i, j :: 0 <= i < j < |edits| ==> edits[i].at >= edits[j].at
  }

  predicate StrictlyAscending(edits: seq<TextEdit>) {
    forall i, j :: 0 <= i < j < |edits| ==> edits[i].at < edits[j].at
  }

  /** Strictly ascending offsets from `low` on, below `high`. */
  predicate Ascends(edits: seq<TextEdit>, low: int, high: int) {
    StrictlyAscending(edits) && forall i :: 0 <= i < |edits| ==> low <= edits[i].at < high
  }

  lemma AscendsConcat(a: seq<TextEdit>, b: seq<TextEdit>, low: int, middle: int, high: int)
    requires Ascends(a, low, middle) && Ascends(b, middle, high) && low <= middle <= high
    ensures Ascends(a + b, low, high)
  {
    forall i, j | 0 <= i < j < |a + b|
      ensures (a + b)[i].at < (a + b)[j].at
    {
      if i < |a| <= j {
        assert a[i].at < middle <= b[j - |a|].at;
      } else if |a| <= i {
        assert b[i - |a|].at < b[j - |a|].at;
      }
    }
  }

  lemma AscendsWiden(a: seq<TextEdit>, low: int, high: int, low': int, high': int)
    requires Ascends(a, low, high) && low' <= low && high <= high'
    ensures Ascends(a, low', high')
  {}

  lemma AscendsOne(e: TextEdit)
    ensures Ascends([e], e.at, e.at + 1)
    ensures Ascends([], e.at, e.at)
  {}

  /** The planned edits, in some order, are disjoint edits at distinct offsets that turn the text into the result. */
  ghost predicate Achieves(text: string, planned: seq<TextEdit>, edits: seq<TextEdit>, offset: nat, result: string) {
    && multiset(planned) == multiset(edits)
    && Ascends(edits, offset, offset + |text|)
    && EditsTo(text, edits, offset, result)
  }

  lemma AchievesNothing(text: string, offset: nat)
    ensures Achieves(text, [], [], offset, text)
  {
    EditsToNothing(text, offset);
  }

  lemma AchievesConcat(s: string, t: string, p: seq<TextEdit>, q: seq<TextEdit>, a: seq<TextEdit>, b: seq<TextEdit>,
                       offset: nat, s': string, t': string)
    requires Achieves(s, p, a, offset, s') && Achieves(t, q, b, offset + |s|, t')
    ensures Achieves(s + t, p + q, a + b, offset, s' + t')
  {
    hide EditsTo, Ascends;
    EditsToConcat(s, t, a, b, offset, s', t');
    AscendsConcat(a, b, offset, offset + |s|, offset + |s| + |t|);
  }

  /** Edits inside a text, with text left alone before and after. */
  lemma AchievesInside(left: string, middle: string, right: string, planned: seq<TextEdit>, edits: seq<TextEdit>,
                       offset: nat, middle': string)
    requires Achieves(middle, planned, edits, offset + |left|, middle')
    ensures Achieves(left + middle + right, planned, edits, offset, left + middle' + right)
  {
    hide Achieves;
    AchievesNothing(left, offset);
    AchievesNothing(right, offset + |left + middle|);
    AchievesConcat(left, middle, [], planned, [], edits, offset, left, middle');
    AchievesConcat(left + middle, right, [] + planned, [], [] + edits, [], offset, left + middle', right);
    assert [] + planned + [] == planned && [] + edits + [] == edits;
  }

  /** However the planned edits are sorted, applying them one after the other gives the result. */
  lemma AchievedByAnySort(text: string, planned: seq<TextEdit>, edits: seq<TextEdit>, result: string,
                          sorted: seq<TextEdit>)
    requires Achieves(text, planned, edits, 0, result)
    requires multiset(sorted) == multiset(planned) && Descending(sorted)
    ensures Spliceable(text, sorted) && ApplyAll(text, sorted) == result
  {
    SortedIsReversed(sorted, edits);
    LastToFirst(text, edits);
  }

  /** Whatever a sort does with ties, distinct offsets leave it no choice. */
  lemma {:induction false} SortedIsReversed(sorted: seq<TextEdit>, edits: seq<TextEdit>)
    requires Descending(sorted) && StrictlyAscending(edits) && multiset(sorted) == multiset(edits)
    ensures sorted == Reversed(edits)
    decreases |edits|
  {
    if edits == [] {
      assert |multiset(sorted)| == 0;
    } else {
      LeastIsLast(sorted, edits);
      var n := |sorted| - 1;
      assert sorted == sorted[..n] + [edits[0]];
      assert edits == [edits[0]] + edits[1..];
      CancelEdit(multiset(sorted[..n]), multiset(edits[1..]), edits[0]);
      SortedIsReversed(sorted[..n], edits[1..]);
    }
  }

  lemma LeastIsLast(sorted: seq<TextEdit>, edits: seq<TextEdit>)
    requires Descending(sorted) && StrictlyAscending(edits) && multiset(sorted) == multiset(edits) && edits != []
    ensures |sorted| == |edits| && sorted[|sorted| - 1] == edits[0]
  {
    assert |multiset(sorted)| == |multiset(edits)|;
    var n := |sorted| - 1;
    assert edits[0] in multiset(sorted);
    assert sorted[n] in multiset(edits);
    var k :| 0 <= k < |sorted| && sorted[k] == edits[0];
    var j :| 0 <= j < |edits| && edits[j] == sorted[n];
  }

  lemma CancelEdit(a: multiset<TextEdit>, b: multiset<TextEdit>, e: TextEdit)
    requires a + multiset{e} == multiset{e} + b
    ensures a == b
  {
    forall x
      ensures a[x] == b[x]
    {
      assert (a + multiset{e})[x] == (multiset{e} + b)[x];
    }
  }

  /** A sort by descending offset; nothing is promised about ties. */
  method SortDescending(edits: seq<TextEdit>) returns (sorted: seq<TextEdit>)
    ensures multiset(sorted) == multiset(edits)
    ensures Descending(sorted)
  {
    sorted := [];
    for n := 0 to |edits|
      invariant multiset(sorted) == multiset(edits[..n])
      invariant Descending(sorted)
    {
      assert edits[..n + 1] == edits[..n] + [edits[n]];
      sorted := InsertDescending(sorted, edits[n]);
    }
    assert edits[..|edits|] == edits;
  }

  method InsertDescending(sorted: seq<TextEdit>, e: TextEdit) returns (longer: seq<TextEdit>)
    requires Descending(sorted)
    ensures multiset(longer) == multiset(sorted) + multiset{e}
    ensures Descending(longer)
  {
    var k := |sorted|;
    while k > 0 && sorted[k - 1].at < e.at
      invariant 0 <= k <= |sorted|
      invariant forall i :: k <= i < |sorted| ==> sorted[i].at < e.at
    {
      k := k - 1;
    }
    longer := sorted[..k] + [e] + sorted[k..];
    InsertKeepsDescending(sorted, k, e);
    InsertAddsOne(sorted, k, e);
  }

  lemma InsertAddsOne(sorted: seq<TextEdit>, k: nat, e: TextEdit)
    requires k <= |sorted|
    ensures multiset(sorted[..k] + [e] + sorted[k..]) == multiset(sorted) + multiset{e}
  {
    assert sorted == sorted[..k] + sorted[k..];
  }

  lemma InsertKeepsDescending(sorted: seq<TextEdit>, k: nat, e: TextEdit)
    requires Descending(sorted) && k <= |sorted|
    requires forall i :: k <= i < |sorted| ==> sorted[i].at < e.at
    requires k > 0 ==> sorted[k - 1].at >= e.at
    ensures Descending(sorted[..k] + [e] + sorted[k..])
  {
    var longer := sorted[..k] + [e] + sorted[k..];
    forall i, j | 0 <= i < j < |longer|
      ensures longer[i].at >= longer[j].at
    {
      assert i < k ==> longer[i] == sorted[i];
      assert i > k ==> longer[i] == sorted[i - 1];
      assert j < k ==> longer[j] == sorted[j];
      assert j > k ==> longer[j] == sorted[j - 1];
    }
  }

  /** One edit after the other; `fits` is false where the source's slicing goes out of range. */
  method ApplyEdits(document: string, edits: seq<TextEdit>) returns (fits: bool, rendered: string)
    ensures fits <==> Spliceable(document, edits)
    ensures fits ==> rendered == ApplyAll(document, edits)
  {
    rendered := document;
    assert edits[0..] == edits;
    for n := 0 to |edits|
      invariant Spliceable(rendered, edits[n..]) <==> Spliceable(document, edits)
      invariant Spliceable(document, edits) ==> ApplyAll(rendered, edits[n..]) == ApplyAll(document, edits)
    {
      assert edits[n..][0] == edits[n] && edits[n..][1..] == edits[n + 1..];
      var edit := edits[n];
      if !(edit.at <= edit.end <= |rendered|) {
        return false, rendered;
      }
      rendered := rendered[..edit.at] + edit.text + rendered[edit.end..];
    }
    fits := true;
  }
}
