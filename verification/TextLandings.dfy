/** What a part of a text becomes when the planned edits are spliced into the whole, overlapping or not. */
module TextLandings {
  import opened TextEdits

  // ----- Splicing in several goes

  lemma {:induction false} ReversedConcat(a: seq<TextEdit>, b: seq<TextEdit>)
    ensures Reversed(a + b) == Reversed(b) + Reversed(a)
  {
    if a == [] {
      assert a + b == b;
    } else {
      assert (a + b)[1..] == a[1..] + b;
      ReversedConcat(a[1..], b);
    }
  }

  lemma {:induction false} ApplyConcat(text: string, a: seq<TextEdit>, b: seq<TextEdit>)
    ensures Spliceable(text, a + b) <==> Spliceable(text, a) && Spliceable(ApplyAll(text, a), b)
    ensures Spliceable(text, a + b) ==> ApplyAll(text, a + b) == ApplyAll(ApplyAll(text, a), b)
    decreases |a|
  {
    hide Splice;
    if a == [] {
      assert a + b == b;
    } else {
      assert (a + b)[1..] == a[1..] + b && (a + b)[0] == a[0];
      if a[0].at <= a[0].end <= |text| {
        ApplyConcat(Splice(text, a[0]), a[1..], b);
      }
    }
  }

  lemma ReversedPair(first: TextEdit, second: TextEdit)
    ensures Reversed([first, second]) == [second, first]
  {
    assert [first, second][1..] == [second] && [second][1..] == [];
  }

  lemma ApplyTo(text: string, edits: seq<TextEdit>, result: string)
    requires EditsTo(text, edits, 0, result)
    ensures Spliceable(text, Reversed(edits)) && ApplyAll(text, Reversed(edits)) == result
  {
    LastToFirst(text, edits);
  }

  // ----- Edits that turn a part of any text into something else

  /** However the planned edits are sorted, and whatever stands around the part, it becomes the result. */
  ghost predicate LandsIn(text: string, planned: seq<TextEdit>, result: string, left: string, right: string, sorted: seq<TextEdit>) {
    multiset(sorted) == multiset(planned) && Descending(sorted) ==>
      && Spliceable(left + text + right, sorted)
      && ApplyAll(left + text + right, sorted) == left + result + right
  }

  predicate Inside(planned: seq<TextEdit>, low: int, high: int) {
    forall i :: 0 <= i < |planned| ==> low <= planned[i].at < high
  }

  ghost predicate Lands(text: string, planned: seq<TextEdit>, offset: nat, result: string) {
    && Inside(planned, offset, offset + |text|)
    && forall left, right, sorted :: |left| == offset ==> LandsIn(text, planned, result, left, right, sorted)
  }

  lemma LandsAt(text: string, planned: seq<TextEdit>, offset: nat, result: string, left: string, right: string, sorted: seq<TextEdit>)
    requires Lands(text, planned, offset, result) && |left| == offset
    requires multiset(sorted) == multiset(planned) && Descending(sorted)
    ensures Spliceable(left + text + right, sorted) && ApplyAll(left + text + right, sorted) == left + result + right
  {
    hide Inside, Spliceable, ApplyAll;
    assert LandsIn(text, planned, result, left, right, sorted);
  }

  lemma LandsNothing(text: string, offset: nat)
    ensures Lands(text, [], offset, text)
  {
    forall left: string, right: string, sorted: seq<TextEdit> | |left| == offset
      ensures LandsIn(text, [], text, left, right, sorted)
    {
      if multiset(sorted) == multiset([]) {
        assert |multiset(sorted)| == 0;
      }
    }
  }

  /** Disjoint edits do. */
  lemma AchievesLands(text: string, planned: seq<TextEdit>, edits: seq<TextEdit>, offset: nat, result: string)
    requires Achieves(text, planned, edits, offset, result)
    ensures Lands(text, planned, offset, result)
  {
    hide EditsTo, Spliceable, ApplyAll;
    SameInside(planned, edits, offset, offset + |text|);
    forall left: string, right: string, sorted: seq<TextEdit> | |left| == offset
      ensures LandsIn(text, planned, result, left, right, sorted)
    {
      if multiset(sorted) == multiset(planned) && Descending(sorted) {
        SortedIsReversed(sorted, edits);
        EditsToPrefix(left, text, edits, 0, result);
        EditsToSuffix(left + text, right, edits, 0, left + result);
        ApplyTo(left + text + right, edits, left + result + right);
      }
    }
  }

  lemma SameInside(planned: seq<TextEdit>, edits: seq<TextEdit>, low: int, high: int)
    requires multiset(planned) == multiset(edits) && Inside(edits, low, high)
    ensures Inside(planned, low, high)
  {
    forall i | 0 <= i < |planned|
      ensures low <= planned[i].at < high
    {
      assert planned[i] in multiset(planned);
      assert planned[i] in multiset(edits);
    }
  }

  /** A descending list falls into the edits from an offset on and those before it. */
  lemma {:induction false} SplitAt(sorted: seq<TextEdit>, middle: int) returns (n: nat)
    requires Descending(sorted)
    ensures n <= |sorted|
    ensures forall i :: 0 <= i < n ==> sorted[i].at >= middle
    ensures forall i :: n <= i < |sorted| ==> sorted[i].at < middle
    decreases |sorted|
  {
    if sorted == [] || sorted[0].at < middle {
      n := 0;
    } else {
      var rest := SplitAt(sorted[1..], middle);
      n := rest + 1;
      assert forall i :: 1 <= i < |sorted| ==> sorted[i] == sorted[1..][i - 1];
    }
  }

  lemma SplitSorted(sorted: seq<TextEdit>, before: seq<TextEdit>, behind: seq<TextEdit>, low: int, middle: int, high: int) returns (n: nat)
    requires Descending(sorted) && multiset(sorted) == multiset(before + behind)
    requires Inside(before, low, middle) && Inside(behind, middle, high)
    ensures n <= |sorted| && sorted == sorted[..n] + sorted[n..]
    ensures multiset(sorted[..n]) == multiset(behind) && multiset(sorted[n..]) == multiset(before)
    ensures Descending(sorted[..n]) && Descending(sorted[n..])
  {
    n := SplitAt(sorted, middle);
    var first, second := sorted[..n], sorted[n..];
    assert sorted == first + second;
    forall e: TextEdit
      ensures multiset(first)[e] == multiset(behind)[e] && multiset(second)[e] == multiset(before)[e]
    {
      CountSides(first, second, before, behind, e, middle);
    }
  }

  lemma CountSides(first: seq<TextEdit>, second: seq<TextEdit>, before: seq<TextEdit>, behind: seq<TextEdit>, e: TextEdit, middle: int)
    requires multiset(first + second) == multiset(before + behind)
    requires (forall i :: 0 <= i < |first| ==> first[i].at >= middle) && (forall i :: 0 <= i < |second| ==> second[i].at < middle)
    requires (forall i :: 0 <= i < |behind| ==> behind[i].at >= middle) && (forall i :: 0 <= i < |before| ==> before[i].at < middle)
    ensures multiset(first)[e] == multiset(behind)[e] && multiset(second)[e] == multiset(before)[e]
  {
    assert multiset(first + second)[e] == multiset(first)[e] + multiset(second)[e];
    assert multiset(before + behind)[e] == multiset(before)[e] + multiset(behind)[e];
    if e.at >= middle {
      assert e !in second && e !in before;
    } else {
      assert e !in first && e !in behind;
    }
  }

  /** Adjoining parts, each with its own edits. */
  lemma LandsConcat(s: string, t: string, p: seq<TextEdit>, q: seq<TextEdit>, offset: nat, s': string, t': string)
    requires Lands(s, p, offset, s') && Lands(t, q, offset + |s|, t')
    ensures Lands(s + t, p + q, offset, s' + t')
  {
    hide Lands, Spliceable, ApplyAll, Descending;
    LandsInside(s, p, offset, s');
    LandsInside(t, q, offset + |s|, t');
    InsideConcat(p, q, offset, offset + |s|, offset + |s| + |t|);
    forall left: string, right: string, sorted: seq<TextEdit> | |left| == offset
      ensures LandsIn(s + t, p + q, s' + t', left, right, sorted)
    {
      if multiset(sorted) == multiset(p + q) && Descending(sorted) {
        var n := SplitSorted(sorted, p, q, offset, offset + |s|, offset + |s| + |t|);
        LandsAt(t, q, offset + |s|, t', left + s, right, sorted[..n]);
        LandsAt(s, p, offset, s', left, t' + right, sorted[n..]);
        FourParts(left, s, t, right);
        FourParts(left, s, t', right);
        FourParts(left, s', t', right);
        ApplyConcat(left + (s + t) + right, sorted[..n], sorted[n..]);
      }
    }
    assert Lands(s + t, p + q, offset, s' + t') by { LandsFrom(s + t, p + q, offset, s' + t'); }
  }

  lemma LandsFrom(text: string, planned: seq<TextEdit>, offset: nat, result: string)
    requires Inside(planned, offset, offset + |text|)
    requires forall left, right, sorted :: |left| == offset ==> LandsIn(text, planned, result, left, right, sorted)
    ensures Lands(text, planned, offset, result)
  {}

  lemma LandsInside(text: string, planned: seq<TextEdit>, offset: nat, result: string)
    requires Lands(text, planned, offset, result)
    ensures Inside(planned, offset, offset + |text|)
  {}

  lemma InsideConcat(p: seq<TextEdit>, q: seq<TextEdit>, low: int, middle: int, high: int)
    requires Inside(p, low, middle) && Inside(q, middle, high) && low <= middle <= high
    ensures Inside(p + q, low, high)
  {}

  lemma FourParts(left: string, s: string, t: string, right: string)
    ensures left + (s + t) + right == left + s + (t + right) == (left + s) + t + right
  {}

  /** A part, with text left alone before and after. */
  lemma LandsAmong(left: string, middle: string, right: string, planned: seq<TextEdit>, offset: nat, middle': string)
    requires Lands(middle, planned, offset + |left|, middle')
    ensures Lands(left + middle + right, planned, offset, left + middle' + right)
  {
    hide Lands;
    LandsNothing(left, offset);
    LandsNothing(right, offset + |left + middle|);
    LandsConcat(left, middle, [], planned, offset, left, middle');
    LandsConcat(left + middle, right, [] + planned, [], offset, left + middle', right);
    assert [] + planned + [] == planned;
  }

  lemma LandsWhole(text: string, planned: seq<TextEdit>, result: string, sorted: seq<TextEdit>)
    requires Lands(text, planned, 0, result) && multiset(sorted) == multiset(planned) && Descending(sorted)
    ensures Spliceable(text, sorted) && ApplyAll(text, sorted) == result
  {
    hide Lands, Spliceable, ApplyAll, Descending;
    LandsAt(text, planned, 0, result, "", "", sorted);
    assert "" + text + "" == text && "" + result + "" == result;
  }

  lemma SplitAround(sorted: seq<TextEdit>, before: seq<TextEdit>, own: seq<TextEdit>, behind: seq<TextEdit>,
                    start: nat, end: nat, high: nat) returns (last: seq<TextEdit>, mine: seq<TextEdit>, first: seq<TextEdit>)
    requires Descending(sorted) && multiset(sorted) == multiset(before + own + behind) && start <= end
    requires Inside(before, 0, start) && Inside(own, start, end) && Inside(behind, end, high)
    ensures sorted == last + (mine + first) && Descending(last) && Descending(mine) && Descending(first)
    ensures multiset(last) == multiset(behind) && multiset(mine) == multiset(own) && multiset(first) == multiset(before)
  {
    hide Descending, Inside;
    InsideConcat(before, own, 0, start, end);
    var n := SplitSorted(sorted, before + own, behind, 0, end, high);
    last := sorted[..n];
    var rest := sorted[n..];
    var m := SplitSorted(rest, before, own, 0, start, end);
    mine, first := rest[..m], rest[m..];
  }

  /** A part with edits of its own, between parts that land: first what stands behind, then its own edits, then what stands before. */
  lemma LandsAround(left: string, middle: string, right: string, before: seq<TextEdit>, own: seq<TextEdit>, behind: seq<TextEdit>,
                    left': string, right': string, sorted: seq<TextEdit>) returns (mine: seq<TextEdit>)
    requires Lands(left, before, 0, left') && Lands(right, behind, |left| + |middle|, right')
    requires Inside(own, |left|, |left| + |middle|)
    requires multiset(sorted) == multiset(before + own + behind) && Descending(sorted)
    ensures multiset(mine) == multiset(own) && Descending(mine)
    ensures var text, once := left + middle + right, left + middle + right';
            if Spliceable(once, mine)
            then forall rest: string :: ApplyAll(once, mine) == left + rest ==> Spliceable(text, sorted) && ApplyAll(text, sorted) == left' + rest
            else !Spliceable(text, sorted)
  {
    hide Lands, Inside, Spliceable, ApplyAll, Descending;
    var text, once, end := left + middle + right, left + middle + right', |left| + |middle|;
    LandsInside(left, before, 0, left');
    LandsInside(right, behind, end, right');
    var last, first;
    last, mine, first := SplitAround(sorted, before, own, behind, |left|, end, end + |right|);
    LandsAt(right, behind, end, right', left + middle, "", last);
    assert left + middle + right + "" == text && left + middle + right' + "" == once;
    ApplyConcat(text, last, mine + first);
    ApplyConcat(once, mine, first);
    if Spliceable(once, mine) {
      forall rest: string | ApplyAll(once, mine) == left + rest
        ensures Spliceable(text, sorted) && ApplyAll(text, sorted) == left' + rest
      {
        LandsAt(left, before, 0, left', "", rest, first);
        assert "" + left + rest == left + rest && "" + left' + rest == left' + rest;
      }
    }
  }

  // ----- Two overlapping spans

  /** Two spans, the first reaching into the second: applied from last to first they take text behind both. */
  lemma OverlapTakesTooMuch(text: string, first: TextEdit, second: TextEdit)
    requires first.at < second.at < first.end <= second.end <= |text| && first.text == "" && second.text == ""
    ensures var eaten := first.end - second.at;
            if second.end + eaten <= |text| then
              && Spliceable(text, [second, first])
              && ApplyAll(text, [second, first]) == text[..first.at] + text[second.end + eaten..]
            else !Spliceable(text, [second, first])
  {
    var once := Splice(text, second);
    var eaten := first.end - second.at;
    assert once == text[..second.at] + text[second.end..];
    assert [second, first][1..] == [first] && [first][1..] == [];
    if second.end + eaten <= |text| {
      assert once[..first.at] == text[..first.at];
      assert once[first.end..] == text[second.end + eaten..];
      assert ApplyAll(text, [second, first]) == ApplyAll(once, [first]) == ApplyAll(Splice(once, first), []);
    }
  }

  /** Among edits before and behind: the overlap is cut off the front of what the edits behind left. */
  lemma OverlapAmongOthers(left: string, middle: string, right: string, before: seq<TextEdit>, first: TextEdit,
                           second: TextEdit,
                           behind: seq<TextEdit>, left': string, right': string, sorted: seq<TextEdit>)
    requires first.at == |left| && second.end == |left| + |middle| && first.at < second.at < first.end <= second.end
    requires first.text == "" && second.text == ""
    requires Ascends(before, 0, |left|) && EditsTo(left, before, 0, left')
    requires Ascends(behind, |left| + |middle|, |left| + |middle| + |right|) && EditsTo(right, behind, |left| + |middle|, right')
    requires multiset(sorted) == multiset(before + [first, second] + behind) && Descending(sorted)
    ensures var text, eaten := left + middle + right, first.end - second.at;
            if eaten <= |right'| then Spliceable(text, sorted) && ApplyAll(text, sorted) == left' + right'[eaten..]
            else !Spliceable(text, sorted)
  {
    hide EditsTo, Spliceable, ApplyAll, Reversed;
    var text, eaten := left + middle + right, first.end - second.at;
    PairAscends(left, middle, right, before, first, second, behind);
    SortedIsReversed(sorted, before + [first, second] + behind);
    ReversedConcat(before + [first, second], behind);
    ReversedConcat(before, [first, second]);
    ReversedPair(first, second);
    var rest := [second, first] + Reversed(before);
    assert sorted == Reversed(behind) + rest;
    EditsToPrefix(left + middle, right, behind, 0, right');
    ApplyTo(text, behind, left + middle + right');
    ApplyConcat(text, Reversed(behind), rest);
    ApplyConcat(left + middle + right', [second, first], Reversed(before));
    OverlapTakesTooMuch(left + middle + right', first, second);
    if eaten <= |right'| {
      CutBehind(left, middle, right', eaten);
      EditsToSuffix(left, right'[eaten..], before, 0, left');
      ApplyTo(left + right'[eaten..], before, left' + right'[eaten..]);
    }
  }

  lemma CutBehind(left: string, middle: string, right: string, eaten: nat)
    requires eaten <= |right|
    ensures var text := left + middle + right; text[..|left|] + text[|left| + |middle| + eaten..] == left + right[eaten..]
  {
    var text := left + middle + right;
    assert text[..|left|] == left;
    assert text[|left| + |middle| + eaten..] == right[eaten..];
  }

  lemma PairAscends(left: string, middle: string, right: string, before: seq<TextEdit>, first: TextEdit,
                    second: TextEdit,
                    behind: seq<TextEdit>)
    requires first.at == |left| && second.end == |left| + |middle| && first.at < second.at < first.end <= second.end
    requires Ascends(before, 0, |left|) && Ascends(behind, |left| + |middle|, |left| + |middle| + |right|)
    ensures StrictlyAscending(before + [first, second] + behind)
  {
    hide Ascends;
    var end := |left| + |middle|;
    TwoAscend(first, second, end);
    AscendsConcat(before, [first, second], 0, |left|, end);
    AscendsConcat(before + [first, second], behind, 0, end, end + |right|);
    AscendsStrictly(before + [first, second] + behind, 0, end + |right|);
  }

  lemma TwoAscend(first: TextEdit, second: TextEdit, end: nat)
    requires first.at < second.at < end
    ensures Ascends([first, second], first.at, end)
  {}

  lemma AscendsStrictly(edits: seq<TextEdit>, low: int, high: int)
    requires Ascends(edits, low, high)
    ensures StrictlyAscending(edits)
  {}
}
