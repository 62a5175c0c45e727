/** The lounge drama generator. The random choices (which contestants, which template, the resample of
    the second contestant) come in as a sequence of draws; placeholder substitution follows the
    string `replace` the generator uses, which rewrites only the first occurrence, for a replacement
    that holds no `$` pattern. */
module Drama {
  import opened SeasonTypes
  import opened Catalog

  /** `pat` occurs in `s` starting at position `i`. */
  predicate OccursAt(s: string, pat: string, i: nat) {
    i + |pat| <= |s| && s[i..i + |pat|] == pat
  }

  /** `pat` occurs somewhere in `s` (the string `includes` test). */
  predicate Contains(s: string, pat: string) {
    exists i :: 0 <= i <= |s| && OccursAt(s, pat, i)
  }

  /** An occurrence past the first character is an occurrence in the string without its first character. */
  lemma OccursShift(s: string, pat: string, i: nat)
    requires 1 <= i && |s| >= 1
    ensures OccursAt(s, pat, i) <==> OccursAt(s[1..], pat, i - 1)
  {
    if i + |pat| <= |s| {
      assert s[1..][i - 1..i - 1 + |pat|] == s[i..i + |pat|];
    }
  }

  /** The position of the first occurrence of `pat` in `s`. */
  function FirstIndex(s: string, pat: string): (i: nat)
    requires Contains(s, pat)
    ensures OccursAt(s, pat, i)
    ensures forall j :: 0 <= j < i ==> !OccursAt(s, pat, j)
    decreases |s|
  {
    if OccursAt(s, pat, 0) then 0
    else
      var k :| 0 <= k <= |s| && OccursAt(s, pat, k);
      OccursShift(s, pat, k);
      var i := FirstIndex(s[1..], pat);
      OccursShift(s, pat, i + 1);
      assert forall j :: 1 <= j <= i ==> !OccursAt(s, pat, j) by {
        forall j | 1 <= j <= i ensures !OccursAt(s, pat, j) {
          OccursShift(s, pat, j);
        }
      }
      1 + i
  }

  /** String `replace` with a string pattern and a literal replacement (one without `$` patterns): scans
      for the first occurrence of `pat` and replaces it by `rep`. */
  function ReplaceFirst(s: string, pat: string, rep: string): string
    decreases |s|
  {
    if |s| < |pat| then s
    else if s[..|pat|] == pat then rep + s[|pat|..]
    else [s[0]] + ReplaceFirst(s[1..], pat, rep)
  }

  /** Without an occurrence at the front, the scan keeps the first character and moves on. */
  lemma ReplaceSkips(s: string, pat: string, rep: string)
    requires !OccursAt(s, pat, 0) && |s| >= 1
    ensures ReplaceFirst(s, pat, rep) == [s[0]] + ReplaceFirst(s[1..], pat, rep)
  {
    if |s| >= |pat| {
      assert s[..|pat|] == s[0..|pat|];
    }
  }

  /** Cutting around position `i` of `s` is cutting around `i - 1` of its tail, behind the first character. */
  lemma CutAroundTail(s: string, rep: string, i: nat, k: nat)
    requires 1 <= i && i + k <= |s|
    ensures s[..i] + rep + s[i + k..] == [s[0]] + (s[1..][..i - 1] + rep + s[1..][i - 1 + k..])
  {
    assert s[..i] == [s[0]] + s[1..][..i - 1];
    assert s[i + k..] == s[1..][i - 1 + k..];
  }

  /** An occurrence at the front is replaced at once. */
  lemma ReplaceAtFront(s: string, pat: string, rep: string)
    requires OccursAt(s, pat, 0)
    ensures ReplaceFirst(s, pat, rep) == rep + s[|pat|..]
  {
    assert s[..|pat|] == s[0..|pat|];
  }

  /** No occurrence before `i` in `s` means none before `i - 1` in its tail. */
  lemma NoneBeforeShift(s: string, pat: string, i: nat)
    requires 1 <= i <= |s|
    requires forall j :: 0 <= j < i ==> !OccursAt(s, pat, j)
    ensures forall j :: 0 <= j < i - 1 ==> !OccursAt(s[1..], pat, j)
  {
    forall j | 0 <= j < i - 1 ensures !OccursAt(s[1..], pat, j) {
      OccursShift(s, pat, j + 1);
    }
  }

  /** Replacing at the first occurrence, position `i`: what comes before it and after it is kept. */
  lemma {:induction false} ReplaceAtFirst(s: string, pat: string, rep: string, i: nat)
    requires OccursAt(s, pat, i)
    requires forall j :: 0 <= j < i ==> !OccursAt(s, pat, j)
    ensures ReplaceFirst(s, pat, rep) == s[..i] + rep + s[i + |pat|..]
  {
    if i == 0 {
      ReplaceAtFront(s, pat, rep);
      assert s[..0] == [];
    } else {
      ReplaceSkips(s, pat, rep);
      OccursShift(s, pat, i);
      NoneBeforeShift(s, pat, i);
      ReplaceAtFirst(s[1..], pat, rep, i - 1);
      CutAroundTail(s, rep, i, |pat|);
    }
  }

  /** A string without an occurrence of `pat` comes back unchanged. */
  lemma {:induction false} ReplaceAbsent(s: string, pat: string, rep: string)
    requires !Contains(s, pat)
    ensures ReplaceFirst(s, pat, rep) == s
    decreases |s|
  {
    if |s| >= |pat| {
      assert !OccursAt(s, pat, 0);
      forall k | 0 <= k <= |s[1..]| ensures !OccursAt(s[1..], pat, k) {
        OccursShift(s, pat, k + 1);
      }
      ReplaceAbsent(s[1..], pat, rep);
      assert [s[0]] + s[1..] == s;
    }
  }

  /** Only the first occurrence of `pat` is replaced by `rep`; a string without an occurrence comes back
      unchanged. */
  lemma ReplaceFirstSpec(s: string, pat: string, rep: string)
    ensures !Contains(s, pat) ==> ReplaceFirst(s, pat, rep) == s
    ensures Contains(s, pat) ==>
      ReplaceFirst(s, pat, rep) == s[..FirstIndex(s, pat)] + rep + s[FirstIndex(s, pat) + |pat|..]
  {
    if Contains(s, pat) {
      ReplaceAtFirst(s, pat, rep, FirstIndex(s, pat));
    } else {
      ReplaceAbsent(s, pat, rep);
    }
  }

  /** An occurrence from position `j` on is an occurrence in the suffix from `j`. */
  lemma OccursInSuffix(s: string, pat: string, j: nat, b: nat)
    requires OccursAt(s, pat, b) && j <= b
    ensures OccursAt(s[j..], pat, b - j)
  {
    assert s[j..][b - j..b - j + |pat|] == s[b..b + |pat|];
  }

  /** An occurrence survives putting a prefix in front, shifted by the prefix's length. */
  lemma OccursBehindPrefix(pre: string, t: string, pat: string, k: nat)
    requires OccursAt(t, pat, k)
    ensures OccursAt(pre + t, pat, |pre| + k)
  {
    assert (pre + t)[|pre| + k..|pre| + k + |pat|] == t[k..k + |pat|];
  }

  /** Cutting out the span [i, i + |pat|) and putting `rep` there keeps an occurrence behind the span,
      shifted. */
  lemma OccurrenceBehindCut(s: string, pat: string, rep: string, i: nat, b: nat)
    requires OccursAt(s, pat, b) && i + |pat| <= b
    ensures Contains(s[..i] + rep + s[i + |pat|..], pat)
  {
    var pre := s[..i] + rep;
    var tail := s[i + |pat|..];
    OccursInSuffix(s, pat, i + |pat|, b);
    OccursBehindPrefix(pre, tail, pat, b - (i + |pat|));
  }

  /** When `pat` occurs twice without overlap, one occurrence is left after replacing the first. */
  lemma LaterOccurrenceSurvives(s: string, pat: string, rep: string, a: nat, b: nat)
    requires OccursAt(s, pat, a) && OccursAt(s, pat, b) && a + |pat| <= b
    ensures Contains(ReplaceFirst(s, pat, rep), pat)
  {
    assert Contains(s, pat);
    var i := FirstIndex(s, pat);
    assert i <= a;
    ReplaceFirstSpec(s, pat, rep);
    OccurrenceBehindCut(s, pat, rep, i, b);
  }

  /** The quote of a template with the two contestants' names substituted, first `{Q1}` then `{Q2}`. */
  function Quote(template: string, name1: string, name2: string): string {
    ReplaceFirst(ReplaceFirst(template, "{Q1}", name1), "{Q2}", name2)
  }

  /** The template that names the second contestant twice keeps a literal `{Q2}` in its quote, whatever
      the names are: only the first `{Q2}` is substituted. */
  lemma RepeatedPlaceholderSurvives(name1: string, name2: string)
    ensures Contains(Quote(DRAMA_TEMPLATES[13], name1, name2), "{Q2}")
  {
    var t := DRAMA_TEMPLATES[13];
    var between := " tried to hug ";
    assert t == "{Q1}" + between + "{Q2}" + ", but " + "{Q2}" + " told her to save the fake tears for the runway.";
    assert |between| == 14;
    assert t[18..22] == "{Q2}";
    assert t[28..32] == "{Q2}";
    var rest := t[4..];
    assert t == "{Q1}" + rest;
    assert OccursAt(t, "{Q1}", 0);
    ReplaceFirstSpec(t, "{Q1}", name1);
    var s1 := ReplaceFirst(t, "{Q1}", name1);
    assert s1 == name1 + rest;
    assert s1[|name1| + 14..|name1| + 18] == t[18..22];
    assert s1[|name1| + 24..|name1| + 28] == t[28..32];
    LaterOccurrenceSurvives(s1, "{Q2}", name2, |name1| + 14, |name1| + 24);
  }

  /** The floor of n / 1.5 is the integer quotient of 2n by 3. */
  lemma FloorOfTwoThirds(n: nat)
    ensures ((n as real) / 1.5).Floor == (2 * n) / 3
  {
    var k := (2 * n) / 3;
    assert 3 * k <= 2 * n < 3 * k + 3;
    assert (n as real) / 1.5 == ((2 * n) as real) / 3.0;
    assert k as real <= (n as real) / 1.5 < (k + 1) as real;
  }

  /** The number of lounge events for `n` active contestants: floor(n / 1.5), kept between 4 and 6. */
  function EventCount(n: nat): (r: nat)
    ensures r == if (2 * n) / 3 < 4 then 4 else if (2 * n) / 3 > 6 then 6 else (2 * n) / 3
  {
    var f := ((n as real) / 1.5).Floor;
    FloorOfTwoThirds(n);
    var atLeastFour := if 4 > f then 4 else f;
    if 6 < atLeastFour then 6 else atLeastFour
  }

  /** The random choices behind one event: the index of the first contestant, the indices drawn for the
      second until one differs from the first, and the template index. */
  datatype DramaDraw = DramaDraw(first: nat, seconds: seq<nat>, template: nat)

  /** The draw's indices are in range (of the contestants and of the template catalog `templates`) and the
      resampling of the second contestant ends. */
  predicate DrawFits(active: seq<Queen>, templates: seq<string>, d: DramaDraw) {
    && d.first < |active| && d.template < |templates|
    && (forall k :: 0 <= k < |d.seconds| ==> d.seconds[k] < |active|)
    && (exists k :: 0 <= k < |d.seconds| && active[d.seconds[k]].id != active[d.first].id)
  }

  /** With two or more active contestants there is one fitting draw per event. */
  predicate DrawsFit(active: seq<Queen>, templates: seq<string>, draws: seq<DramaDraw>) {
    |active| >= 2 ==> |draws| == EventCount(|active|) && forall i :: 0 <= i < |draws| ==> DrawFits(active, templates, draws[i])
  }

  /** The position in `seconds` of the first draw whose contestant differs from the first contestant. */
  function FirstDifferent(active: seq<Queen>, firstId: string, seconds: seq<nat>): (k: nat)
    requires forall j :: 0 <= j < |seconds| ==> seconds[j] < |active|
    requires exists j :: 0 <= j < |seconds| && active[seconds[j]].id != firstId
    ensures k < |seconds| && active[seconds[k]].id != firstId
    ensures forall j :: 0 <= j < k ==> active[seconds[j]].id == firstId
  {
    if active[seconds[0]].id != firstId then 0
    else
      var j :| 0 <= j < |seconds| && active[seconds[j]].id != firstId;
      assert seconds[1..][j - 1] == seconds[j];
      1 + FirstDifferent(active, firstId, seconds[1..])
  }

  /** The event one draw produces: it involves the first contestant, and also the second (a different
      contestant) exactly when the template mentions `{Q2}`. */
  function EventFor(active: seq<Queen>, templates: seq<string>, d: DramaDraw): UntuckedEvent
    requires DrawFits(active, templates, d)
  {
    var q1 := active[d.first];
    var q2 := active[d.seconds[FirstDifferent(active, q1.id, d.seconds)]];
    var template := templates[d.template];
    UntuckedEvent(Quote(template, q1.name, q2.name), if Contains(template, "{Q2}") then [q1, q2] else [q1])
  }

  /** An event involves the first contestant drawn, and also the second (a different active contestant)
      exactly when its template mentions `{Q2}`. */
  lemma EventInvolves(active: seq<Queen>, templates: seq<string>, d: DramaDraw)
    requires DrawFits(active, templates, d)
    ensures var e := EventFor(active, templates, d);
      && |e.queensInvolved| == (if Contains(templates[d.template], "{Q2}") then 2 else 1)
      && e.queensInvolved[0] == active[d.first]
      && (|e.queensInvolved| == 2 ==> e.queensInvolved[1] in active && e.queensInvolved[1].id != active[d.first].id)
  {
  }

  /** The events a sequence of fitting draws produces, one per draw, in draw order. */
  function DramaFor(active: seq<Queen>, templates: seq<string>, draws: seq<DramaDraw>): (events: seq<UntuckedEvent>)
    requires forall i :: 0 <= i < |draws| ==> DrawFits(active, templates, draws[i])
    ensures |events| == |draws|
    decreases |draws|
  {
    if draws == [] then []
    else DramaFor(active, templates, draws[..|draws| - 1]) + [EventFor(active, templates, draws[|draws| - 1])]
  }

  /** Event `j` of the drama is the event of draw `j`. */
  lemma {:induction false} DramaForAt(active: seq<Queen>, templates: seq<string>, draws: seq<DramaDraw>, j: nat)
    requires forall i :: 0 <= i < |draws| ==> DrawFits(active, templates, draws[i])
    requires j < |draws|
    ensures DramaFor(active, templates, draws)[j] == EventFor(active, templates, draws[j])
    decreases |draws|
  {
    var n := |draws|;
    if j < n - 1 {
      var init := draws[..n - 1];
      assert forall i :: 0 <= i < |init| ==> DrawFits(active, templates, init[i]) by {
        assert forall i :: 0 <= i < |init| ==> init[i] == draws[i];
      }
      var prefix := DramaFor(active, templates, init);
      assert DramaFor(active, templates, draws) == prefix + [EventFor(active, templates, draws[n - 1])];
      DramaForAt(active, templates, init, j);
      assert init[j] == draws[j];
      assert (prefix + [EventFor(active, templates, draws[n - 1])])[j] == prefix[j];
    }
  }

  /** The resample loop for the second contestant: draws again while the drawn contestant is the first one. */
  method DrawSecond(active: seq<Queen>, firstId: string, seconds: seq<nat>) returns (k: nat)
    requires forall j :: 0 <= j < |seconds| ==> seconds[j] < |active|
    requires exists j :: 0 <= j < |seconds| && active[seconds[j]].id != firstId
    ensures k == FirstDifferent(active, firstId, seconds)
  {
    ghost var stop := FirstDifferent(active, firstId, seconds);
    k := 0;
    var q2 := active[seconds[k]];
    while firstId == q2.id
      invariant 0 <= k <= stop
      invariant q2 == active[seconds[k]]
      decreases stop - k
    {
      k := k + 1;
      q2 := active[seconds[k]];
    }
  }

  /** One lounge event: the first contestant, the resampled second one, a template with both names
      substituted, and the contestants it involves. */
  method MakeEvent(active: seq<Queen>, templates: seq<string>, d: DramaDraw) returns (event: UntuckedEvent)
    requires DrawFits(active, templates, d)
    ensures event == EventFor(active, templates, d)
  {
    var q1 := active[d.first];
    var k := DrawSecond(active, q1.id, d.seconds);
    var q2 := active[d.seconds[k]];
    var template := templates[d.template];
    var includesQ2 := Contains(template, "{Q2}");
    var quote := ReplaceFirst(ReplaceFirst(template, "{Q1}", q1.name), "{Q2}", q2.name);
    event := UntuckedEvent(quote, if includesQ2 then [q1, q2] else [q1]);
  }

  /** The generator: nothing with fewer than two active contestants; otherwise one event per draw,
      EventCount of them. */
  method GenerateEvents(active: seq<Queen>, templates: seq<string>, draws: seq<DramaDraw>) returns (drama: Option<seq<UntuckedEvent>>)
    requires DrawsFit(active, templates, draws)
    ensures drama.None? <==> |active| < 2
    ensures drama.Some? ==> |drama.value| == EventCount(|active|) && drama.value == DramaFor(active, templates, draws)
  {
    if |active| < 2 {
      return None;
    }
    var numEvents := EventCount(|active|);
    assert |draws| == numEvents;
    var events: seq<UntuckedEvent> := [];
    for i := 0 to numEvents
      invariant events == DramaFor(active, templates, draws[..i])
    {
      var event := MakeEvent(active, templates, draws[i]);
      assert draws[..i + 1][..i] == draws[..i];
      events := events + [event];
    }
    assert draws[..numEvents] == draws;
    return Some(events);
  }
}
