/**
 * Properties of the framework scorer: how answers become section scores,
 * that null sections never dilute the overall score, how the fallback
 * result picks and orders its gaps, strengths and actions, how objectives
 * roll up their own sections, the badge order, the colour of each rating
 * and the framework page's HTML escaping.
 */
module FrameworkProofs {
  import opened Options
  import opened Text
  import opened Framework

  // ---------------------------------------------------------------------
  // Section scores
  // ---------------------------------------------------------------------

  /** `na` and any value outside the score table change neither the numerator nor the divisor. */
  lemma UnscoredDropped(values: seq<string>, v: string)
    requires Points(v).None?
    ensures Scorable(values + [v]) == Scorable(values)
    ensures SectionScore(values + [v]) == SectionScore(values)
  {
    assert (values + [v])[..|values|] == values;
  }

  /** A section answered only with `na` has no score (`null`), not a score of 0. */
  lemma {:induction false} OnlyNaIsNull(values: seq<string>)
    requires forall i :: 0 <= i < |values| ==> values[i] == "na"
    ensures SectionScore(values) == None
    decreases |values|
  {
    if values != [] {
      var init := values[..|values| - 1];
      OnlyNaIsNull(init);
      assert values == init + [values[|values| - 1]];
      UnscoredDropped(init, values[|values| - 1]);
    }
  }

  /** The score of a section whose scorable answers all carry the same points is those points. */
  lemma UniformSection(values: seq<string>, v: string)
    requires Points(v).Some?
    requires forall i :: 0 <= i < |values| ==> values[i] == v || Points(values[i]).None?
    requires v in values
    ensures SectionScore(values) == Some(Points(v).value)
  {
    var p := Points(v).value;
    var points := Scorable(values);
    ScorableUniform(values, v);
    RoundedMeanBounds(points, p, p);
  }

  lemma {:induction false} ScorableUniform(values: seq<string>, v: string)
    requires Points(v).Some?
    requires forall i :: 0 <= i < |values| ==> values[i] == v || Points(values[i]).None?
    ensures v in values ==> Scorable(values) != []
    ensures forall i :: 0 <= i < |Scorable(values)| ==> Scorable(values)[i] == Points(v).value
    decreases |values|
  {
    if values != [] {
      var init := values[..|values| - 1];
      ScorableUniform(init, v);
      assert values == init + [values[|values| - 1]];
    }
  }

  /** Each entry of `buildScores` depends on its own section's answers and nothing else. */
  lemma BuildScoresLocal(r1: Responses, r2: Responses, i: nat)
    requires i < |SectionIds|
    requires AnswersIn(r1, SectionIds[i]) == AnswersIn(r2, SectionIds[i])
    ensures BuildScores(r1)[i] == BuildScores(r2)[i]
  {
  }

  // ---------------------------------------------------------------------
  // Overall score
  // ---------------------------------------------------------------------

  lemma {:induction false} PresentAppend(a: seq<Option<nat>>, b: seq<Option<nat>>)
    ensures Present(a + b) == Present(a) + Present(b)
    decreases |b|
  {
    if b == [] {
      assert a + b == a;
    } else {
      var init := b[..|b| - 1];
      PresentAppend(a, init);
      assert (a + b)[..|a + b| - 1] == a + init;
    }
  }

  /** Inserting a section without data anywhere leaves the overall score unchanged. */
  lemma NullsDoNotDilute(a: seq<Option<nat>>, b: seq<Option<nat>>)
    ensures OverallScore(a + [None] + b) == OverallScore(a + b)
  {
    PresentSkipsNull(a, b);
  }

  lemma PresentSkipsNull(a: seq<Option<nat>>, b: seq<Option<nat>>)
    ensures Present(a + [None] + b) == Present(a + b)
  {
    var none: seq<Option<nat>> := [None];
    PresentAppend(a + none, b);
    PresentAppend(a, none);
    PresentAppend(a, b);
    assert none[..0] == [];
    assert Present(none) == [];
  }

  /** `overallScore` lies between the lowest and the highest section score. */
  lemma OverallWithin(m: seq<Option<nat>>, lo: nat, hi: nat)
    requires exists i :: 0 <= i < |m| && m[i].Some?
    requires forall i :: 0 <= i < |m| && m[i].Some? ==> lo <= m[i].value <= hi
    ensures lo <= OverallScore(m) <= hi
  {
    PresentWithin(m, lo, hi);
    RoundedMeanBounds(Present(m), lo, hi);
  }

  lemma {:induction false} PresentWithin(m: seq<Option<nat>>, lo: nat, hi: nat)
    requires forall i :: 0 <= i < |m| && m[i].Some? ==> lo <= m[i].value <= hi
    ensures forall j :: 0 <= j < |Present(m)| ==> lo <= Present(m)[j] <= hi
    decreases |m|
  {
    if m != [] {
      var init := m[..|m| - 1];
      assert forall i :: 0 <= i < |init| ==> init[i] == m[i];
      PresentWithin(init, lo, hi);
    }
  }

  /** The overall score of any set of answers is a percentage. */
  lemma OverallIsPercentage(responses: Responses)
    ensures OverallScore(BuildScores(responses)) <= 100
  {
    var m := BuildScores(responses);
    if exists i :: 0 <= i < |m| && m[i].Some? {
      OverallWithin(m, 0, 100);
    }
  }

  // ---------------------------------------------------------------------
  // Gaps, strengths and actions of the fallback result
  // ---------------------------------------------------------------------

  /** The sections kept from a prefix are a prefix of the sections kept from the whole map. */
  lemma {:induction false} WherePrefix(m: seq<Option<nat>>, k: nat, keep: nat -> bool)
    requires k <= |m|
    ensures |Where(m[..k], keep)| <= |Where(m, keep)|
    ensures Where(m, keep)[..|Where(m[..k], keep)|] == Where(m[..k], keep)
    decreases |m|
  {
    if k == |m| {
      assert m[..k] == m;
    } else {
      var init := m[..|m| - 1];
      WherePrefix(init, k, keep);
      assert init[..k] == m[..k];
      var tail := if m[|m| - 1].Some? && keep(m[|m| - 1].value) then [|m| - 1] else [];
      assert Where(m, keep) == Where(init, keep) + tail;
      PrefixOfAppend(Where(init, keep), tail, |Where(m[..k], keep)|);
    }
  }

  lemma PrefixOfAppend<T>(a: seq<T>, b: seq<T>, n: nat)
    requires n <= |a|
    ensures (a + b)[..n] == a[..n]
  {
  }

  /**
   * A kept section sits in the kept list at the position given by the
   * number of kept sections before it: the list follows section order.
   */
  lemma WhereRank(m: seq<Option<nat>>, i: nat, keep: nat -> bool)
    requires i < |m| && m[i].Some? && keep(m[i].value)
    ensures |Where(m[..i], keep)| < |Where(m, keep)|
    ensures Where(m, keep)[|Where(m[..i], keep)|] == i
  {
    WherePrefix(m, i + 1, keep);
    WhereSnoc(m, i, keep);
    var whole := Where(m, keep);
    var before := Where(m[..i], keep);
    var upTo := Where(m[..i + 1], keep);
    assert whole[..|upTo|] == upTo == before + [i];
    assert whole[|before|] == whole[..|upTo|][|before|];
  }

  lemma WhereSnoc(m: seq<Option<nat>>, i: nat, keep: nat -> bool)
    requires i < |m| && m[i].Some? && keep(m[i].value)
    ensures Where(m[..i + 1], keep) == Where(m[..i], keep) + [i]
  {
    assert m[..i + 1][..i] == m[..i];
  }

  /**
   * A section scoring below 50 with fewer than five such sections before it
   * has its gap at that rank, and with fewer than three it also has the
   * priority action at that rank, naming the section as its principle.
   */
  lemma LowSectionReported(m: ScoreMap, i: nat)
    requires i < 14 && m[i].Some? && m[i].value < 50
    ensures var rank := |Where(m[..i], IsLow)|;
      var r := BuildFallbackResult(m);
      (rank < 5 ==> rank < |r.criticalGaps| && r.criticalGaps[rank] == GapText(SectionIds[i], m[i].value))
      && (rank < 3 ==> rank < |r.priorityActions| && r.priorityActions[rank].principle == SectionIds[i]
                       && r.priorityActions[rank].action == "Improve " + SectionIds[i] + " controls")
  {
    WhereRank(m, i, IsLow);
  }

  /** A section scoring at least 75 with fewer than three such sections before it is listed as a strength at that rank. */
  lemma HighSectionReported(m: ScoreMap, i: nat)
    requires i < 14 && m[i].Some? && m[i].value >= 75
    ensures var rank := |Where(m[..i], IsHigh)|;
      rank < 3 ==>
        rank < |BuildFallbackResult(m).strengths|
        && BuildFallbackResult(m).strengths[rank] == StrengthText(SectionIds[i], m[i].value)
  {
    WhereRank(m, i, IsHigh);
  }

  /** The lists hold exactly the first five (three) qualifying sections: no more, no fewer. */
  lemma FallbackListSizes(m: ScoreMap)
    ensures var r := BuildFallbackResult(m);
      |r.criticalGaps| == Min(5, |Where(m, IsLow)|)
      && |r.priorityActions| == Min(3, |Where(m, IsLow)|)
      && |r.strengths| == Min(3, |Where(m, IsHigh)|)
  {
  }

  /** With no section below 50 the result reports no gaps and no actions. */
  lemma NoLowNoGaps(m: ScoreMap)
    requires forall i :: 0 <= i < 14 && m[i].Some? ==> m[i].value >= 50
    ensures BuildFallbackResult(m).criticalGaps == [] && BuildFallbackResult(m).priorityActions == []
  {
    WhereNone(m, IsLow);
  }

  lemma {:induction false} WhereNone(m: seq<Option<nat>>, keep: nat -> bool)
    requires forall i :: 0 <= i < |m| && m[i].Some? ==> !keep(m[i].value)
    ensures Where(m, keep) == []
    decreases |m|
  {
    if m != [] {
      var init := m[..|m| - 1];
      assert forall i :: 0 <= i < |init| ==> init[i] == m[i];
      WhereNone(init, keep);
    }

  }

  // ---------------------------------------------------------------------
  // Objectives
  // ---------------------------------------------------------------------

  /** The four objectives partition the sections, in section order. */
  lemma ObjectivesPartition()
    ensures Objectives[0].1 == SectionIds[0..4] && Objectives[1].1 == SectionIds[4..10]
    ensures Objectives[2].1 == SectionIds[10..12] && Objectives[3].1 == SectionIds[12..14]
    ensures Objectives[0].1 + Objectives[1].1 + Objectives[2].1 + Objectives[3].1 == SectionIds
  {
  }

  lemma SectionIdsDistinct()
    ensures forall a, b :: 0 <= a < b < |SectionIds| ==> SectionIds[a] != SectionIds[b]
  {
    forall a, b | 0 <= a < b < |SectionIds|
      ensures SectionIds[a] != SectionIds[b]
    {
      assert SectionIds[a][0] != SectionIds[b][0] || SectionIds[a][1] != SectionIds[b][1];
    }
  }

  lemma {:induction false} IndexOfDistinct(ids: seq<string>, i: nat)
    requires i < |ids|
    requires forall a, b :: 0 <= a < b < |ids| ==> ids[a] != ids[b]
    ensures IndexOf(ids, ids[i]) == Some(i)
    decreases i
  {
    if i > 0 {
      assert ids[1..][i - 1] == ids[i];
      IndexOfDistinct(ids[1..], i - 1);
    }
  }

  /** `scoreMap[id]` for a section id reads that section's entry. */
  lemma ScoreForSection(m: ScoreMap, i: nat)
    requires i < 14
    ensures ScoreFor(m, SectionIds[i]) == m[i]
  {
    SectionIdsDistinct();
    IndexOfDistinct(SectionIds, i);
  }

  lemma MemberScoresSlice(m: ScoreMap, lo: nat, hi: nat)
    requires lo <= hi <= 14
    ensures MemberScores(m, SectionIds[lo..hi]) == m[lo..hi]
  {
    forall j | 0 <= j < hi - lo
      ensures MemberScores(m, SectionIds[lo..hi])[j] == m[lo..hi][j]
    {
      ScoreForSection(m, lo + j);
    }
  }

  /** An objective's rating depends only on the scores of its own sections. */
  lemma ObjectiveUsesOwnSections(m1: ScoreMap, m2: ScoreMap, j: nat, lo: nat, hi: nat)
    requires j < 4 && lo <= hi <= 14 && Objectives[j].1 == SectionIds[lo..hi]
    requires m1[lo..hi] == m2[lo..hi]
    ensures ObjectiveRating(m1, Objectives[j].1) == ObjectiveRating(m2, Objectives[j].1)
  {
    MemberScoresSlice(m1, lo, hi);
    MemberScoresSlice(m2, lo, hi);
  }

  /**
   * In the fallback result, objective `j` (sections `lo` to `hi`) is "Not
   * Attempted" exactly when none of its sections has a score, and otherwise
   * carries the rating of the rounded mean of its sections' scores.
   */
  lemma FallbackObjective(m: ScoreMap, j: nat, lo: nat, hi: nat)
    requires j < 4 && lo <= hi <= 14 && Objectives[j].1 == SectionIds[lo..hi]
    ensures var rating := BuildFallbackResult(m).objectiveRatings[j];
      rating.0 == Objectives[j].0
      && (rating.1 == NotAttempted <==> forall i :: lo <= i < hi ==> m[i].None?)
      && (Present(m[lo..hi]) != [] ==> rating.1 == Rating(RoundedMean(Present(m[lo..hi]))))
  {
    FallbackObjectiveEntry(m, j);
    ObjectiveRatingSlice(m, lo, hi);
  }

  lemma FallbackObjectiveEntry(m: ScoreMap, j: nat)
    requires j < 4
    ensures BuildFallbackResult(m).objectiveRatings[j] == (Objectives[j].0, ObjectiveRating(m, Objectives[j].1))
  {
  }

  lemma ObjectiveRatingSlice(m: ScoreMap, lo: nat, hi: nat)
    requires lo <= hi <= 14
    ensures ObjectiveRating(m, SectionIds[lo..hi]) == NotAttempted <==> forall i :: lo <= i < hi ==> m[i].None?
    ensures Present(m[lo..hi]) != [] ==>
      ObjectiveRating(m, SectionIds[lo..hi]) == Rating(RoundedMean(Present(m[lo..hi])))
  {
    MemberScoresSlice(m, lo, hi);
    SliceAllNone(m, lo, hi);
  }

  lemma SliceAllNone(m: ScoreMap, lo: nat, hi: nat)
    requires lo <= hi <= 14
    ensures (forall k :: 0 <= k < hi - lo ==> m[lo..hi][k].None?) <==> forall i :: lo <= i < hi ==> m[i].None?
  {
    assert forall i :: lo <= i < hi ==> m[lo..hi][i - lo] == m[i];
  }

  // ---------------------------------------------------------------------
  // Progress badge
  // ---------------------------------------------------------------------

  lemma TotalQuestionsValue()
    ensures TotalQuestions == 83
  {
    var c := SectionCounts;
    assert c[..14] == c;
    assert Total(c[..0]) == 0;
    assert c[..1][..0] == c[..0] && Total(c[..1]) == 6;
    assert c[..2][..1] == c[..1] && Total(c[..2]) == 10;
    assert c[..3][..2] == c[..2] && Total(c[..3]) == 13;
    assert c[..4][..3] == c[..3] && Total(c[..4]) == 17;
    assert c[..5][..4] == c[..4] && Total(c[..5]) == 21;
    assert c[..6][..5] == c[..5] && Total(c[..6]) == 29;
    assert c[..7][..6] == c[..6] && Total(c[..7]) == 39;
    assert c[..8][..7] == c[..7] && Total(c[..8]) == 47;
    assert c[..9][..8] == c[..8] && Total(c[..9]) == 53;
    assert c[..10][..9] == c[..9] && Total(c[..10]) == 57;
    assert c[..11][..10] == c[..10] && Total(c[..11]) == 69;
    assert c[..12][..11] == c[..11] && Total(c[..12]) == 73;
    assert c[..13][..12] == c[..12] && Total(c[..13]) == 79;
    assert c[..14][..13] == c[..13] && Total(c[..14]) == 83;
  }

  /** Answering more questions of a section never lowers its badge. */
  lemma BadgeMonotone(a1: nat, a2: nat, expected: nat)
    requires a1 <= a2 <= expected
    ensures ProgressBadge(a1, expected).Rank() <= ProgressBadge(a2, expected).Rank()
  {
  }

  // ---------------------------------------------------------------------
  // Rating colour
  // ---------------------------------------------------------------------

  /** Each rating the scorer produces gets its own colour: green, amber and red for the three bands. */
  lemma RatingColorOfRating(score: int)
    ensures RatingColor(Some(Rating(score))) ==
      if score >= 70 then Green else if score >= 40 then Amber else Red
  {
    if score >= 70 {
      AchievedIsGreen();
    } else if score >= 40 {
      PartiallyAchievedIsAmber();
    } else {
      NotAchievedIsRed();
    }
  }

  lemma AchievedIsGreen()
    ensures RatingColor(Some(Achieved)) == Green
  {
    LowerLacks(Achieved, 'o');
    LowerLacks(Achieved, 'p');
    assert "not achieved"[1] == 'o' && "partial"[0] == 'p';
    MissingChar(ToLower(Achieved), "not achieved", 'o');
    MissingChar(ToLower(Achieved), "partial", 'p');
  }

  lemma PartiallyAchievedIsAmber()
    ensures RatingColor(Some(PartiallyAchieved)) == Amber
  {
    var l := ToLower(PartiallyAchieved);
    LowerLacks(PartiallyAchieved, 'o');
    assert "not achieved"[1] == 'o';
    MissingChar(l, "not achieved", 'o');
    assert l[0..7] == "partial";
    ContainsAt(l, "partial", 0);
  }

  lemma NotAchievedIsRed()
    ensures RatingColor(Some(NotAchieved)) == Red
  {
    var l := ToLower(NotAchieved);
    assert l[0..12] == "not achieved";
    ContainsAt(l, "not achieved", 0);
  }

  /** "Not Attempted" contains neither marker and is shown green like "Achieved". */
  lemma NotAttemptedIsGreen()
    ensures RatingColor(Some(NotAttempted)) == Green
  {
    LowerLacks(NotAttempted, 'c');
    LowerLacks(NotAttempted, 'r');
    assert "not achieved"[5] == 'c' && "partial"[2] == 'r';
    MissingChar(ToLower(NotAttempted), "not achieved", 'c');
    MissingChar(ToLower(NotAttempted), "partial", 'r');
  }

  // ---------------------------------------------------------------------
  // HTML escaping on the framework page
  // ---------------------------------------------------------------------

  /** Decoding the four entities gives the original text back. */
  lemma EscapeHtmlRoundTrip(s: string)
    ensures Unescape(EscapeHtml(Some(s))) == s
  {
    if s != [] {
      HtmlEntitiesChainable(4);
      ReplaceEachPerChar(s, HtmlEntities[..4]);
      UnescapeEscape(s, 4);
    }
  }

  /** The escaped text holds no `<`, `>` or `"`, while `'` passes through unchanged. */
  lemma EscapeHtmlMarkup(s: string)
    ensures var r := EscapeHtml(Some(s)); '<' !in r && '>' !in r && '"' !in r
    ensures EscapeHtml(Some("'")) == "'"
  {
    if s != [] {
      HtmlEntitiesChainable(4);
      ReplaceEachPerChar(s, HtmlEntities[..4]);
      EscapeRemoves(s, 4, 1);
      EscapeRemoves(s, 4, 2);
      EscapeRemoves(s, 4, 3);
    }
    HtmlEntitiesChainable(4);
    ReplaceEachPerChar("'", HtmlEntities[..4]);
    HtmlEntityFor('\'', 4);
    assert "'"[1..] == [];
  }

  // ---------------------------------------------------------------------
  // Remote versus fallback
  // ---------------------------------------------------------------------

  /** A non-empty first content text is read and the `result` field is then ignored. */
  lemma FirstTextPrecedence<J>(answered: nat, responses: Responses, ok: bool, first: string,
                               result1: string, result2: string, parse: string -> Option<J>,
                               shows: J -> bool)
    requires first != ""
    ensures RunAnalysis(answered, responses, Response(ok, Some(ReplyBody(first, result1))), parse, shows)
         == RunAnalysis(answered, responses, Response(ok, Some(ReplyBody(first, result2))), parse, shows)
  {
  }
}
