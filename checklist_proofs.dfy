/**
 * What the checklist walk computes, stated without the walk: each list is
 * the answers of each control filtered and mapped in control order, each
 * score is the share of the control's critical answers that did not fail,
 * and the verdict, readiness score and timeline follow from those.
 */
module ChecklistProofs {
  import opened Options
  import opened Text
  import opened Checklist

  // ---------------------------------------------------------------------
  // Filtering and counting
  // ---------------------------------------------------------------------

  /** The `Some` results of `f` over `s`, in order. */
  function FilterMap<A, B>(f: A -> Option<B>, s: seq<A>): seq<B>
    decreases |s|
  {
    if s == [] then []
    else (if f(s[0]).Some? then [f(s[0]).value] else []) + FilterMap(f, s[1..])
  }

  lemma {:induction false} FilterMapAppend<A, B>(f: A -> Option<B>, s: seq<A>, t: seq<A>)
    ensures FilterMap(f, s + t) == FilterMap(f, s) + FilterMap(f, t)
    decreases |s|
  {
    if s == [] {
      assert s + t == t;
    } else {
      assert (s + t)[0] == s[0] && (s + t)[1..] == s[1..] + t;
      FilterMapAppend(f, s[1..], t);
      var head := if f(s[0]).Some? then [f(s[0]).value] else [];
      AppendAssoc(head, FilterMap(f, s[1..]), FilterMap(f, t));
    }
  }

  /** Every element of `FilterMap(f, s)` comes from some element of `s`. */
  lemma {:induction false} FilterMapSource<A, B>(f: A -> Option<B>, s: seq<A>, b: B)
    requires b in FilterMap(f, s)
    ensures exists i :: 0 <= i < |s| && f(s[i]) == Some(b)
    decreases |s|
  {
    if f(s[0]).Some? && b == f(s[0]).value {
      assert f(s[0]) == Some(b);
    } else {
      FilterMapSource(f, s[1..], b);
      var i :| 0 <= i < |s[1..]| && f(s[1..][i]) == Some(b);
      assert f(s[i + 1]) == Some(b);
    }
  }

  /** Every element `f` maps to a value contributes that value. */
  lemma {:induction false} FilterMapHas<A, B>(f: A -> Option<B>, s: seq<A>, i: nat)
    requires i < |s| && f(s[i]).Some?
    ensures f(s[i]).value in FilterMap(f, s)
    decreases i
  {
    if i > 0 {
      FilterMapHas(f, s[1..], i - 1);
    }
  }

  lemma AppendAssoc<T>(a: seq<T>, b: seq<T>, c: seq<T>)
    ensures (a + b) + c == a + (b + c)
  {
  }

  /** The number of elements of `s` that satisfy `p`. */
  function Count<A>(p: A -> bool, s: seq<A>): nat
    decreases |s|
  {
    if s == [] then 0 else (if p(s[0]) then 1 else 0) + Count(p, s[1..])
  }

  lemma {:induction false} CountAppend<A>(p: A -> bool, s: seq<A>, t: seq<A>)
    ensures Count(p, s + t) == Count(p, s) + Count(p, t)
    decreases |s|
  {
    if s == [] {
      assert s + t == t;
    } else {
      assert (s + t)[0] == s[0] && (s + t)[1..] == s[1..] + t;
      CountAppend(p, s[1..], t);
    }
  }

  /** A predicate implied by another is satisfied at least as often. */
  lemma {:induction false} CountMonotone<A>(p: A -> bool, q: A -> bool, s: seq<A>)
    requires forall x :: p(x) ==> q(x)
    ensures Count(p, s) <= Count(q, s)
    decreases |s|
  {
    if s != [] {
      CountMonotone(p, q, s[1..]);
    }
  }

  /** `FilterMap` keeps exactly the elements where `f` is defined. */
  lemma {:induction false} FilterMapLength<A, B>(f: A -> Option<B>, s: seq<A>)
    ensures |FilterMap(f, s)| == Count(x => f(x).Some?, s)
    decreases |s|
  {
    if s != [] {
      FilterMapLength(f, s[1..]);
    }
  }

  // ---------------------------------------------------------------------
  // What one control contributes
  // ---------------------------------------------------------------------

  function CriticalIssueOf(c: Control): Answer -> Option<CriticalIssue> {
    (a: Answer) => if IsCriticalFailure(a) then Some(IssueFor(c, a)) else None
  }

  function WarningOf(c: Control): Answer -> Option<Warning> {
    (a: Answer) => if !a.critical && a.value == Fail then Some(WarningFor(c, a)) else None
  }

  function StrengthOf(a: Answer): Option<string> {
    if !a.critical && a.value == Pass && a.id in StrengthIds then Some(a.text) else None
  }

  function CountCritical(answers: seq<Answer>): nat {
    Count((a: Answer) => a.critical, answers)
  }

  function CountFailing(answers: seq<Answer>): nat {
    Count(IsCriticalFailure, answers)
  }

  lemma FilterMapSingle<A, B>(f: A -> Option<B>, x: A)
    ensures FilterMap(f, [x]) == if f(x).Some? then [f(x).value] else []
  {
    assert [x][1..] == [];
  }

  lemma CountSingle<A>(p: A -> bool, x: A)
    ensures Count(p, [x]) == if p(x) then 1 else 0
  {
    assert [x][1..] == [];
  }

  /** One answer, stated the same way as the whole walk below. */
  lemma AnswerStepSplit(w: Walk, c: Control, a: Answer)
    ensures AnswerStep(w, c, a) == Walk(
      w.critical + FilterMap(CriticalIssueOf(c), [a]),
      w.warnings + FilterMap(WarningOf(c), [a]),
      w.strengths + FilterMap(StrengthOf, [a]),
      w.failCount + CountFailing([a]),
      w.totalCritical + CountCritical([a]))
  {
    FilterMapSingle(CriticalIssueOf(c), a);
    FilterMapSingle(WarningOf(c), a);
    FilterMapSingle(StrengthOf, a);
    CountSingle(IsCriticalFailure, a);
    CountSingle((a: Answer) => a.critical, a);
  }

  /**
   * The walk over one control's answers appends, in answer order, one issue
   * per failing critical answer, one warning per failing non-critical answer
   * and one strength per allow-listed non-critical pass, and counts the
   * critical answers and the failing ones.
   */
  lemma {:induction false} WalkAnswersSplit(w: Walk, c: Control, answers: seq<Answer>)
    ensures WalkAnswers(w, c, answers) == Walk(
      w.critical + FilterMap(CriticalIssueOf(c), answers),
      w.warnings + FilterMap(WarningOf(c), answers),
      w.strengths + FilterMap(StrengthOf, answers),
      w.failCount + CountFailing(answers),
      w.totalCritical + CountCritical(answers))
    decreases |answers|
  {
    if answers != [] {
      var init, a := answers[..|answers| - 1], answers[|answers| - 1];
      assert answers == init + [a];
      WalkAnswersSplit(w, c, init);
      SnocSplit(w, c, init, a);
    }
  }

  /** The walk's closed form after `init`, extended by one more answer, is the closed form after `init + [a]`. */
  lemma SnocSplit(w: Walk, c: Control, init: seq<Answer>, a: Answer)
    ensures AnswerStep(Walk(
      w.critical + FilterMap(CriticalIssueOf(c), init),
      w.warnings + FilterMap(WarningOf(c), init),
      w.strengths + FilterMap(StrengthOf, init),
      w.failCount + CountFailing(init),
      w.totalCritical + CountCritical(init)), c, a) == Walk(
      w.critical + FilterMap(CriticalIssueOf(c), init + [a]),
      w.warnings + FilterMap(WarningOf(c), init + [a]),
      w.strengths + FilterMap(StrengthOf, init + [a]),
      w.failCount + CountFailing(init + [a]),
      w.totalCritical + CountCritical(init + [a]))
  {
    var ci, wi, si := FilterMap(CriticalIssueOf(c), init), FilterMap(WarningOf(c), init), FilterMap(StrengthOf, init);
    var p := Walk(w.critical + ci, w.warnings + wi, w.strengths + si,
                  w.failCount + CountFailing(init), w.totalCritical + CountCritical(init));
    AnswerStepSplit(p, c, a);
    FilterMapAppend(CriticalIssueOf(c), init, [a]);
    FilterMapAppend(WarningOf(c), init, [a]);
    FilterMapAppend(StrengthOf, init, [a]);
    CountAppend(IsCriticalFailure, init, [a]);
    CountAppend((a: Answer) => a.critical, init, [a]);
    var ca, wa, sa := FilterMap(CriticalIssueOf(c), [a]), FilterMap(WarningOf(c), [a]), FilterMap(StrengthOf, [a]);
    AppendAssoc(w.critical, ci, ca);
    AppendAssoc(w.warnings, wi, wa);
    AppendAssoc(w.strengths, si, sa);
  }

  /** Every failing answer is a critical one. */
  lemma FailingWithinCritical(answers: seq<Answer>)
    ensures CountFailing(answers) <= CountCritical(answers)
  {
    CountMonotone(IsCriticalFailure, (a: Answer) => a.critical, answers);
  }

  /** Exactly one critical issue per failing critical answer. */
  lemma IssuesMatchFailures(c: Control, answers: seq<Answer>)
    ensures |FilterMap(CriticalIssueOf(c), answers)| == CountFailing(answers)
  {
    FilterMapLength(CriticalIssueOf(c), answers);
    CountSame(x => CriticalIssueOf(c)(x).Some?, IsCriticalFailure, answers);
  }

  lemma {:induction false} CountSame<A>(p: A -> bool, q: A -> bool, s: seq<A>)
    requires forall x :: p(x) == q(x)
    ensures Count(p, s) == Count(q, s)
    decreases |s|
  {
    if s != [] {
      CountSame(p, q, s[1..]);
    }
  }

  // ---------------------------------------------------------------------
  // Across the controls
  // ---------------------------------------------------------------------

  function IssuesAcross(cs: seq<Control>, r: Responses): seq<CriticalIssue>
    decreases |cs|
  {
    if cs == [] then []
    else IssuesAcross(cs[..|cs| - 1], r) + FilterMap(CriticalIssueOf(cs[|cs| - 1]), AnswersOf(r, cs[|cs| - 1]))
  }

  function WarningsAcross(cs: seq<Control>, r: Responses): seq<Warning>
    decreases |cs|
  {
    if cs == [] then []
    else WarningsAcross(cs[..|cs| - 1], r) + FilterMap(WarningOf(cs[|cs| - 1]), AnswersOf(r, cs[|cs| - 1]))
  }

  function StrengthsAcross(cs: seq<Control>, r: Responses): seq<string>
    decreases |cs|
  {
    if cs == [] then []
    else StrengthsAcross(cs[..|cs| - 1], r) + FilterMap(StrengthOf, AnswersOf(r, cs[|cs| - 1]))
  }

  /** One control appends its own issues, warnings and strengths. */
  lemma ControlStepLists(acc: Acc, c: Control, r: Responses)
    ensures ControlStep(acc, c, r).critical == acc.critical + FilterMap(CriticalIssueOf(c), AnswersOf(r, c))
    ensures ControlStep(acc, c, r).warnings == acc.warnings + FilterMap(WarningOf(c), AnswersOf(r, c))
    ensures ControlStep(acc, c, r).strengths == acc.strengths + FilterMap(StrengthOf, AnswersOf(r, c))
  {
    WalkAnswersSplit(Walk(acc.critical, acc.warnings, acc.strengths, 0, 0), c, AnswersOf(r, c));
  }

  /** The walk over the controls appends each control's issues, warnings and strengths in control order. */
  lemma {:induction false} WalkControlsLists(acc: Acc, cs: seq<Control>, r: Responses)
    ensures WalkControls(acc, cs, r).critical == acc.critical + IssuesAcross(cs, r)
    ensures WalkControls(acc, cs, r).warnings == acc.warnings + WarningsAcross(cs, r)
    ensures WalkControls(acc, cs, r).strengths == acc.strengths + StrengthsAcross(cs, r)
    decreases |cs|
  {
    if cs != [] {
      var init, c := cs[..|cs| - 1], cs[|cs| - 1];
      WalkControlsLists(acc, init, r);
      var before := WalkControls(acc, init, r);
      assert WalkControls(acc, cs, r) == ControlStep(before, c, r);
      ControlStepLists(before, c, r);
      var answers := AnswersOf(r, c);
      assert IssuesAcross(cs, r) == IssuesAcross(init, r) + FilterMap(CriticalIssueOf(c), answers);
      assert WarningsAcross(cs, r) == WarningsAcross(init, r) + FilterMap(WarningOf(c), answers);
      assert StrengthsAcross(cs, r) == StrengthsAcross(init, r) + FilterMap(StrengthOf, answers);
      AppendAssoc(acc.critical, IssuesAcross(init, r), FilterMap(CriticalIssueOf(c), answers));
      AppendAssoc(acc.warnings, WarningsAcross(init, r), FilterMap(WarningOf(c), answers));
      AppendAssoc(acc.strengths, StrengthsAcross(init, r), FilterMap(StrengthOf, answers));
    }
  }

  /** A failing critical answer of any control raises its issue in the walk's issue list. */
  lemma {:induction false} IssueAcrossHas(cs: seq<Control>, r: Responses, k: nat, i: nat)
    requires k < |cs| && i < |AnswersOf(r, cs[k])| && IsCriticalFailure(AnswersOf(r, cs[k])[i])
    ensures IssueFor(cs[k], AnswersOf(r, cs[k])[i]) in IssuesAcross(cs, r)
    decreases |cs|
  {
    if k == |cs| - 1 {
      FilterMapHas(CriticalIssueOf(cs[k]), AnswersOf(r, cs[k]), i);
    } else {
      assert cs[..|cs| - 1][k] == cs[k];
      IssueAcrossHas(cs[..|cs| - 1], r, k, i);
    }
  }

  /** Every strength the walk lists is the text of an allow-listed, non-critical passing answer. */
  lemma {:induction false} StrengthAcrossSource(cs: seq<Control>, r: Responses, s: string)
    requires s in StrengthsAcross(cs, r)
    ensures exists c, a ::
      c in cs && a in AnswersOf(r, c) && !a.critical && a.value == Pass && a.id in StrengthIds && s == a.text
    decreases |cs|
  {
    var init, c := cs[..|cs| - 1], cs[|cs| - 1];
    if s in StrengthsAcross(init, r) {
      StrengthAcrossSource(init, r, s);
      var c', a :| c' in init && a in AnswersOf(r, c') && !a.critical && a.value == Pass
        && a.id in StrengthIds && s == a.text;
      assert c' in cs;
    } else {
      FilterMapSource(StrengthOf, AnswersOf(r, c), s);
      var i :| 0 <= i < |AnswersOf(r, c)| && StrengthOf(AnswersOf(r, c)[i]) == Some(s);
      assert AnswersOf(r, c)[i] in AnswersOf(r, c);
    }
  }

  // ---------------------------------------------------------------------
  // Scores
  // ---------------------------------------------------------------------

  /** The score of a control: the share of its critical answers that did not fail; 100 without any. */
  function ScoreOf(r: Responses, c: Control): real {
    var answers := AnswersOf(r, c);
    if CountCritical(answers) > 0 then ScoreValue(CountFailing(answers), CountCritical(answers)) else 100.0
  }

  /** The five technical controls in order with their scores, then `scope` when it had critical answers. */
  function ExpectedScores(r: Responses): seq<ControlScore> {
    seq(5, i requires 0 <= i < 5 => ControlScore(ScoredControls[i], ScoreOf(r, ScoredControls[i])))
    + (if CountCritical(AnswersOf(r, Scope)) > 0 then [ControlScore(Scope, ScoreOf(r, Scope))] else [])
  }

  /** The scores after the first `k` technical controls: scored so far, 100 for the rest. */
  function PartialScores(r: Responses, k: nat): seq<ControlScore> {
    seq(5, i requires 0 <= i < 5 =>
      ControlScore(ScoredControls[i], if i < k then ScoreOf(r, ScoredControls[i]) else 100.0))
  }

  lemma {:induction false} ControlStepScores(acc: Acc, c: Control, r: Responses)
    ensures ControlStep(acc, c, r).scores ==
      if CountCritical(AnswersOf(r, c)) > 0 then SetScore(acc.scores, c, ScoreOf(r, c)) else acc.scores
  {
    WalkAnswersSplit(Walk(acc.critical, acc.warnings, acc.strengths, 0, 0), c, AnswersOf(r, c));
  }

  lemma PartialScoresZero(r: Responses)
    ensures PartialScores(r, 0) == InitialScores
  {
    forall i | 0 <= i < 5
      ensures PartialScores(r, 0)[i] == InitialScores[i]
    {
    }
  }

  /** Setting the score of a control that has exactly one entry overwrites that entry in place. */
  lemma SetScoreAt(scores: seq<ControlScore>, k: nat, c: Control, v: real)
    requires k < |scores| && scores[k].control == c
    requires forall j :: 0 <= j < |scores| && j != k ==> scores[j].control != c
    ensures SetScore(scores, c, v) == scores[k := ControlScore(c, v)]
  {
    var t := SetScore(scores, c, v);
    assert Controls(scores)[k] == c;
    forall i | 0 <= i < |scores|
      ensures t[i] == scores[k := ControlScore(c, v)][i]
    {
      if i <= k {
        assert c !in Controls(scores[..i]);
      } else {
        assert Controls(scores[..i])[k] == c;
      }
    }
  }

  /** Scoring the next technical control overwrites its own entry and no other. */
  lemma SetPartialScore(r: Responses, k: nat)
    requires k < 5
    ensures SetScore(PartialScores(r, k), ScoredControls[k], ScoreOf(r, ScoredControls[k])) == PartialScores(r, k + 1)
  {
    var s, c := PartialScores(r, k), ScoredControls[k];
    SetScoreAt(s, k, c, ScoreOf(r, c));
    assert s[k := ControlScore(c, ScoreOf(r, c))] == PartialScores(r, k + 1);
  }

  /** A technical control without critical answers keeps its entry at 100. */
  lemma KeepPartialScore(r: Responses, k: nat)
    requires k < 5 && CountCritical(AnswersOf(r, ScoredControls[k])) == 0
    ensures PartialScores(r, k) == PartialScores(r, k + 1)
  {
    forall i | 0 <= i < 5
      ensures PartialScores(r, k)[i] == PartialScores(r, k + 1)[i]
    {
    }
  }

  lemma {:induction false} PartialScoresStep(r: Responses, k: nat)
    requires k < 5
    ensures WalkControls(InitialAcc, ControlOrder[..k + 1], r).scores == PartialScores(r, k + 1)
    decreases k
  {
    var c := ControlOrder[k];
    assert c == ScoredControls[k];
    assert ControlOrder[..k + 1][..k] == ControlOrder[..k];
    if k == 0 {
      assert ControlOrder[..0] == [];
      PartialScoresZero(r);
    } else {
      PartialScoresStep(r, k - 1);
    }
    ControlStepScores(WalkControls(InitialAcc, ControlOrder[..k], r), c, r);
    if CountCritical(AnswersOf(r, c)) > 0 {
      SetPartialScore(r, k);
    } else {
      KeepPartialScore(r, k);
    }
  }

  /** The final scores object: the five technical controls in order, then `scope` if it has critical answers. */
  lemma FinalScores(r: Responses)
    ensures WalkControls(InitialAcc, ControlOrder, r).scores == ExpectedScores(r)
  {
    PartialScoresStep(r, 4);
    assert ControlOrder[..6][..5] == ControlOrder[..5];
    assert ControlOrder[..6] == ControlOrder;
    ControlStepScores(WalkControls(InitialAcc, ControlOrder[..5], r), Scope, r);
    ScopeScoreAppended(r);
  }

  /** `scope` is not among the five technical entries, so scoring it appends a sixth. */
  lemma ScopeScoreAppended(r: Responses)
    ensures ExpectedScores(r) ==
      if CountCritical(AnswersOf(r, Scope)) > 0 then SetScore(PartialScores(r, 5), Scope, ScoreOf(r, Scope))
      else PartialScores(r, 5)
  {
    var s := PartialScores(r, 5);
    assert Controls(s) == ScoredControls;
    assert s == ExpectedScores(r)[..5];
  }

  /** Each control's score lies between 0 and 100. */
  lemma ScoreInRange(r: Responses, c: Control)
    ensures 0.0 <= ScoreOf(r, c) <= 100.0
  {
    FailingWithinCritical(AnswersOf(r, c));
  }

  predicate InRange(scores: seq<ControlScore>) {
    forall i :: 0 <= i < |scores| ==> 0.0 <= scores[i].score <= 100.0
  }

  lemma {:induction false} SumInRange(scores: seq<ControlScore>)
    requires InRange(scores)
    ensures 0.0 <= Sum(scores) <= 100.0 * |scores| as real
    decreases |scores|
  {
    if scores != [] {
      SumInRange(scores[1..]);
    }
  }

  lemma QuotientInRange(a: real, n: real)
    requires 0.0 < n && 0.0 <= a <= 100.0 * n
    ensures 0.0 <= a / n <= 100.0
  {
    assert (a / n) * n == a;
  }

  /** The readiness score of scores between 0 and 100 is itself between 0 and 100. */
  lemma ReadinessInRange(scores: seq<ControlScore>)
    requires scores != [] && InRange(scores)
    ensures 0 <= Round(Mean(scores)) <= 100
  {
    SumInRange(scores);
    QuotientInRange(Sum(scores), |scores| as real);
  }

  lemma ExpectedScoresInRange(r: Responses)
    ensures InRange(ExpectedScores(r))
    ensures |ExpectedScores(r)| == 5 || |ExpectedScores(r)| == 6
  {
    forall c: Control ensures 0.0 <= ScoreOf(r, c) <= 100.0 {
      ScoreInRange(r, c);
    }
  }

  // ---------------------------------------------------------------------
  // The whole analysis
  // ---------------------------------------------------------------------

  /** The number of failing critical answers over the given controls. */
  function FailingAcross(cs: seq<Control>, r: Responses): nat
    decreases |cs|
  {
    if cs == [] then 0
    else FailingAcross(cs[..|cs| - 1], r) + CountFailing(AnswersOf(r, cs[|cs| - 1]))
  }

  lemma {:induction false} IssuesAcrossLength(cs: seq<Control>, r: Responses)
    ensures |IssuesAcross(cs, r)| == FailingAcross(cs, r)
    decreases |cs|
  {
    if cs != [] {
      IssuesAcrossLength(cs[..|cs| - 1], r);
      IssuesMatchFailures(cs[|cs| - 1], AnswersOf(r, cs[|cs| - 1]));
    }
  }

  /** Where each control sits in the walk order. */
  function OrderIndex(c: Control): (k: nat)
    ensures k < |ControlOrder| && ControlOrder[k] == c
  {
    match c
    case Firewalls => 0
    case SecureConfig => 1
    case Updates => 2
    case AccessControl => 3
    case Malware => 4
    case Scope => 5
  }

  lemma AppendEmpty<T>(x: seq<T>)
    ensures [] + x == x
  {
  }

  /** The issues of `performLocalAnalysis`: per-control issues in control order, then the outdated-software one. */
  lemma AnalysisIssues(r: Responses)
    ensures LocalAnalysis(r).criticalIssues == IssuesAcross(ControlOrder, r) + OutdatedIssues(r)
    ensures LocalAnalysis(r).criticalIssuesCount == FailingAcross(ControlOrder, r) + |OutdatedIssues(r)|
  {
    var acc := WalkControls(InitialAcc, ControlOrder, r);
    WalkControlsLists(InitialAcc, ControlOrder, r);
    AppendEmpty(IssuesAcross(ControlOrder, r));
    assert acc.critical == IssuesAcross(ControlOrder, r);
    IssuesAcrossLength(ControlOrder, r);
  }

  /** The warnings of `performLocalAnalysis`: per-control warnings in control order, then backup and incident. */
  lemma AnalysisWarnings(r: Responses)
    ensures LocalAnalysis(r).warnings == WarningsAcross(ControlOrder, r) + ExtraWarnings(r)
  {
    var acc := WalkControls(InitialAcc, ControlOrder, r);
    WalkControlsLists(InitialAcc, ControlOrder, r);
    AppendEmpty(WarningsAcross(ControlOrder, r));
    assert acc.warnings == WarningsAcross(ControlOrder, r);
  }

  /** The scores object of `performLocalAnalysis`. */
  lemma AnalysisScores(r: Responses)
    ensures LocalAnalysis(r).controlScores == ExpectedScores(r)
  {
    FinalScores(r);
  }

  /** A failing critical answer fails the assessment and raises its own issue. */
  lemma CriticalAnswerFails(r: Responses, c: Control, i: nat)
    requires i < |AnswersOf(r, c)| && IsCriticalFailure(AnswersOf(r, c)[i])
    ensures LocalAnalysis(r).overallStatus == Failed
    ensures IssueFor(c, AnswersOf(r, c)[i]) in LocalAnalysis(r).criticalIssues
  {
    AnalysisIssues(r);
    IssueAcrossHas(ControlOrder, r, OrderIndex(c), i);
  }

  /** The verdict is FAIL exactly when some critical answer fails or the outdated-software check fires. */
  lemma FailIffCriticalFailure(r: Responses)
    ensures LocalAnalysis(r).overallStatus == Failed
       <==> FailingAcross(ControlOrder, r) > 0 || OutdatedTriggered(OutdatedText(r))
  {
    AnalysisIssues(r);
  }

  /** The readiness score is the rounded mean of the expected scores, between 0 and 100. */
  lemma ReadinessScore(r: Responses)
    ensures LocalAnalysis(r).readinessScore == Round(Mean(ExpectedScores(r)))
    ensures 0 <= LocalAnalysis(r).readinessScore <= 100
  {
    AnalysisScores(r);
    ExpectedScoresInRange(r);
    ReadinessInRange(ExpectedScores(r));
  }

  /** "Ready now" is promised exactly for a PASS. */
  lemma TimelineReadyIffPass(r: Responses)
    ensures LocalAnalysis(r).timeline == TimelineReady <==> LocalAnalysis(r).overallStatus == Passed
  {
  }

  /** Every strength is an allow-listed non-critical pass, a backup or incident strength, or the default. */
  lemma StrengthSources(r: Responses, s: string)
    requires s in LocalAnalysis(r).strengths
    ensures (exists c, a ::
               a in AnswersOf(r, c) && !a.critical && a.value == Pass && a.id in StrengthIds && s == a.text)
         || s == BackupStrength || s == IncidentStrength || s == DefaultStrength
  {
    var acc := WalkControls(InitialAcc, ControlOrder, r);
    WalkControlsLists(InitialAcc, ControlOrder, r);
    AppendEmpty(StrengthsAcross(ControlOrder, r));
    if s in StrengthsAcross(ControlOrder, r) {
      StrengthAcrossSource(ControlOrder, r, s);
    }
  }

  /** An empty strengths list is replaced by the single default message. */
  lemma AnalysisStrengths(r: Responses)
    ensures var found := StrengthsAcross(ControlOrder, r) + ExtraStrengths(r);
      LocalAnalysis(r).strengths == if found == [] then [DefaultStrength] else found
  {
    var acc := WalkControls(InitialAcc, ControlOrder, r);
    WalkControlsLists(InitialAcc, ControlOrder, r);
    AppendEmpty(StrengthsAcross(ControlOrder, r));
    assert acc.strengths == StrengthsAcross(ControlOrder, r);
  }

  // ---------------------------------------------------------------------
  // The outdated-software check on sample entries
  // ---------------------------------------------------------------------

  /** "None", in any case, is not a finding. */
  lemma OutdatedNoneIgnored(s: string)
    requires ToLower(s) == "none"
    ensures !OutdatedTriggered(s)
  {
  }

  /** The check reads the field lower-cased: a text and its lower-case form trigger alike. */
  lemma OutdatedCaseInsensitive(s: string)
    ensures OutdatedTriggered(s) <==> OutdatedTriggered(ToLower(s))
  {
    LowerIdempotent(s);
  }

  /** The check ignores case: "Windows XP" matches `xp`. */
  lemma OutdatedWindowsXp()
    ensures OutdatedTriggered("Windows XP")
  {
    var l := ToLower("Windows XP");
    assert l == "windows xp";
    assert l[8..10] == "xp";
    ContainsAt(l, "xp", 8);
  }

  /**
   * The markers are plain substrings, so a supported product can still match
   * one: "SQL Server 2019 Express" contains `xp`.
   */
  lemma OutdatedExpressMatches()
    ensures OutdatedTriggered("SQL Server 2019 Express")
  {
    var l := ToLower("SQL Server 2019 Express");
    assert l == "sql server 2019 express";
    assert l[17..19] == "xp";
    ContainsAt(l, "xp", 17);
  }

  /** "Windows 11" contains none of the four markers. */
  lemma OutdatedWindows11()
    ensures !OutdatedTriggered("Windows 11")
  {
    assert ToLower("Windows 11") == "windows 11";
    NoProductMarker("windows 11");
  }

  lemma NoProductMarker(l: string)
    requires '7' !in l && 'f' !in l && 'x' !in l && '2' !in l
    ensures !Contains(l, "windows 7") && !Contains(l, "office 2010")
    ensures !Contains(l, "xp") && !Contains(l, "2003")
  {
    assert "windows 7"[8] == '7' && "office 2010"[1] == 'f' && "xp"[0] == 'x' && "2003"[0] == '2';
    MissingChar(l, "windows 7", '7');
    MissingChar(l, "office 2010", 'f');
    MissingChar(l, "xp", 'x');
    MissingChar(l, "2003", '2');
  }
}
