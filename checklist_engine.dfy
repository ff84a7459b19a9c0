/**
 * The checklist engine as assessment.js runs it: `performLocalAnalysis`
 * pushes onto its issue, warning and strength lists inside two nested loops
 * and overwrites entries of its `scores` object, and `generateNextSteps`
 * appends to a local list. Each method is proved to compute exactly the
 * specification function of the same name in module Checklist.
 */
module ChecklistEngine {
  import opened Options
  import opened Text
  import opened Checklist

  /** `generateNextSteps`: the remediation steps for the given issue and warning lists. */
  method GenerateNextSteps(criticalIssues: seq<CriticalIssue>, warnings: seq<Warning>)
    returns (steps: seq<string>)
    ensures steps == NextSteps(|criticalIssues|, |warnings|)
  {
    steps := [];
    if |criticalIssues| > 0 {
      steps := steps + [StepAddressCritical];
      steps := steps + [StepFocusControls];
    }
    if |warnings| > 0 {
      steps := steps + [StepReviewWarnings];
    }
    steps := steps + [StepDocument];
    steps := steps + [StepContactBody];
  }

  /**
   * The callback of the inner `forEach`: one answer of `control` either
   * counts as a critical answer (and, when `fail` or `unsure`, raises a
   * critical issue), raises a generic warning (non-critical `fail`), or
   * records its text as a strength (non-critical `pass` on an allow-listed
   * question).
   */
  method HandleAnswer(control: Control, answer: Answer,
                      critical0: seq<CriticalIssue>, warnings0: seq<Warning>, strengths0: seq<string>,
                      failCount0: nat, totalCritical0: nat)
    returns (criticalFailures: seq<CriticalIssue>, warnings: seq<Warning>, strengths: seq<string>,
             failCount: nat, totalCritical: nat)
    ensures Walk(criticalFailures, warnings, strengths, failCount, totalCritical)
            == AnswerStep(Walk(critical0, warnings0, strengths0, failCount0, totalCritical0), control, answer)
  {
    criticalFailures, warnings, strengths := critical0, warnings0, strengths0;
    failCount, totalCritical := failCount0, totalCritical0;
    if answer.critical {
      totalCritical := totalCritical + 1;
      if answer.value == Fail || answer.value == Unsure {
        failCount := failCount + 1;
        criticalFailures := criticalFailures + [IssueFor(control, answer)];
      }
    } else if answer.value == Fail {
      warnings := warnings + [WarningFor(control, answer)];
    } else if answer.value == Pass {
      if answer.id == "q4_3" || answer.id == "q3_2" || answer.id == "q1_1" {
        strengths := strengths + [answer.text];
      }
    }
  }

  /**
   * The inner `forEach` of `performLocalAnalysis` over one control's answers:
   * appends to the three lists and counts the control's critical answers and
   * its failing ones.
   */
  method WalkControl(control: Control, controlResponses: seq<Answer>,
                     critical0: seq<CriticalIssue>, warnings0: seq<Warning>, strengths0: seq<string>)
    returns (criticalFailures: seq<CriticalIssue>, warnings: seq<Warning>, strengths: seq<string>,
             failCount: nat, totalCritical: nat)
    ensures Walk(criticalFailures, warnings, strengths, failCount, totalCritical)
            == WalkAnswers(Walk(critical0, warnings0, strengths0, 0, 0), control, controlResponses)
  {
    criticalFailures, warnings, strengths := critical0, warnings0, strengths0;
    failCount, totalCritical := 0, 0;
    var i := 0;
    while i < |controlResponses|
      invariant 0 <= i <= |controlResponses|
      invariant Walk(criticalFailures, warnings, strengths, failCount, totalCritical)
                == WalkAnswers(Walk(critical0, warnings0, strengths0, 0, 0), control, controlResponses[..i])
    {
      criticalFailures, warnings, strengths, failCount, totalCritical :=
        HandleAnswer(control, controlResponses[i], criticalFailures, warnings, strengths, failCount, totalCritical);
      assert controlResponses[..i + 1][..i] == controlResponses[..i];
      i := i + 1;
    }
    assert controlResponses[..i] == controlResponses;
  }

  /**
   * The keyword check on the outdated-software field: one extra critical
   * issue under `updates` when the lower-cased text names a known
   * end-of-life product.
   */
  method CheckOutdatedSoftware(r: Responses, criticalFailures: seq<CriticalIssue>)
    returns (result: seq<CriticalIssue>)
    ensures result == criticalFailures + OutdatedIssues(r)
  {
    result := criticalFailures;
    var outdatedText := OutdatedText(r);
    var outdatedSoftware := ToLower(outdatedText);
    if outdatedSoftware != "" && outdatedSoftware != "none" &&
       (Contains(outdatedSoftware, "windows 7") || Contains(outdatedSoftware, "office 2010") ||
        Contains(outdatedSoftware, "xp") || Contains(outdatedSoftware, "2003")) {
      result := result + [OutdatedIssue(outdatedText)];
    }
  }

  /** The fixed warnings and strengths for the backup and incident-response answers. */
  method CheckBackupAndIncident(r: Responses, warnings: seq<Warning>, strengths: seq<string>)
    returns (warnings': seq<Warning>, strengths': seq<string>)
    ensures warnings' == warnings + ExtraWarnings(r)
    ensures strengths' == strengths + ExtraStrengths(r)
  {
    warnings', strengths' := warnings, strengths;
    var backupResponse := FindAnswer(AnswersOf(r, Scope), "q6_backup");
    if backupResponse.Some? && backupResponse.value.value == Fail {
      warnings' := warnings' + [BackupWarning];
    }
    var incidentResponse := FindAnswer(AnswersOf(r, Scope), "q6_incident");
    if incidentResponse.Some? && incidentResponse.value.value == Fail {
      warnings' := warnings' + [IncidentWarning];
    }
    if backupResponse.Some? && backupResponse.value.value == Pass {
      strengths' := strengths' + [BackupStrength];
    }
    if incidentResponse.Some? && incidentResponse.value.value == Pass {
      strengths' := strengths' + [IncidentStrength];
    }
  }

  /**
   * The outer `forEach` of `performLocalAnalysis` over the six controls: the
   * answer walk of each control, then its score entry when it has critical
   * answers.
   */
  method WalkAllControls(r: Responses)
    returns (criticalFailures: seq<CriticalIssue>, warnings: seq<Warning>, strengths: seq<string>,
             scores: seq<ControlScore>)
    ensures Acc(criticalFailures, warnings, strengths, scores) == WalkControls(InitialAcc, ControlOrder, r)
  {
    criticalFailures, warnings, strengths := [], [], [];
    scores := InitialScores;
    var k := 0;
    while k < |ControlOrder|
      invariant 0 <= k <= |ControlOrder|
      invariant Acc(criticalFailures, warnings, strengths, scores)
                == WalkControls(InitialAcc, ControlOrder[..k], r)
    {
      var control := ControlOrder[k];
      var controlResponses := AnswersOf(r, control);
      ghost var before := Acc(criticalFailures, warnings, strengths, scores);
      var failCount, totalCritical;
      criticalFailures, warnings, strengths, failCount, totalCritical :=
        WalkControl(control, controlResponses, criticalFailures, warnings, strengths);
      if totalCritical > 0 {
        scores := SetScore(scores, control, ScoreValue(failCount, totalCritical));
      }
      assert Acc(criticalFailures, warnings, strengths, scores) == ControlStep(before, control, r);
      assert ControlOrder[..k + 1][..k] == ControlOrder[..k];
      k := k + 1;
    }
    assert ControlOrder[..k] == ControlOrder;
  }

  /** The `return` of `performLocalAnalysis`: verdict, mean score, steps, summary and timeline. */
  method BuildResult(criticalFailures: seq<CriticalIssue>, warnings: seq<Warning>, strengths: seq<string>,
                     scores: seq<ControlScore>)
    returns (result: AnalysisResult)
    requires scores != []
    ensures result == Assemble(criticalFailures, warnings, strengths, scores)
  {
    var avgScore := Mean(scores);
    var overallStatus :=
      if |criticalFailures| == 0 then (if |warnings| == 0 then Passed else NeedsWork) else Failed;
    var nextSteps := GenerateNextSteps(criticalFailures, warnings);
    result := AnalysisResult(
      overallStatus,
      Round(avgScore),
      |criticalFailures|,
      scores,
      criticalFailures,
      warnings,
      if |strengths| > 0 then strengths else [DefaultStrength],
      nextSteps,
      Summary(overallStatus, |criticalFailures|),
      Timeline(|criticalFailures|, |warnings|));
  }

  /** `performLocalAnalysis`: the deterministic fallback analysis of a checklist response set. */
  method PerformLocalAnalysis(r: Responses) returns (result: AnalysisResult)
    ensures result == LocalAnalysis(r)
  {
    var criticalFailures, warnings, strengths, scores := WalkAllControls(r);
    WalkKeepsScores(InitialAcc, ControlOrder, r);
    criticalFailures := CheckOutdatedSoftware(r, criticalFailures);
    warnings, strengths := CheckBackupAndIncident(r, warnings, strengths);
    result := BuildResult(criticalFailures, warnings, strengths, scores);
  }
}
