/**
 * The data and the specification of the checklist variant's local analysis
 * engine (assessment.js): five technical controls plus a "scope" group, each
 * holding the answers given to its questions, and the deterministic walk that
 * turns them into critical issues, warnings, strengths, per-control scores and
 * a PASS / NEEDS_WORK / FAIL verdict.
 *
 * The functions here describe the walk one answer and one control at a time,
 * in the order the engine visits them; ChecklistEngine implements it with
 * loops and ChecklistProofs states what it computes in declarative terms.
 */
module Checklist {
  import opened Options
  import opened Text

  // ---------------------------------------------------------------------
  // Responses
  // ---------------------------------------------------------------------

  /** The six answer groups, in the order the engine walks them. */
  datatype Control = Firewalls | SecureConfig | Updates | AccessControl | Malware | Scope
  {
    /** The property name used for the control in responses, scores and issues. */
    function Key(): string {
      match this
      case Firewalls => "firewalls"
      case SecureConfig => "secureConfig"
      case Updates => "updates"
      case AccessControl => "accessControl"
      case Malware => "malware"
      case Scope => "scope"
    }

    /** The heading shown for the control. */
    function Label(): string {
      match this
      case Firewalls => "Firewalls"
      case SecureConfig => "Secure Configuration"
      case Updates => "Security Update Management"
      case AccessControl => "User Access Control"
      case Malware => "Malware Protection"
      case Scope => "Scope & Context"
    }
  }

  const ControlKeys: set<string> :=
    {"firewalls", "secureConfig", "updates", "accessControl", "malware", "scope"}

  const ControlOrder: seq<Control> :=
    [Firewalls, SecureConfig, Updates, AccessControl, Malware, Scope]

  /** The five controls that always carry a score; `Scope` gets one only when needed. */
  const ScoredControls: seq<Control> :=
    [Firewalls, SecureConfig, Updates, AccessControl, Malware]

  /** The radio values a checklist question offers. */
  datatype Value = Pass | Partial | Fail | Unsure

  /** One checked radio button: question id, chosen value, criticality, label text. */
  datatype Answer = Answer(id: string, value: Value, critical: bool, text: string)

  /**
   * What the page collects: per control, the checked answers in page order
   * (a missing control has none), and the free-text fields by name.
   */
  datatype Responses = Responses(controls: map<Control, seq<Answer>>, textInputs: map<string, string>)

  function AnswersOf(r: Responses, c: Control): seq<Answer> {
    if c in r.controls then r.controls[c] else []
  }

  /** The first answer with the given question id, as a property lookup finds it. */
  function FindAnswer(answers: seq<Answer>, id: string): (r: Option<Answer>)
    ensures r.Some? ==> r.value in answers && r.value.id == id
    ensures r.Some? ==> exists i :: 0 <= i < |answers| && answers[i] == r.value
                                    && forall j :: 0 <= j < i ==> answers[j].id != id
    ensures r.None? ==> forall a :: a in answers ==> a.id != id
    decreases |answers|
  {
    if answers == [] then None
    else if answers[0].id == id then Some(answers[0])
    else FindAnswer(answers[1..], id)
  }

  // ---------------------------------------------------------------------
  // Results
  // ---------------------------------------------------------------------

  datatype CriticalIssue = CriticalIssue(control: Control, issue: string, impact: string, action: string)

  datatype Warning = Warning(control: Control, warning: string, recommendation: string)

  /** One entry of the `scores` object, in insertion order. */
  datatype ControlScore = ControlScore(control: Control, score: real)

  /** `overallStatus`: the strings 'PASS', 'NEEDS_WORK' and 'FAIL'. */
  datatype Status = Passed | NeedsWork | Failed

  datatype AnalysisResult = AnalysisResult(
    overallStatus: Status,
    readinessScore: int,
    criticalIssuesCount: nat,
    controlScores: seq<ControlScore>,
    criticalIssues: seq<CriticalIssue>,
    warnings: seq<Warning>,
    strengths: seq<string>,
    nextSteps: seq<string>,
    summary: string,
    timeline: string)

  // ---------------------------------------------------------------------
  // The static remediation table and the fixed texts
  // ---------------------------------------------------------------------

  datatype ActionInfo = ActionInfo(fail: string, impact: string)

  /** The static remediation table (`actionMap`): the action and business impact for each question id it knows. */
  function ActionFor(id: string): Option<ActionInfo> {
    if id == "q1_1" then
      Some(ActionInfo("Enable built-in firewalls (Windows Defender Firewall, macOS Firewall) on all devices immediately",
        "Without firewalls, devices are exposed to network-based attacks"))
    else if id == "q1_2" then
      Some(ActionInfo("Change all default passwords on routers and firewalls to strong, unique passwords (12+ characters)",
        "Default passwords are publicly known and easily exploited by attackers"))
    else if id == "q1_3" then
      Some(ActionInfo("Configure firewalls to block all incoming connections by default (deny-all policy)",
        "Open firewalls allow attackers easy access to your network"))
    else if id == "q2_1" then
      Some(ActionInfo("Remove or disable all guest accounts and any unused user accounts",
        "Unused accounts are a security risk and potential entry point for attackers"))
    else if id == "q2_3" then
      Some(ActionInfo("Disable auto-run/auto-execute features in Windows and other operating systems",
        "Auto-run can execute malicious files without user permission"))
    else if id == "q2_4" then
      Some(ActionInfo("Implement authentication requirements before accessing any organizational data or services",
        "Unauthenticated access allows anyone to access sensitive business data"))
    else if id == "q2_5" then
      Some(ActionInfo("Enable screen lock on all devices with a 6+ character password or PIN",
        "Unlocked devices can be accessed by anyone with physical access"))
    else if id == "q3_1" then
      Some(ActionInfo("Replace all unsupported software immediately - this is a critical requirement",
        "Unsupported software receives no security updates and is highly vulnerable"))
    else if id == "q3_2" then
      Some(ActionInfo("Enable automatic updates on all devices and software",
        "Without automatic updates, critical security patches may be missed"))
    else if id == "q3_3" then
      Some(ActionInfo("Establish a process to apply critical/high-risk updates within 14 days of release",
        "Delayed patching leaves systems vulnerable to known exploits"))
    else if id == "q4_1" then
      Some(ActionInfo("Create individual accounts for each user - no shared logins allowed",
        "Shared accounts make it impossible to track who did what and prevent accountability"))
    else if id == "q4_2" then
      Some(ActionInfo("Implement a process to disable/remove accounts immediately when employees leave",
        "Former employees with active accounts can access sensitive data they should not have"))
    else if id == "q4_3" then
      Some(ActionInfo("Enable Multi-Factor Authentication (MFA) on ALL cloud services - this is MANDATORY",
        "Without MFA, a single stolen password gives attackers full access to cloud services"))
    else if id == "q4_4" then
      Some(ActionInfo("Create separate admin accounts used ONLY for administrative tasks",
        "Using admin accounts for daily tasks exposes high privileges to malware and phishing"))
    else if id == "q4_5" then
      Some(ActionInfo("Implement one of the required password policies: MFA + 8 chars, OR 12+ chars, OR 8+ chars with blocklist",
        "Weak passwords can be easily guessed or cracked by attackers"))
    else if id == "q5_1" then
      Some(ActionInfo("Install and activate anti-malware software on all devices OR implement application allow listing",
        "Without malware protection, your systems are vulnerable to viruses, ransomware, and other threats"))
    else if id == "q5_2" then
      Some(ActionInfo("Ensure anti-malware software is enabled and running on all devices",
        "Disabled antivirus provides no protection against malware"))
    else if id == "q5_3" then
      Some(ActionInfo("Enable automatic updates for anti-malware definitions",
        "Outdated malware definitions cannot detect new threats"))
    else if id == "q6_2" then
      Some(ActionInfo("Include ALL cloud services in scope - cloud services cannot be excluded",
        "Excluding cloud services leaves a major security gap and violates Cyber Essentials requirements"))
    else if id == "q6_backup" then
      Some(ActionInfo("Implement automated backup procedures with at least daily backups of critical data",
        "Without backups, ransomware attacks or hardware failures could result in permanent data loss"))
    else if id == "q6_incident" then
      Some(ActionInfo("Create and document an incident response plan covering detection, containment, and recovery procedures",
        "Without a plan, security incidents will be handled inconsistently, leading to longer recovery times and greater damage"))
    else None
  }

  const DefaultImpact := "This is a mandatory requirement for Cyber Essentials certification"
  const DefaultAction := "Implement this control immediately to meet certification requirements"
  const GenericRecommendation := "While not critical, addressing this will strengthen your security posture and improve certification readiness"

  /** Questions whose non-critical pass is listed as a strength. */
  const StrengthIds: set<string> := {"q4_3", "q3_2", "q1_1"}

  const OutdatedImpact := "Legacy software no longer receives security updates and must be removed or upgraded"
  const OutdatedAction := "Upgrade to supported versions or remove this software completely from all systems"

  const BackupWarning := Warning(Scope, "No regular backup procedure in place",
    "While not required for Cyber Essentials, implementing automated backups is CRITICAL for ransomware recovery and business continuity. Consider cloud backup solutions like Azure Backup, AWS Backup, or Veeam.")
  const IncidentWarning := Warning(Scope, "No documented incident response plan",
    "Create a simple incident response plan covering: 1) Who to contact, 2) How to isolate affected systems, 3) When to notify authorities, 4) Communication procedures. The NCSC provides free templates.")
  const BackupStrength := "Automated backup procedures in place with documented recovery"
  const IncidentStrength := "Documented and tested incident response plan"
  const DefaultStrength := "You've started the assessment - that's the first step!"

  // ---------------------------------------------------------------------
  // One answer
  // ---------------------------------------------------------------------

  /** A critical answer fails its control when it is `fail` or `unsure`. */
  predicate IsCriticalFailure(a: Answer) {
    a.critical && (a.value == Fail || a.value == Unsure)
  }

  /** The critical issue a failing critical answer raises, from the table or the defaults. */
  function IssueFor(c: Control, a: Answer): (r: CriticalIssue)
    ensures r.control == c && r.issue == a.text
    ensures ActionFor(a.id).Some? ==>
      r.impact == ActionFor(a.id).value.impact && r.action == ActionFor(a.id).value.fail
    ensures ActionFor(a.id).None? ==> r.impact == DefaultImpact && r.action == DefaultAction
  {
    var info := ActionFor(a.id).GetOr(ActionInfo(DefaultAction, DefaultImpact));
    CriticalIssue(c, a.text, info.impact, info.fail)
  }

  function WarningFor(c: Control, a: Answer): Warning {
    Warning(c, a.text, GenericRecommendation)
  }

  /** What the walk has built so far, and the current control's two counters. */
  datatype Walk = Walk(
    critical: seq<CriticalIssue>,
    warnings: seq<Warning>,
    strengths: seq<string>,
    failCount: nat,
    totalCritical: nat)

  /**
   * The effect of one answer of control `c`: the lists only grow, by at most
   * one entry in all, a new issue appears exactly when a critical answer fails
   * and is counted as one failure, and a failure is always a critical answer.
   */
  function AnswerStep(w: Walk, c: Control, a: Answer): (r: Walk)
    ensures w.critical <= r.critical && w.warnings <= r.warnings && w.strengths <= r.strengths
    ensures |r.critical| + |r.warnings| + |r.strengths| <= |w.critical| + |w.warnings| + |w.strengths| + 1
    ensures r.critical != w.critical <==> IsCriticalFailure(a)
    ensures |r.critical| + w.failCount == |w.critical| + r.failCount
    ensures w.failCount <= r.failCount && r.failCount - w.failCount <= r.totalCritical - w.totalCritical <= 1
  {
    if a.critical then
      if a.value == Fail || a.value == Unsure then
        w.(totalCritical := w.totalCritical + 1, failCount := w.failCount + 1,
           critical := w.critical + [IssueFor(c, a)])
      else
        w.(totalCritical := w.totalCritical + 1)
    else if a.value == Fail then
      w.(warnings := w.warnings + [WarningFor(c, a)])
    else if a.value == Pass && a.id in StrengthIds then
      w.(strengths := w.strengths + [a.text])
    else
      w
  }

  /**
   * The walk over the answers of one control, in order: the lists only grow,
   * by at most one entry per answer, with one issue per counted failure, and
   * no more failures than critical answers, nor more of those than answers.
   */
  function WalkAnswers(w: Walk, c: Control, answers: seq<Answer>): (r: Walk)
    ensures w.critical <= r.critical && w.warnings <= r.warnings && w.strengths <= r.strengths
    ensures |r.critical| + |r.warnings| + |r.strengths|
         <= |w.critical| + |w.warnings| + |w.strengths| + |answers|
    ensures |r.critical| + w.failCount == |w.critical| + r.failCount
    ensures w.failCount <= r.failCount && w.totalCritical <= r.totalCritical
    ensures r.failCount - w.failCount <= r.totalCritical - w.totalCritical <= |answers|
    decreases |answers|
  {
    if answers == [] then w
    else AnswerStep(WalkAnswers(w, c, answers[..|answers| - 1]), c, answers[|answers| - 1])
  }

  // ---------------------------------------------------------------------
  // Scores
  // ---------------------------------------------------------------------

  const InitialScores: seq<ControlScore> := [
    ControlScore(Firewalls, 100.0), ControlScore(SecureConfig, 100.0),
    ControlScore(Updates, 100.0), ControlScore(AccessControl, 100.0),
    ControlScore(Malware, 100.0)]

  function Controls(scores: seq<ControlScore>): seq<Control> {
    seq(|scores|, i requires 0 <= i < |scores| => scores[i].control)
  }

  /**
   * `max(0, 100 - failCount / totalCritical * 100)`: the share of the
   * control's critical answers that did not fail, as a percentage.
   */
  function ScoreValue(failCount: nat, totalCritical: nat): (s: real)
    requires 0 < totalCritical
    ensures failCount <= totalCritical ==> 0.0 <= s <= 100.0
    ensures failCount <= totalCritical ==>
      s * totalCritical as real == 100.0 * (totalCritical - failCount) as real
    ensures failCount == 0 ==> s == 100.0
  {
    var raw := 100.0 - (failCount as real / totalCritical as real * 100.0);
    if raw < 0.0 then 0.0 else raw
  }

  /**
   * Assigning `scores[c] = v`: overwrites the entry of `c` where it is, or
   * appends a new one when the object has no such key yet.
   */
  function SetScore(scores: seq<ControlScore>, c: Control, v: real): (r: seq<ControlScore>)
    ensures c in Controls(scores) ==> |r| == |scores|
    ensures c !in Controls(scores) ==> r == scores + [ControlScore(c, v)]
    ensures forall i :: 0 <= i < |scores| ==>
      r[i] == if scores[i].control == c && c !in Controls(scores[..i]) then ControlScore(c, v) else scores[i]
    decreases |scores|
  {
    if scores == [] then [ControlScore(c, v)]
    else
      ControlsPrefixCons(scores);
      if scores[0].control == c then
        [ControlScore(c, v)] + scores[1..]
      else
        [scores[0]] + SetScore(scores[1..], c, v)
  }

  lemma ControlsPrefixCons(scores: seq<ControlScore>)
    requires scores != []
    ensures Controls(scores) == [scores[0].control] + Controls(scores[1..])
    ensures forall i :: 1 <= i <= |scores| ==>
      Controls(scores[..i]) == [scores[0].control] + Controls(scores[1..][..i - 1])
  {
    forall i | 1 <= i <= |scores|
      ensures Controls(scores[..i]) == [scores[0].control] + Controls(scores[1..][..i - 1])
    {
      assert scores[..i][1..] == scores[1..][..i - 1];
    }
    assert scores[..|scores|] == scores;
  }

  function Sum(scores: seq<ControlScore>): real
    decreases |scores|
  {
    if scores == [] then 0.0 else scores[0].score + Sum(scores[1..])
  }

  /** `Object.values(scores).reduce(+) / Object.keys(scores).length`. */
  function Mean(scores: seq<ControlScore>): real
    requires scores != []
  {
    Sum(scores) / |scores| as real
  }

  /** `Math.round` of a non-negative number: halves round up. */
  function Round(x: real): (n: int)
    ensures n as real <= x + 0.5 < n as real + 1.0
  {
    (x + 0.5).Floor
  }

  // ---------------------------------------------------------------------
  // All controls
  // ---------------------------------------------------------------------

  /** The walk's running state between controls. */
  datatype Acc = Acc(
    critical: seq<CriticalIssue>,
    warnings: seq<Warning>,
    strengths: seq<string>,
    scores: seq<ControlScore>)

  const InitialAcc := Acc([], [], [], InitialScores)

  /**
   * One control: walk its answers with fresh counters, then set its score if
   * it had critical answers. The lists only grow, and the scores object keeps
   * its keys in place and gains at most the key of `c`.
   */
  function ControlStep(acc: Acc, c: Control, r: Responses): (a: Acc)
    ensures acc.critical <= a.critical && acc.warnings <= a.warnings && acc.strengths <= a.strengths
    ensures |acc.scores| <= |a.scores| <= |acc.scores| + 1
    ensures Controls(a.scores)[..|acc.scores|] == Controls(acc.scores)
    ensures |a.scores| > |acc.scores| ==> c !in Controls(acc.scores) && a.scores[|acc.scores|].control == c
  {
    var w := WalkAnswers(Walk(acc.critical, acc.warnings, acc.strengths, 0, 0), c, AnswersOf(r, c));
    var scores :=
      if w.totalCritical > 0 then SetScore(acc.scores, c, ScoreValue(w.failCount, w.totalCritical))
      else acc.scores;
    assert Controls(scores)[..|acc.scores|] == Controls(acc.scores) by {
      forall i | 0 <= i < |acc.scores|
        ensures Controls(scores)[i] == Controls(acc.scores)[i]
      {
        assert scores[i].control == acc.scores[i].control;
      }
    }
    Acc(w.critical, w.warnings, w.strengths, scores)
  }

  /** The walk over the controls, in order: the issue, warning and strength lists only grow. */
  function WalkControls(acc: Acc, cs: seq<Control>, r: Responses): (a: Acc)
    ensures acc.critical <= a.critical && acc.warnings <= a.warnings && acc.strengths <= a.strengths
    decreases |cs|
  {
    if cs == [] then acc
    else ControlStep(WalkControls(acc, cs[..|cs| - 1], r), cs[|cs| - 1], r)
  }

  // ---------------------------------------------------------------------
  // The outdated-software keyword check
  // ---------------------------------------------------------------------

  function OutdatedText(r: Responses): string {
    if "outdatedSoftware" in r.textInputs then r.textInputs["outdatedSoftware"] else ""
  }

  /** The lower-cased field is non-empty, not `none`, and names a known end-of-life product. */
  predicate OutdatedTriggered(text: string) {
    var l := ToLower(text);
    l != "" && l != "none" &&
    (Contains(l, "windows 7") || Contains(l, "office 2010") || Contains(l, "xp") || Contains(l, "2003"))
  }

  function OutdatedIssue(text: string): CriticalIssue {
    CriticalIssue(Updates, "Outdated software identified: " + text, OutdatedImpact, OutdatedAction)
  }

  /**
   * At most one issue, present exactly when the check fires, filed under
   * `updates` and quoting the field as typed (not lower-cased).
   */
  function OutdatedIssues(r: Responses): (s: seq<CriticalIssue>)
    ensures |s| <= 1
    ensures s != [] <==> OutdatedTriggered(OutdatedText(r))
    ensures s != [] ==> s[0].control == Updates && s[0].issue == "Outdated software identified: " + OutdatedText(r)
  {
    if OutdatedTriggered(OutdatedText(r)) then [OutdatedIssue(OutdatedText(r))] else []
  }

  // ---------------------------------------------------------------------
  // Backup and incident-response questions
  // ---------------------------------------------------------------------

  predicate ScopeAnswerIs(r: Responses, id: string, v: Value) {
    var a := FindAnswer(AnswersOf(r, Scope), id);
    a.Some? && a.value.value == v
  }

  /** The backup and incident warnings, each present exactly when its `scope` answer is `fail`. */
  function ExtraWarnings(r: Responses): (w: seq<Warning>)
    ensures |w| <= 2 && forall i :: 0 <= i < |w| ==> w[i].control == Scope
    ensures BackupWarning in w <==> ScopeAnswerIs(r, "q6_backup", Fail)
    ensures IncidentWarning in w <==> ScopeAnswerIs(r, "q6_incident", Fail)
    ensures |w| == (if ScopeAnswerIs(r, "q6_backup", Fail) then 1 else 0)
                 + (if ScopeAnswerIs(r, "q6_incident", Fail) then 1 else 0)
    ensures |w| == 2 ==> w == [BackupWarning, IncidentWarning]
  {
    assert BackupWarning.warning[3] != IncidentWarning.warning[3];
    (if ScopeAnswerIs(r, "q6_backup", Fail) then [BackupWarning] else []) +
    (if ScopeAnswerIs(r, "q6_incident", Fail) then [IncidentWarning] else [])
  }

  /** The backup and incident strengths, each present exactly when its `scope` answer is `pass`. */
  function ExtraStrengths(r: Responses): (s: seq<string>)
    ensures |s| <= 2
    ensures BackupStrength in s <==> ScopeAnswerIs(r, "q6_backup", Pass)
    ensures IncidentStrength in s <==> ScopeAnswerIs(r, "q6_incident", Pass)
    ensures |s| == (if ScopeAnswerIs(r, "q6_backup", Pass) then 1 else 0)
                 + (if ScopeAnswerIs(r, "q6_incident", Pass) then 1 else 0)
    ensures |s| == 2 ==> s == [BackupStrength, IncidentStrength]
  {
    assert |BackupStrength| != |IncidentStrength|;
    (if ScopeAnswerIs(r, "q6_backup", Pass) then [BackupStrength] else []) +
    (if ScopeAnswerIs(r, "q6_incident", Pass) then [IncidentStrength] else [])
  }

  // ---------------------------------------------------------------------
  // Verdict, next steps, summary and timeline
  // ---------------------------------------------------------------------

  function Verdict(criticalCount: nat, warningCount: nat): (s: Status)
    ensures s == Failed <==> criticalCount > 0
    ensures s == NeedsWork <==> criticalCount == 0 && warningCount > 0
    ensures s == Passed <==> criticalCount == 0 && warningCount == 0
  {
    if criticalCount == 0 then (if warningCount == 0 then Passed else NeedsWork) else Failed
  }

  const StepAddressCritical := "Address all critical issues immediately - these will prevent certification"
  const StepFocusControls := "Focus on the 5 technical controls in priority order"
  const StepReviewWarnings := "Review and resolve warning items to strengthen security"
  const StepDocument := "Document all security measures and policies"
  const StepContactBody := "Contact a Cyber Essentials Certification Body to schedule assessment"

  /** The remediation steps: two for critical issues, one for warnings, and the two closing steps. */
  function NextSteps(criticalCount: nat, warningCount: nat): (r: seq<string>)
    ensures |r| == 2 + (if criticalCount > 0 then 2 else 0) + (if warningCount > 0 then 1 else 0)
    ensures r[|r| - 2..] == [StepDocument, StepContactBody]
    ensures criticalCount > 0 <==> r[0] == StepAddressCritical
    ensures criticalCount > 0 ==> r[1] == StepFocusControls
    ensures warningCount > 0 <==> StepReviewWarnings in r
  {
    (if criticalCount > 0 then [StepAddressCritical, StepFocusControls] else []) +
    (if warningCount > 0 then [StepReviewWarnings] else []) +
    [StepDocument, StepContactBody]
  }

  const PassSummary := "Excellent work! Your organization appears ready for Cyber Essentials certification. You've implemented the core controls effectively and should contact a Certification Body to begin the formal assessment process."
  const NeedsWorkSummary := "You're on the right track but have some areas to improve. While you've avoided critical failures, addressing the warning items will strengthen your security posture and improve your chances of passing certification."
  const FailSummaryTail := "that must be resolved before certification. Focus on implementing the mandatory controls first, then address the remaining gaps. With focused effort, you can achieve certification readiness."

  function FailSummaryPrefix(criticalCount: nat): string {
    "Your organization has " + NatToString(criticalCount) + " critical issue"
  }

  /** The summary sentence; the FAIL form writes "issues" exactly when the count exceeds one. */
  function Summary(status: Status, criticalCount: nat): (r: string)
    ensures status == Passed ==> r == PassSummary
    ensures status == NeedsWork ==> r == NeedsWorkSummary
    ensures status == Failed ==>
      var p := FailSummaryPrefix(criticalCount);
      StartsWith(r, p) && |r| > |p| && (r[|p|] == 's' <==> criticalCount > 1)
  {
    match status
    case Passed => PassSummary
    case NeedsWork => NeedsWorkSummary
    case Failed =>
      var p := FailSummaryPrefix(criticalCount);
      var r := p + (if criticalCount > 1 then "s " else " ") + FailSummaryTail;
      assert r[..|p|] == p;
      assert r[|p|] == if criticalCount > 1 then 's' else ' ';
      r
  }

  const TimelineReady := "Ready now - contact a Certification Body"
  const TimelineWarnings := "1-2 weeks to address warnings"
  const TimelineShort := "2-4 weeks with focused effort"
  const TimelineMedium := "1-2 months with dedicated resources"
  const TimelineLong := "2-3 months - significant work needed"

  /** The estimates from shortest to longest. */
  const TimelineScale: seq<string> :=
    [TimelineReady, TimelineWarnings, TimelineShort, TimelineMedium, TimelineLong]

  /** The time-to-readiness estimate, a step function of the two counts. */
  function Timeline(criticalCount: nat, warningCount: nat): (r: string)
    ensures r in TimelineScale
    ensures r == TimelineReady <==> criticalCount == 0 && warningCount == 0
    ensures r == TimelineWarnings <==> criticalCount == 0 && warningCount > 0
    ensures r == TimelineShort <==> 1 <= criticalCount <= 3
    ensures r == TimelineMedium <==> 4 <= criticalCount <= 7
    ensures r == TimelineLong <==> criticalCount > 7
  {
    if criticalCount == 0 && warningCount == 0 then TimelineReady
    else if criticalCount == 0 then TimelineWarnings
    else if criticalCount <= 3 then TimelineShort
    else if criticalCount <= 7 then TimelineMedium
    else TimelineLong
  }

  // ---------------------------------------------------------------------
  // The whole analysis
  // ---------------------------------------------------------------------

  /** The result record built from the walk's lists and scores. */
  function Assemble(critical: seq<CriticalIssue>, warnings: seq<Warning>, strengths: seq<string>,
                    scores: seq<ControlScore>): (a: AnalysisResult)
    requires scores != []
    ensures a.criticalIssues == critical && a.warnings == warnings && a.controlScores == scores
    ensures a.criticalIssuesCount == |a.criticalIssues|
    ensures a.strengths != [] && (strengths != [] ==> a.strengths == strengths)
    ensures a.overallStatus == Failed <==> critical != []
    ensures a.overallStatus == Passed <==> critical == [] && warnings == []
    ensures a.timeline == TimelineReady <==> a.overallStatus == Passed
    ensures a.readinessScore as real <= Mean(scores) + 0.5 < a.readinessScore as real + 1.0
  {
    var status := Verdict(|critical|, |warnings|);
    AnalysisResult(
      status,
      Round(Mean(scores)),
      |critical|,
      scores,
      critical,
      warnings,
      if strengths == [] then [DefaultStrength] else strengths,
      NextSteps(|critical|, |warnings|),
      Summary(status, |critical|),
      Timeline(|critical|, |warnings|))
  }

  /** The walk never removes or moves a key of the scores object: the initial keys stay first, in order. */
  lemma {:induction false} WalkKeepsScores(acc: Acc, cs: seq<Control>, r: Responses)
    ensures |WalkControls(acc, cs, r).scores| >= |acc.scores|
    ensures Controls(WalkControls(acc, cs, r).scores)[..|acc.scores|] == Controls(acc.scores)
    decreases |cs|
  {
    if cs != [] {
      WalkKeepsScores(acc, cs[..|cs| - 1], r);
      var mid := WalkControls(acc, cs[..|cs| - 1], r).scores;
      var last := WalkControls(acc, cs, r).scores;
      assert Controls(last)[..|mid|] == Controls(mid);
      assert Controls(last)[..|acc.scores|] == Controls(last)[..|mid|][..|acc.scores|];
    }
  }

  /** In the real walk, the five technical controls stay the first five keys of the scores object. */
  lemma InitialKeysFirst(r: Responses)
    ensures |WalkControls(InitialAcc, ControlOrder, r).scores| >= 5
    ensures Controls(WalkControls(InitialAcc, ControlOrder, r).scores)[..5] == ScoredControls
  {
    WalkKeepsScores(InitialAcc, ControlOrder, r);
    assert Controls(InitialScores) == ScoredControls;
  }

  /**
   * The specification of `performLocalAnalysis`. The result's own fields
   * agree: the count is the number of issues, strengths are never empty, the
   * five technical controls head the scores object, and PASS means no issue
   * and no warning.
   */
  function LocalAnalysis(r: Responses): (a: AnalysisResult)
    ensures a.criticalIssuesCount == |a.criticalIssues| && a.strengths != []
    ensures |a.controlScores| >= 5 && Controls(a.controlScores)[..5] == ScoredControls
    ensures a.overallStatus == Passed <==> a.criticalIssues == [] && a.warnings == []
  {
    var acc := WalkControls(InitialAcc, ControlOrder, r);
    InitialKeysFirst(r);
    Assemble(acc.critical + OutdatedIssues(r),
             acc.warnings + ExtraWarnings(r),
             acc.strengths + ExtraStrengths(r),
             acc.scores)
  }

  // ---------------------------------------------------------------------
  // Display helpers
  // ---------------------------------------------------------------------

  /** `formatControlName`: the heading of a known control key, any other key unchanged. */
  function FormatControlName(key: string): (r: string)
    ensures forall c: Control :: key == c.Key() ==> r == c.Label()
    ensures key !in ControlKeys ==> r == key
  {
    if key == "firewalls" then "Firewalls"
    else if key == "secureConfig" then "Secure Configuration"
    else if key == "updates" then "Security Update Management"
    else if key == "accessControl" then "User Access Control"
    else if key == "malware" then "Malware Protection"
    else if key == "scope" then "Scope & Context"
    else key
  }

  /** `escapeHtml`: `null`/`undefined` give the empty string, otherwise the five global replacements in order. */
  function EscapeHtml(s: Option<string>): (r: string)
    ensures s.None? ==> r == ""
  {
    match s
    case None => ""
    case Some(t) => ReplaceEach(t, HtmlEntities)
  }

  /** Escaping loses nothing: decoding the five entities gives the original text back. */
  lemma EscapeHtmlRoundTrip(s: string)
    ensures Unescape(EscapeHtml(Some(s))) == s
  {
    HtmlEntitiesChainable(5);
    assert HtmlEntities[..5] == HtmlEntities;
    ReplaceEachPerChar(s, HtmlEntities);
    UnescapeEscape(s, 5);
  }

  /** The escaped text holds no `<`, `>`, `"` or `'`, and each character becomes its own entity. */
  lemma EscapeHtmlMarkupFree(s: string)
    ensures var r := EscapeHtml(Some(s));
      '<' !in r && '>' !in r && '"' !in r && '\'' !in r
    ensures |s| == 1 ==>
      EscapeHtml(Some(s)) ==
        (if s[0] == '&' then "&amp;" else if s[0] == '<' then "&lt;" else if s[0] == '>' then "&gt;"
         else if s[0] == '"' then "&quot;" else if s[0] == '\'' then "&#039;" else s)
  {
    HtmlEntitiesChainable(5);
    assert HtmlEntities[..5] == HtmlEntities;
    ReplaceEachPerChar(s, HtmlEntities);
    EscapeRemoves(s, 5, 1);
    EscapeRemoves(s, 5, 2);
    EscapeRemoves(s, 5, 3);
    EscapeRemoves(s, 5, 4);
    if |s| == 1 {
      HtmlEntityFor(s[0], 5);
      assert s[1..] == [];
    }
  }
}
