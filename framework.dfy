/**
 * The framework self-assessment scorer of caf-assessment.js: fourteen fixed
 * sections, radio answers mapped to points and averaged per section, an
 * overall score over the sections that have data, four objectives rolled up
 * from their sections, and the local result shown when the remote analysis
 * is unavailable.  Also the page's progress badge, rating colour and HTML
 * escaping.
 *
 * A score map is a sequence aligned with `SectionIds` (the JavaScript object
 * is filled in that key order); `None` stands for `null`.
 */
module Framework {
  import opened Options
  import opened Text

  // ---------------------------------------------------------------------
  // Sections and progress
  // ---------------------------------------------------------------------

  const SectionIds: seq<string> :=
    ["A1", "A2", "A3", "A4", "B1", "B2", "B3", "B4", "B5", "B6", "C1", "C2", "D1", "D2"]

  /** How many questions each section asks, aligned with `SectionIds`. */
  const SectionCounts: seq<nat> := [6, 4, 3, 4, 4, 8, 10, 8, 6, 4, 12, 4, 6, 4]

  function Total(counts: seq<nat>): nat
    decreases |counts|
  {
    if counts == [] then 0 else Total(counts[..|counts| - 1]) + counts[|counts| - 1]
  }

  const TotalQuestions: nat := Total(SectionCounts)

  /** The class a section's progress badge carries; `Unmarked` has none of the three. */
  datatype Badge = Unmarked | Started | Partial | Complete
  {
    /** How far along the badge says the section is. */
    function Rank(): nat {
      match this
      case Unmarked => 0
      case Started => 1
      case Partial => 2
      case Complete => 3
    }
  }

  /** The badge rule of `updateProgress`; `expected / 2` is a JavaScript (real) division. */
  function ProgressBadge(answered: nat, expected: nat): (b: Badge)
    ensures b == Complete <==> answered == expected
    ensures b == Unmarked <==> answered == 0 < expected
    ensures b == Partial <==> answered != expected && 0 < answered && expected <= 2 * answered
    ensures b == Started <==> answered != expected && 0 < answered && 2 * answered < expected
  {
    if answered == expected then Complete
    else if answered > 0 then (if answered as real >= expected as real / 2.0 then Partial else Started)
    else Unmarked
  }

  // ---------------------------------------------------------------------
  // Section scores
  // ---------------------------------------------------------------------

  /** `SCORE_MAP`: the points of an answer, `None` for `na` and for any value not in the table. */
  function Points(v: string): (p: Option<nat>)
    ensures p.Some? <==> v == "achieved" || v == "partial" || v == "not-achieved"
    ensures p.Some? ==> p.value <= 100
  {
    if v == "achieved" then Some(100)
    else if v == "partial" then Some(50)
    else if v == "not-achieved" then Some(0)
    else None
  }

  /** The points of the scorable answers, in order. */
  function Scorable(values: seq<string>): (r: seq<nat>)
    ensures |r| <= |values|
    ensures forall i :: 0 <= i < |r| ==> r[i] <= 100
    decreases |values|
  {
    if values == [] then []
    else
      var last := values[|values| - 1];
      Scorable(values[..|values| - 1]) + (match Points(last) case Some(p) => [p] case None => [])
  }

  function Sum(xs: seq<nat>): nat
    decreases |xs|
  {
    if xs == [] then 0 else Sum(xs[..|xs| - 1]) + xs[|xs| - 1]
  }

  function Mean(xs: seq<nat>): real
    requires xs != []
  {
    Sum(xs) as real / |xs| as real
  }

  /** `Math.round(sum / n)`: the integer nearest the mean, halves rounded up. */
  function RoundedMean(xs: seq<nat>): (r: nat)
    requires xs != []
    ensures r as real <= Mean(xs) + 0.5 < r as real + 1.0
  {
    var n := |xs|;
    var q := (2 * Sum(xs) + n) / (2 * n);
    RoundedQuotient(Sum(xs), n, q);
    q
  }

  lemma RoundedQuotient(s: nat, n: nat, q: nat)
    requires n > 0 && q == (2 * s + n) / (2 * n)
    ensures q as real <= s as real / n as real + 0.5 < q as real + 1.0
  {
    DivBounds(2 * s + n, 2 * n);
    CastMul(q, 2 * n);
    CastMul(q + 1, 2 * n);
    assert (2 * n) as real == 2.0 * n as real;
    RealRound(q as real, s as real, n as real);
  }

  lemma RealRound(q: real, s: real, n: real)
    requires n > 0.0 && q * (2.0 * n) <= 2.0 * s + n < (q + 1.0) * (2.0 * n)
    ensures q <= s / n + 0.5 < q + 1.0
  {
    var x := s / n;
    assert x * n == s;
    var scaled := (x + 0.5) * (2.0 * n);
    assert scaled == 2.0 * s + n;
    assert q * (2.0 * n) <= scaled < (q + 1.0) * (2.0 * n);
    MulLeCancel(q, x + 0.5, 2.0 * n);
    MulLtCancel(x + 0.5, q + 1.0, 2.0 * n);
  }

  lemma DivBounds(a: nat, d: nat)
    requires d > 0
    ensures (a / d) * d <= a < (a / d + 1) * d
  {
    assert a == d * (a / d) + a % d;
  }

  lemma CastMul(a: int, b: int)
    ensures (a * b) as real == a as real * b as real
  {
  }

  lemma MulLeCancel(a: real, b: real, c: real)
    requires c > 0.0 && a * c <= b * c
    ensures a <= b
  {
  }

  lemma MulLtCancel(a: real, b: real, c: real)
    requires c > 0.0 && a * c < b * c
    ensures a < b
  {
  }

  /** A mean of values in `[lo, hi]` rounds to a value in `[lo, hi]`. */
  lemma RoundedMeanBounds(xs: seq<nat>, lo: nat, hi: nat)
    requires xs != []
    requires forall i :: 0 <= i < |xs| ==> lo <= xs[i] <= hi
    ensures lo <= RoundedMean(xs) <= hi
  {
    SumBounds(xs, lo, hi);
    QuotientBounds(Sum(xs), |xs|, lo, hi);
  }

  lemma QuotientBounds(s: nat, n: nat, lo: nat, hi: nat)
    requires n > 0 && lo * n <= s <= hi * n
    ensures lo as real <= s as real / n as real <= hi as real
  {
    var x := s as real / n as real;
    assert x * n as real == s as real;
    CastMul(lo, n);
    CastMul(hi, n);
    MulLeCancel(lo as real, x, n as real);
    MulLeCancel(x, hi as real, n as real);
  }

  lemma {:induction false} SumBounds(xs: seq<nat>, lo: nat, hi: nat)
    requires forall i :: 0 <= i < |xs| ==> lo <= xs[i] <= hi
    ensures lo * |xs| <= Sum(xs) <= hi * |xs|
    decreases |xs|
  {
    if xs != [] {
      var k := |xs| - 1;
      SumBounds(xs[..k], lo, hi);
      assert lo * |xs| == lo * k + lo && hi * |xs| == hi * k + hi;
    }
  }

  /**
   * One section's score: the rounded mean of its scorable answers, or `None`
   * when it has none (so a section answered only with `na` has no score).
   */
  function SectionScore(values: seq<string>): (r: Option<nat>)
    ensures r.None? <==> Scorable(values) == []
    ensures r.Some? ==> r.value <= 100
  {
    var points := Scorable(values);
    if points == [] then None
    else
      RoundedMeanBounds(points, 0, 100);
      Some(RoundedMean(points))
  }

  /** The answers of each section: the values of its checked radios, in any order. */
  type Responses = map<string, seq<string>>

  /** `responses[id] || {}`. */
  function AnswersIn(responses: Responses, id: string): seq<string> {
    if id in responses then responses[id] else []
  }

  type ScoreMap = m: seq<Option<nat>> | |m| == 14
    witness [None, None, None, None, None, None, None, None, None, None, None, None, None, None]

  /** `buildScores`: one entry per section, in `SectionIds` order. */
  function BuildScores(responses: Responses): (m: ScoreMap)
    ensures forall i :: 0 <= i < |m| ==> m[i] == SectionScore(AnswersIn(responses, SectionIds[i]))
  {
    seq(14, i requires 0 <= i < 14 => SectionScore(AnswersIn(responses, SectionIds[i])))
  }

  // ---------------------------------------------------------------------
  // Overall score and ratings
  // ---------------------------------------------------------------------

  /** The non-null scores, in order. */
  function Present(m: seq<Option<nat>>): (r: seq<nat>)
    ensures |r| <= |m|
    ensures r == [] <==> forall i :: 0 <= i < |m| ==> m[i].None?
    decreases |m|
  {
    if m == [] then []
    else
      var init := m[..|m| - 1];
      var r := Present(init) + (match m[|m| - 1] case Some(v) => [v] case None => []);
      assert forall i :: 0 <= i < |init| ==> init[i] == m[i];
      r
  }

  /** `overallScore`: the rounded mean of the non-null scores, and 0 (not `null`) when there are none. */
  function OverallScore(m: seq<Option<nat>>): (r: nat)
    ensures (forall i :: 0 <= i < |m| ==> m[i].None?) ==> r == 0
    ensures Present(m) != [] ==> r == RoundedMean(Present(m))
  {
    var values := Present(m);
    if values == [] then 0 else RoundedMean(values)
  }

  const Achieved := "Achieved"
  const PartiallyAchieved := "Partially Achieved"
  const NotAchieved := "Not Achieved"
  const NotAttempted := "Not Attempted"

  /** The 70/40 thresholds applied to the overall score and to each objective. */
  function Rating(score: int): (r: string)
    ensures r == Achieved <==> score >= 70
    ensures r == PartiallyAchieved <==> 40 <= score < 70
    ensures r == NotAchieved <==> score < 40
  {
    if score >= 70 then Achieved else if score >= 40 then PartiallyAchieved else NotAchieved
  }

  /** The four objectives and their sections. */
  const Objectives: seq<(string, seq<string>)> :=
    [("A", ["A1", "A2", "A3", "A4"]), ("B", ["B1", "B2", "B3", "B4", "B5", "B6"]),
     ("C", ["C1", "C2"]), ("D", ["D1", "D2"])]

  function IndexOf(ids: seq<string>, id: string): (r: Option<nat>)
    ensures r.Some? ==> r.value < |ids| && ids[r.value] == id
    ensures r.None? ==> id !in ids
    decreases |ids|
  {
    if ids == [] then None
    else if ids[0] == id then Some(0)
    else match IndexOf(ids[1..], id)
      case None => None
      case Some(k) => Some(k + 1)
  }

  /** `scoreMap[id]`. */
  function ScoreFor(m: ScoreMap, id: string): Option<nat> {
    match IndexOf(SectionIds, id)
    case Some(i) => m[i]
    case None => None
  }

  /** `ids.map(id => scoreMap[id])`. */
  function MemberScores(m: ScoreMap, ids: seq<string>): (r: seq<Option<nat>>)
    ensures |r| == |ids| && forall j :: 0 <= j < |ids| ==> r[j] == ScoreFor(m, ids[j])
  {
    seq(|ids|, j requires 0 <= j < |ids| => ScoreFor(m, ids[j]))
  }

  /** An objective's rating from its sections' scores, "Not Attempted" when none has a score. */
  function ObjectiveRating(m: ScoreMap, ids: seq<string>): (r: string)
    ensures r == NotAttempted <==> forall j :: 0 <= j < |ids| ==> ScoreFor(m, ids[j]).None?
  {
    var values := Present(MemberScores(m, ids));
    if values == [] then NotAttempted else Rating(RoundedMean(values))
  }

  // ---------------------------------------------------------------------
  // The local fallback result
  // ---------------------------------------------------------------------

  predicate IsLow(score: nat) { score < 50 }
  predicate IsHigh(score: nat) { score >= 75 }

  /** The positions of the sections with a score that `keep` accepts, in section order. */
  function Where(m: seq<Option<nat>>, keep: nat -> bool): (r: seq<nat>)
    ensures forall j :: 0 <= j < |r| ==> r[j] < |m| && m[r[j]].Some? && keep(m[r[j]].value)
    ensures forall i :: 0 <= i < |m| && m[i].Some? && keep(m[i].value) ==> i in r
    ensures forall a, b :: 0 <= a < b < |r| ==> r[a] < r[b]
    decreases |m|
  {
    if m == [] then []
    else
      var k := |m| - 1;
      var init := m[..k];
      assert forall i :: 0 <= i < k ==> init[i] == m[i];
      Where(init, keep) + (if m[k].Some? && keep(m[k].value) then [k] else [])
  }

  datatype PriorityAction = PriorityAction(action: string, principle: string, effort: string, impact: string)

  datatype Report = Report(
    overallRating: string,
    summary: string,
    criticalGaps: seq<string>,
    strengths: seq<string>,
    priorityActions: seq<PriorityAction>,
    objectiveRatings: seq<(string, string)>,
    regulatoryNote: string)

  function Min(a: nat, b: nat): nat { if a <= b then a else b }

  function GapText(id: string, score: nat): string {
    id + " requires attention (score: " + NatToString(score) + "%)"
  }

  function StrengthText(id: string, score: nat): string {
    id + " performing well (" + NatToString(score) + "%)"
  }

  /** The priority action for a low section: it names the section as its principle and in its text. */
  function ImprovementAction(id: string): (a: PriorityAction)
    ensures a.principle == id && a.effort == "Medium" && a.impact == "High"
    ensures Contains(a.action, id)
  {
    var text := "Improve " + id + " controls";
    assert text[8..8 + |id|] == id;
    ContainsAt(text, id, 8);
    PriorityAction(text, id, "Medium", "High")
  }

  function SummaryText(overall: nat, lowCount: nat): string {
    "Local analysis (API unavailable). Overall score: " + NatToString(overall) + "%. "
    + NatToString(lowCount) + " section(s) below 50%. This is an indicative score only."
  }

  const RegulatoryNote := "Review NIS Regulations compliance obligations relevant to your sector."

  /** `buildFallbackResult`: the result shown when the remote analysis is unavailable. */
  function BuildFallbackResult(m: ScoreMap): (r: Report)
    ensures |r.criticalGaps| <= 5 && |r.strengths| <= 3 && |r.priorityActions| <= 3
    ensures |r.priorityActions| <= |r.criticalGaps|
    ensures |r.objectiveRatings| == 4
    ensures r.overallRating == Rating(OverallScore(m))
  {
    var overall := OverallScore(m);
    var low := Where(m, IsLow);
    var high := Where(m, IsHigh);
    var gaps := Min(5, |low|);
    var wins := Min(3, |high|);
    var actions := Min(3, |low|);
    Report(
      Rating(overall),
      SummaryText(overall, |low|),
      seq(gaps, j requires 0 <= j < gaps => GapText(SectionIds[low[j]], m[low[j]].value)),
      seq(wins, j requires 0 <= j < wins => StrengthText(SectionIds[high[j]], m[high[j]].value)),
      seq(actions, j requires 0 <= j < actions => ImprovementAction(SectionIds[low[j]])),
      seq(4, j requires 0 <= j < 4 => (Objectives[j].0, ObjectiveRating(m, Objectives[j].1))),
      RegulatoryNote)
  }

  // ---------------------------------------------------------------------
  // The parse-or-fallback step of `runAnalysis`
  // ---------------------------------------------------------------------

  /** The reply body: `content?.[0]?.text` and `result`, each "" when missing. */
  datatype ReplyBody = ReplyBody(firstText: string, result: string)

  /** What `fetch` produced: no response, or a status flag and a body (`None` when not JSON). */
  datatype Reply = NetworkError | Response(ok: bool, body: Option<ReplyBody>)

  /**
   * What the page shows: nothing (too few answers), the model's parsed JSON
   * when it renders, or the local result.
   */
  datatype Outcome<J> = Refused | Remote(value: J) | Fallback(report: Report)

  /** `data.content?.[0]?.text || data.result || ''`. */
  function ReplyText(body: ReplyBody): (t: string)
    ensures body.firstText != "" ==> t == body.firstText
    ensures body.firstText == "" ==> t == body.result
  {
    if body.firstText != "" then body.firstText else if body.result != "" then body.result else ""
  }

  /**
   * `runAnalysis`: refused below ten checked answers; otherwise the parsed
   * greedy `{...}` span of the reply, or the fallback result on a network
   * error, a non-ok status, a body that is not JSON, no span or a parse error.
   * `JSON.parse` is the parameter `parse`. `shows(v)` says whether
   * `displayResults` renders the parsed value `v` without throwing; when it
   * throws, the outer `catch` renders the fallback result instead.
   */
  function RunAnalysis<J>(answered: nat, responses: Responses, reply: Reply,
                          parse: string -> Option<J>, shows: J -> bool): (o: Outcome<J>)
    ensures o.Refused? <==> answered < 10
    ensures o.Fallback? ==> o.report == BuildFallbackResult(BuildScores(responses))
    ensures o.Remote? <==>
      answered >= 10 && reply.Response? && reply.ok && reply.body.Some?
      && BraceSpan(ReplyText(reply.body.value)).Some?
      && parse(BraceSpan(ReplyText(reply.body.value)).value).Some?
      && shows(parse(BraceSpan(ReplyText(reply.body.value)).value).value)
    ensures o.Remote? ==> o.value == parse(BraceSpan(ReplyText(reply.body.value)).value).value
  {
    if answered < 10 then Refused
    else
      var fallback := Fallback(BuildFallbackResult(BuildScores(responses)));
      match reply
      case NetworkError => fallback
      case Response(ok, body) =>
        if !ok || body.None? then fallback
        else
          match BraceSpan(ReplyText(body.value))
          case None => fallback
          case Some(span) =>
            match parse(span)
            case Some(v) => if shows(v) then Remote(v) else fallback
            case None => fallback
  }

  // ---------------------------------------------------------------------
  // Rendering helpers
  // ---------------------------------------------------------------------

  const Grey := "#7f8c8d"
  const Red := "#c0392b"
  const Amber := "#f39c12"
  const Green := "#27ae60"

  /** `ratingColor`: grey when missing or empty, then "not achieved" before "partial", green otherwise. */
  function RatingColor(r: Option<string>): (c: string)
    ensures c == Grey <==> r.None? || r.value == ""
    ensures r.Some? && r.value != "" ==>
      (c == Red <==> Contains(ToLower(r.value), "not achieved"))
    ensures r.Some? && r.value != "" && !Contains(ToLower(r.value), "not achieved") ==>
      (c == Amber <==> Contains(ToLower(r.value), "partial"))
    ensures r.Some? && r.value != "" ==>
      (!Contains(ToLower(r.value), "not achieved") && !Contains(ToLower(r.value), "partial") ==> c == Green)
  {
    match r
    case None => Grey
    case Some(s) =>
      if s == "" then Grey
      else
        var l := ToLower(s);
        if Contains(l, "not achieved") then Red
        else if Contains(l, "partial") then Amber
        else Green
  }

  /** The framework page's `escapeHtml`: empty for a missing or empty value, and no `'` replacement. */
  function EscapeHtml(s: Option<string>): (r: string)
    ensures s.None? || s == Some("") ==> r == ""
  {
    match s
    case None => ""
    case Some(t) => if t == "" then "" else ReplaceEach(t, HtmlEntities[..4])
  }
}
