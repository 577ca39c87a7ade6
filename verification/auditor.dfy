/** The rule auditor and publish gate of the backend service: a campaign's
    fields are checked against the guardrails of a sales contract, the
    findings are scored, the report is stored beside the campaign, and a
    campaign may go live only when its stored report is certified. */
module Auditor {
  import opened Wrappers

  /** A calendar date; dates compare year first, then month, then day. */
  datatype Date = Date(year: int, month: int, day: int)

  predicate Before(a: Date, b: Date) {
    || a.year < b.year
    || (a.year == b.year && a.month < b.month)
    || (a.year == b.year && a.month == b.month && a.day < b.day)
  }

  /** The binding terms of a contract that the auditor reads. */
  datatype Guardrails = Guardrails(
    totalBudgetLimit: int,
    flightStart: Date,
    flightEnd: Date,
    forbiddenGenres: seq<string>,
    placementType: string)

  datatype Contract = Contract(contractId: string, clientName: string, guardrails: Guardrails)

  datatype CampaignFields = CampaignFields(
    dailyBudget: int,
    totalDays: int,
    startDate: Date,
    selectedGenres: seq<string>,
    targetAgeRange: string,
    placement: string)

  datatype Campaign = Campaign(name: string, status: string, fields: CampaignFields)

  /** Status a campaign carries when the client does not say otherwise. */
  const PendingAudit: string := "PENDING_AUDIT"
  const Live: string := "LIVE"

  datatype Verdict = Pass | Fail
  datatype Severity = High | Medium | Low

  /** What an issue says; the human-readable text is rendered from these. */
  datatype Message =
    | BudgetExceeded(total: int, limit: int)
    | BudgetWithinLimits
    | StartBeforeFlight(start: Date, flightStart: Date)
    | SemanticViolation(genre: string, forbiddenMatch: string, reason: string)
    | DirectViolation(genre: string)
    | NoForbiddenGenres
    | PlacementViolation(placement: string, required: string)

  datatype SuggestedFix =
    | ReduceBudget
    | AdjustStartDate
    | RemoveGenre(genre: string)
    | ChangePlacement(placement: string)

  datatype Issue = Issue(
    field: string,
    status: Verdict,
    message: Message,
    suggestedFix: Option<SuggestedFix>,
    severity: Severity)

  datatype OverallStatus = Certified | Rejected

  datatype Report = Report(logicScore: int, issues: seq<Issue>, overallStatus: OverallStatus)

  const BudgetField: string := "budget"
  const StartDateField: string := "start_date"
  const GenresField: string := "selected_genres"
  const PlacementField: string := "placement"

  // ---------------------------------------------------------------------
  // The individual checks
  // ---------------------------------------------------------------------

  /** The budget check always yields exactly one issue: FAIL when daily
      budget times flight days exceeds the contract cap, PASS otherwise. */
  function BudgetIssue(g: Guardrails, f: CampaignFields): (r: Issue)
    ensures r.field == BudgetField
    ensures r.status == Fail <==> f.dailyBudget * f.totalDays > g.totalBudgetLimit
    ensures r.status == Fail ==> r.message == BudgetExceeded(f.dailyBudget * f.totalDays, g.totalBudgetLimit)
  {
    var total := f.dailyBudget * f.totalDays;
    if total > g.totalBudgetLimit then
      Issue(BudgetField, Fail, BudgetExceeded(total, g.totalBudgetLimit), Some(ReduceBudget), High)
    else
      Issue(BudgetField, Pass, BudgetWithinLimits, None, Low)
  }

  /** The date check reports only a violation; a compliant start date
      produces no issue at all. */
  function DateIssues(g: Guardrails, f: CampaignFields): (r: seq<Issue>)
    ensures |r| <= 1
    ensures |r| == 1 <==> Before(f.startDate, g.flightStart)
    ensures forall i :: 0 <= i < |r| ==> r[i].field == StartDateField && r[i].status == Fail
  {
    if Before(f.startDate, g.flightStart) then
      [Issue(StartDateField, Fail, StartBeforeFlight(f.startDate, g.flightStart), Some(AdjustStartDate), Medium)]
    else
      []
  }

  /** The placement check reports only a violation: a placement that is not
      literally the contract's placement type. */
  function PlacementIssues(g: Guardrails, f: CampaignFields): (r: seq<Issue>)
    ensures |r| <= 1
    ensures |r| == 1 <==> f.placement != g.placementType
    ensures forall i :: 0 <= i < |r| ==> r[i].field == PlacementField && r[i].status == Fail
    ensures forall i :: 0 <= i < |r| ==> r[i].suggestedFix == Some(ChangePlacement(g.placementType))
  {
    if f.placement != g.placementType then
      [Issue(PlacementField, Fail, PlacementViolation(f.placement, g.placementType),
             Some(ChangePlacement(g.placementType)), High)]
    else
      []
  }

  // ---------------------------------------------------------------------
  // Genre check: language-model answer or exact-match fallback
  // ---------------------------------------------------------------------

  function DirectIssue(genre: string): Issue {
    Issue(GenresField, Fail, DirectViolation(genre), Some(RemoveGenre(genre)), High)
  }

  /** The fallback genre check: one FAIL issue per selected genre that is
      literally on the forbidden list. */
  function ExactMatch(genres: seq<string>, forbidden: seq<string>): (r: seq<Issue>)
    ensures |r| <= |genres|
    ensures forall i :: 0 <= i < |r| ==> r[i].message.DirectViolation? && r[i] == DirectIssue(r[i].message.genre)
    ensures forall g :: DirectIssue(g) in r <==> g in genres && g in forbidden
    decreases |genres|
  {
    if |genres| == 0 then []
    else
      (if genres[0] in forbidden then [DirectIssue(genres[0])] else [])
      + ExactMatch(genres[1..], forbidden)
  }

  /** The fallback keeps selection order: checking two selections one after
      the other gives the issues of the first followed by those of the second. */
  lemma {:induction false} ExactMatchAppend(a: seq<string>, b: seq<string>, forbidden: seq<string>)
    ensures ExactMatch(a + b, forbidden) == ExactMatch(a, forbidden) + ExactMatch(b, forbidden)
    decreases |a|
  {
    if |a| > 0 {
      assert (a + b)[1..] == a[1..] + b;
      ExactMatchAppend(a[1..], b, forbidden);
    } else {
      assert a + b == b;
    }
  }

  /** A violation the language model reported. */
  datatype Violation = Violation(genre: string, forbiddenMatch: string, reason: string)

  /** The outcome of the language-model call: no usable answer (transport,
      HTTP status or JSON failure), or the decoded array, where `None` marks
      an entry that lacks one of the keys the auditor reads. */
  datatype ModelReply = Unavailable | Answered(entries: seq<Option<Violation>>)

  function SemanticIssue(v: Violation): Issue {
    Issue(GenresField, Fail, SemanticViolation(v.genre, v.forbiddenMatch, v.reason), Some(RemoveGenre(v.genre)), High)
  }

  /** Issues for the leading well-formed entries, and whether every entry was
      well formed (the first malformed entry aborts the loop). */
  function ConvertEntries(es: seq<Option<Violation>>): (r: (seq<Issue>, bool))
    ensures |r.0| <= |es|
    ensures r.1 <==> forall i :: 0 <= i < |es| ==> es[i].Some?
    ensures r.1 ==> |r.0| == |es|
    ensures !r.1 ==> |r.0| < |es| && es[|r.0|].None?
    ensures forall i :: 0 <= i < |r.0| ==> es[i].Some? && r.0[i] == SemanticIssue(es[i].value)
    decreases |es|
  {
    if |es| == 0 then ([], true)
    else
      match es[0]
      case None => ([], false)
      case Some(v) =>
        var rest := ConvertEntries(es[1..]);
        ([SemanticIssue(v)] + rest.0, rest.1)
  }

  /** The genre check. Without a usable answer the exact-match fallback runs;
      when an answer breaks off at a malformed entry, the issues already
      collected are kept and the fallback's issues follow them. */
  function SemanticAudit(genres: seq<string>, forbidden: seq<string>, reply: ModelReply): (r: seq<Issue>)
    ensures forall i :: 0 <= i < |r| ==> r[i].field == GenresField && r[i].status == Fail
    ensures reply.Unavailable? ==> r == ExactMatch(genres, forbidden)
    ensures reply.Answered? && ConvertEntries(reply.entries).1 ==> r == ConvertEntries(reply.entries).0
    ensures reply.Answered? && !ConvertEntries(reply.entries).1 ==>
              var kept := ConvertEntries(reply.entries).0;
              && |r| == |kept| + |ExactMatch(genres, forbidden)|
              && r[..|kept|] == kept
              && r[|kept|..] == ExactMatch(genres, forbidden)
  {
    match reply
    case Unavailable => ExactMatch(genres, forbidden)
    case Answered(es) =>
      var converted := ConvertEntries(es);
      if converted.1 then converted.0 else converted.0 + ExactMatch(genres, forbidden)
  }

  predicate HasGenreFail(issues: seq<Issue>) {
    exists i :: 0 <= i < |issues| && issues[i].field == GenresField && issues[i].status == Fail
  }

  function GenrePass(): Issue {
    Issue(GenresField, Pass, NoForbiddenGenres, None, Low)
  }

  // ---------------------------------------------------------------------
  // The report
  // ---------------------------------------------------------------------

  /** All issues, in the order the checks run. */
  function AuditIssues(g: Guardrails, f: CampaignFields, reply: ModelReply): seq<Issue> {
    var ai := SemanticAudit(f.selectedGenres, g.forbiddenGenres, reply);
    [BudgetIssue(g, f)]
    + DateIssues(g, f)
    + ai
    + (if HasGenreFail(ai) then [] else [GenrePass()])
    + PlacementIssues(g, f)
  }

  function CountFails(issues: seq<Issue>): (r: nat)
    ensures r <= |issues|
    ensures r == 0 <==> forall i :: 0 <= i < |issues| ==> issues[i].status == Pass
    decreases |issues|
  {
    if |issues| == 0 then 0
    else (if issues[0].status == Fail then 1 else 0) + CountFails(issues[1..])
  }

  function Max(a: int, b: int): int {
    if a < b then b else a
  }

  /** The report for a list of issues: each FAIL costs 25 points of the
      logic score, which never drops below 0; the report is certified exactly
      when nothing failed, which is exactly when the score is 100. */
  function Score(issues: seq<Issue>): (r: Report)
    ensures r.issues == issues
    ensures 0 <= r.logicScore <= 100
    ensures r.logicScore == Max(0, 100 - 25 * CountFails(issues))
    ensures r.overallStatus == Certified <==> r.logicScore == 100
    ensures r.overallStatus == Certified <==> forall i :: 0 <= i < |issues| ==> issues[i].status == Pass
  {
    var fails := CountFails(issues);
    Report(Max(0, 100 - fails * 25), issues, if fails == 0 then Certified else Rejected)
  }

  /** The audit of a campaign against a contract's guardrails. */
  function Evaluate(g: Guardrails, f: CampaignFields, reply: ModelReply): (r: Report)
    ensures r.issues == AuditIssues(g, f, reply)
    ensures r.overallStatus == Certified <==> r.logicScore == 100
  {
    Score(AuditIssues(g, f, reply))
  }

  /** The issues that concern one field, in report order. */
  function WithField(issues: seq<Issue>, name: string): (r: seq<Issue>)
    ensures forall i :: 0 <= i < |r| ==> r[i].field == name && r[i] in issues
    ensures forall x :: x in issues && x.field == name ==> x in r
    decreases |issues|
  {
    if |issues| == 0 then []
    else (if issues[0].field == name then [issues[0]] else []) + WithField(issues[1..], name)
  }

  lemma {:induction false} WithFieldAppend(a: seq<Issue>, b: seq<Issue>, name: string)
    ensures WithField(a + b, name) == WithField(a, name) + WithField(b, name)
    decreases |a|
  {
    if |a| > 0 {
      assert (a + b)[1..] == a[1..] + b;
      WithFieldAppend(a[1..], b, name);
    } else {
      assert a + b == b;
    }
  }

  lemma {:induction false} WithFieldNone(issues: seq<Issue>, name: string)
    requires forall i :: 0 <= i < |issues| ==> issues[i].field != name
    ensures WithField(issues, name) == []
    decreases |issues|
  {
    if |issues| > 0 {
      WithFieldNone(issues[1..], name);
    }
  }

  lemma {:induction false} WithFieldAll(issues: seq<Issue>, name: string)
    requires forall i :: 0 <= i < |issues| ==> issues[i].field == name
    ensures WithField(issues, name) == issues
    decreases |issues|
  {
    if |issues| > 0 {
      WithFieldAll(issues[1..], name);
    }
  }

  /** The five parts of the report, in order: budget, date, genre-check
      issues, the genre PASS entry, placement. */
  function Parts(g: Guardrails, f: CampaignFields, reply: ModelReply): seq<seq<Issue>> {
    var ai := SemanticAudit(f.selectedGenres, g.forbiddenGenres, reply);
    [[BudgetIssue(g, f)], DateIssues(g, f), ai, if HasGenreFail(ai) then [] else [GenrePass()], PlacementIssues(g, f)]
  }

  /** The field every issue of part `k` concerns. */
  function PartField(k: nat): string
    requires k < 5
  {
    [BudgetField, StartDateField, GenresField, GenresField, PlacementField][k]
  }

  lemma IssuesAreParts(g: Guardrails, f: CampaignFields, reply: ModelReply)
    ensures var ps := Parts(g, f, reply);
            AuditIssues(g, f, reply) == ps[0] + ps[1] + ps[2] + ps[3] + ps[4]
  {
  }

  lemma WithFieldParts(g: Guardrails, f: CampaignFields, reply: ModelReply, name: string)
    ensures var ps := Parts(g, f, reply);
            WithField(AuditIssues(g, f, reply), name)
            == WithField(ps[0], name) + WithField(ps[1], name) + WithField(ps[2], name)
               + WithField(ps[3], name) + WithField(ps[4], name)
  {
    var ps := Parts(g, f, reply);
    IssuesAreParts(g, f, reply);
    WithFieldAppend(ps[0] + ps[1] + ps[2] + ps[3], ps[4], name);
    WithFieldAppend(ps[0] + ps[1] + ps[2], ps[3], name);
    WithFieldAppend(ps[0] + ps[1], ps[2], name);
    WithFieldAppend(ps[0], ps[1], name);
  }

  /** Filtering part `k` by a field keeps all of it for the part's own field
      and none of it for any other. */
  lemma PartWithField(g: Guardrails, f: CampaignFields, reply: ModelReply, k: nat, name: string)
    requires k < 5
    ensures name == PartField(k) ==> WithField(Parts(g, f, reply)[k], name) == Parts(g, f, reply)[k]
    ensures name != PartField(k) ==> WithField(Parts(g, f, reply)[k], name) == []
  {
    var p := Parts(g, f, reply)[k];
    assert forall i :: 0 <= i < |p| ==> p[i].field == PartField(k);
    if name == PartField(k) {
      WithFieldAll(p, name);
    } else {
      WithFieldNone(p, name);
    }
  }

  /** The report's issues about `name`, part by part, each filtered part
      being the whole part or empty. */
  lemma FilterEachPart(g: Guardrails, f: CampaignFields, reply: ModelReply, name: string)
    ensures var ps := Parts(g, f, reply);
            WithField(AuditIssues(g, f, reply), name)
            == (if name == PartField(0) then ps[0] else []) + (if name == PartField(1) then ps[1] else [])
               + (if name == PartField(2) then ps[2] else []) + (if name == PartField(3) then ps[3] else [])
               + (if name == PartField(4) then ps[4] else [])
  {
    WithFieldParts(g, f, reply, name);
    PartWithField(g, f, reply, 0, name);
    PartWithField(g, f, reply, 1, name);
    PartWithField(g, f, reply, 2, name);
    PartWithField(g, f, reply, 3, name);
    PartWithField(g, f, reply, 4, name);
  }

  /** Exactly one budget issue is reported, and it is a FAIL exactly when
      the attempted total exceeds the cap. */
  lemma BudgetReportedOnce(g: Guardrails, f: CampaignFields, reply: ModelReply)
    ensures var b := WithField(AuditIssues(g, f, reply), BudgetField);
            |b| == 1 && (b[0].status == Fail <==> f.dailyBudget * f.totalDays > g.totalBudgetLimit)
  {
    FilterEachPart(g, f, reply, BudgetField);
    var e: seq<Issue> := [];
    assert [BudgetIssue(g, f)] + e + e + e + e == [BudgetIssue(g, f)];
  }

  /** A start-date issue exists exactly when the campaign starts before the
      flight, and it is never a PASS. */
  lemma StartDateReported(g: Guardrails, f: CampaignFields, reply: ModelReply)
    ensures var d := WithField(AuditIssues(g, f, reply), StartDateField);
            && |d| <= 1
            && (|d| == 1 <==> Before(f.startDate, g.flightStart))
            && forall i :: 0 <= i < |d| ==> d[i].status == Fail
  {
    FilterEachPart(g, f, reply, StartDateField);
    var e: seq<Issue> := [];
    assert e + DateIssues(g, f) + e + e + e == DateIssues(g, f);
  }

  /** A placement issue exists exactly when the placement differs from the
      contract's placement type, and it is never a PASS. */
  lemma PlacementReported(g: Guardrails, f: CampaignFields, reply: ModelReply)
    ensures var p := WithField(AuditIssues(g, f, reply), PlacementField);
            && |p| <= 1
            && (|p| == 1 <==> f.placement != g.placementType)
            && forall i :: 0 <= i < |p| ==> p[i].status == Fail
  {
    FilterEachPart(g, f, reply, PlacementField);
    var e: seq<Issue> := [];
    assert e + e + e + e + PlacementIssues(g, f) == PlacementIssues(g, f);
  }

  /** The genre entries of the report: the genre check's issues, followed by
      the PASS entry when the check found no violation. */
  lemma GenreEntries(g: Guardrails, f: CampaignFields, reply: ModelReply)
    ensures var ai := SemanticAudit(f.selectedGenres, g.forbiddenGenres, reply);
            WithField(AuditIssues(g, f, reply), GenresField)
            == ai + (if HasGenreFail(ai) then [] else [GenrePass()])
  {
    var ps := Parts(g, f, reply);
    FilterEachPart(g, f, reply, GenresField);
    var e: seq<Issue> := [];
    assert e + e + ps[2] + ps[3] + e == ps[2] + ps[3];
  }

  /** The genre PASS entry is appended exactly when the genre check found no
      violation. */
  lemma GenrePassIffNoGenreFail(g: Guardrails, f: CampaignFields, reply: ModelReply)
    ensures var gs := WithField(AuditIssues(g, f, reply), GenresField);
            var ai := SemanticAudit(f.selectedGenres, g.forbiddenGenres, reply);
            && (GenrePass() in gs <==> !HasGenreFail(ai))
            && (!HasGenreFail(ai) ==> gs == [GenrePass()] && ai == [])
  {
    var ai := SemanticAudit(f.selectedGenres, g.forbiddenGenres, reply);
    var gs := WithField(AuditIssues(g, f, reply), GenresField);
    GenreEntries(g, f, reply);
    assert |ai| > 0 ==> HasGenreFail(ai) by {
      if |ai| > 0 {
        assert ai[0].field == GenresField && ai[0].status == Fail;
      }
    }
    if HasGenreFail(ai) {
      assert gs == ai + [];
      assert GenrePass() !in ai;
    } else {
      assert gs == [] + [GenrePass()];
    }
  }

  /** With the language model unavailable, the genre entries are one FAIL per
      forbidden selected genre in selection order, or the single PASS. */
  lemma FallbackGenreEntries(g: Guardrails, f: CampaignFields)
    ensures var gs := WithField(AuditIssues(g, f, Unavailable), GenresField);
            var em := ExactMatch(f.selectedGenres, g.forbiddenGenres);
            gs == if em == [] then [GenrePass()] else em
  {
    GenreEntries(g, f, Unavailable);
    var em := ExactMatch(f.selectedGenres, g.forbiddenGenres);
    assert SemanticAudit(f.selectedGenres, g.forbiddenGenres, Unavailable) == em;
    if em != [] {
      assert em[0] == DirectIssue(em[0].message.genre);
      assert HasGenreFail(em);
      assert em + [] == em;
    } else {
      assert !HasGenreFail(em);
    }
  }

  // ---------------------------------------------------------------------
  // The store and the two endpoints
  // ---------------------------------------------------------------------

  /** The in-memory store: contracts by id, and the last audited campaign and
      its report, both by campaign name. */
  datatype Db = Db(
    contracts: map<string, Contract>,
    campaigns: map<string, Campaign>,
    reports: map<string, Report>)

  datatype ErrorDetail =
    | Reason(text: string)
    | ComplianceFailure(error: string, violations: seq<Message>, message: string)

  datatype HttpError = HttpError(code: int, detail: ErrorDetail)

  datatype Published = Published(status: string, message: string)

  /** The audit endpoint: an unknown contract is a 404 and stores nothing;
      otherwise the report is computed and both the campaign (as submitted)
      and its report replace whatever was stored under the campaign's name. */
  function AuditCampaign(db: Db, contractId: string, campaign: Campaign, reply: ModelReply)
    : (r: Result<(Report, Db), HttpError>)
    ensures contractId !in db.contracts <==> r.Failure?
    ensures r.Failure? ==> r.error == HttpError(404, Reason("Contract not found"))
    ensures r.Success? ==>
              && r.value.0 == Evaluate(db.contracts[contractId].guardrails, campaign.fields, reply)
              && r.value.1.contracts == db.contracts
              && r.value.1.campaigns == db.campaigns[campaign.name := campaign]
              && r.value.1.reports == db.reports[campaign.name := r.value.0]
  {
    if contractId !in db.contracts then
      Failure(HttpError(404, Reason("Contract not found")))
    else
      var report := Evaluate(db.contracts[contractId].guardrails, campaign.fields, reply);
      Success((report, db.(campaigns := db.campaigns[campaign.name := campaign],
                           reports := db.reports[campaign.name := report])))
  }

  /** Messages of the FAIL issues, in report order. */
  function FailMessages(issues: seq<Issue>): (r: seq<Message>)
    ensures |r| == CountFails(issues)
    ensures forall m :: m in r <==> exists i :: 0 <= i < |issues| && issues[i].status == Fail && issues[i].message == m
    decreases |issues|
  {
    if |issues| == 0 then []
    else
      var rest := FailMessages(issues[1..]);
      assert forall i :: 1 <= i < |issues| ==> issues[i] == issues[1..][i - 1];
      if issues[0].status == Fail then [issues[0].message] + rest else rest
  }

  /** The messages keep report order: the FAIL messages of two issue lists
      one after the other are those of the first followed by those of the
      second. */
  lemma {:induction false} FailMessagesAppend(a: seq<Issue>, b: seq<Issue>)
    ensures FailMessages(a + b) == FailMessages(a) + FailMessages(b)
    decreases |a|
  {
    if |a| > 0 {
      assert (a + b)[1..] == a[1..] + b;
      assert (a + b)[0] == a[0];
      FailMessagesAppend(a[1..], b);
    } else {
      assert a + b == b;
    }
  }

  const ComplianceError: string := "Compliance Check Failed"
  const ComplianceHint: string := "Campaign cannot be published until all legal guardrails are met."

  /** The publish endpoint: never audited is a 400, a rejected report is a
      422 listing the FAIL messages, and otherwise the stored campaign (if any)
      becomes LIVE while nothing else in the store changes. */
  function PublishLive(db: Db, name: string): (r: Result<(Published, Db), HttpError>)
    ensures (r.Failure? && r.error.code == 400) <==> name !in db.reports
    ensures (r.Failure? && r.error.code == 422) <==> name in db.reports && db.reports[name].overallStatus == Rejected
    ensures r.Success? <==> name in db.reports && db.reports[name].overallStatus == Certified
    ensures r.Failure? && r.error.code == 422 ==>
              r.error.detail == ComplianceFailure(ComplianceError, FailMessages(db.reports[name].issues), ComplianceHint)
    ensures r.Success? ==>
              && r.value.1.contracts == db.contracts
              && r.value.1.reports == db.reports
              && r.value.1.campaigns.Keys == db.campaigns.Keys
              && (forall n :: n in db.campaigns && n != name ==> r.value.1.campaigns[n] == db.campaigns[n])
              && (name in db.campaigns ==> r.value.1.campaigns[name] == db.campaigns[name].(status := Live))
  {
    if name !in db.reports then
      Failure(HttpError(400, Reason("Campaign must be audited before publishing.")))
    else
      var report := db.reports[name];
      if report.overallStatus == Rejected then
        Failure(HttpError(422, ComplianceFailure(ComplianceError, FailMessages(report.issues), ComplianceHint)))
      else
        assert report.overallStatus == Certified;
        var campaigns := if name in db.campaigns then db.campaigns[name := db.campaigns[name].(status := Live)]
                         else db.campaigns;
        Success((Published("SUCCESS", "Campaign '" + name + "' is now LIVE."), db.(campaigns := campaigns)))
  }

  /** Auditing and then publishing: the publish succeeds exactly when the
      audit found no FAIL, the campaign is then LIVE, and otherwise the 422
      lists exactly the FAIL messages of the fresh report. */
  lemma AuditThenPublish(db: Db, contractId: string, campaign: Campaign, reply: ModelReply)
    requires contractId in db.contracts
    ensures var a := AuditCampaign(db, contractId, campaign, reply);
            && a.Success?
            && var report := a.value.0;
               var p := PublishLive(a.value.1, campaign.name);
               && (p.Success? <==> CountFails(report.issues) == 0)
               && (p.Success? ==> p.value.1.campaigns[campaign.name].status == Live)
               && (p.Failure? ==> p.error.code == 422 && p.error.detail.violations == FailMessages(report.issues))
  {
  }

  // ---------------------------------------------------------------------
  // The seeded contracts and the Nike scenario
  // ---------------------------------------------------------------------

  const NikePlacementType: string := "Premium/Direct/Programmatic PMP"

  const NikeContract: Contract := Contract("CNT-NIKE-VALENTINE", "Nike",
    Guardrails(2000000, Date(2026, 2, 9), Date(2026, 2, 14),
               ["Defamatory", "Obscene", "Illegal Content"], NikePlacementType))

  const LuxuryContract: Contract := Contract("CNT-9988-LVMH", "Luxury Brand X",
    Guardrails(100000, Date(2026, 3, 1), Date(2026, 3, 31),
               ["Horror", "Zombies", "Extreme Violence"], "Mid-Roll Only"))

  const SeedDb: Db := Db(map["CNT-9988-LVMH" := LuxuryContract, "CNT-NIKE-VALENTINE" := NikeContract], map[], map[])

  /** A reshaping of the staging canvas's seed campaign into the field shape
      the auditor reads. Budget, days, start date and placement are the
      canvas's figures; the canvas holds no genres or age range, so these are
      set to an empty list and an empty string. The canvas itself posts a
      differently nested body, so this campaign is a model input, not one the
      canvas sends. */
  const NikeSeedFields: CampaignFields :=
    CampaignFields(400000, 10, Date(2026, 2, 9), [], "", "Social Media Feed")

  /** The reshaped seed after the canvas's budget and placement fixes. */
  const NikeFixedFields: CampaignFields :=
    NikeSeedFields.(dailyBudget := 200000, totalDays := 6, placement := NikePlacementType)

  /** The reshaped seed fails the budget (4,000,000 over a 2,000,000 cap) and
      the placement check and is rejected with score 50. */
  lemma NikeSeedRejected()
    ensures var r := Evaluate(NikeContract.guardrails, NikeSeedFields, Unavailable);
            && r.issues[0].field == BudgetField && r.issues[0].status == Fail
            && WithField(r.issues, PlacementField) != []
            && r.logicScore == 50
            && r.overallStatus == Rejected
  {
    var g := NikeContract.guardrails;
    var r := Evaluate(g, NikeSeedFields, Unavailable);
    assert !Before(NikeSeedFields.startDate, g.flightStart);
    assert ExactMatch([], g.forbiddenGenres) == [];
    PlacementReported(g, NikeSeedFields, Unavailable);
    assert r.issues == [BudgetIssue(g, NikeSeedFields), GenrePass()] + PlacementIssues(g, NikeSeedFields);
    assert CountFails(r.issues) == 2;
  }

  /** After the fixes (200,000 a day for 6 days, the PMP placement) every
      check passes: the campaign is certified with score 100. */
  lemma NikeFixedCertified()
    ensures var r := Evaluate(NikeContract.guardrails, NikeFixedFields, Unavailable);
            r.overallStatus == Certified && r.logicScore == 100
  {
    var g := NikeContract.guardrails;
    assert ExactMatch([], g.forbiddenGenres) == [];
    assert Evaluate(g, NikeFixedFields, Unavailable).issues == [BudgetIssue(g, NikeFixedFields), GenrePass()];
  }

  /** The audit and publish endpoints run directly against the seeded store
      with the reshaped fields: the seed cannot be published, and the fixed
      campaign audited under the same name can. */
  lemma NikeScenario(name: string)
    ensures var a1 := AuditCampaign(SeedDb, "CNT-NIKE-VALENTINE", Campaign(name, PendingAudit, NikeSeedFields), Unavailable);
            && a1.Success?
            && PublishLive(a1.value.1, name).Failure?
            && PublishLive(a1.value.1, name).error.code == 422
            && var a2 := AuditCampaign(a1.value.1, "CNT-NIKE-VALENTINE", Campaign(name, PendingAudit, NikeFixedFields), Unavailable);
               && a2.Success?
               && PublishLive(a2.value.1, name).Success?
               && PublishLive(a2.value.1, name).value.1.campaigns[name].status == Live
  {
    NikeSeedRejected();
    NikeFixedCertified();
    assert SeedDb.contracts["CNT-NIKE-VALENTINE"] == NikeContract;
  }
}
