/** The staging canvas: a contract card wired to seven compliance pillars
    whose cards and edges are rebuilt from every audit response, the fix each
    pillar's Remediate button sends, the logic score and the publish button
    in its header. */
module Canvas {
  import opened Wrappers
  import opened Values
  import Auditor

  // ---------------------------------------------------------------------
  // Audit responses as the canvas reads them
  // ---------------------------------------------------------------------

  /** One pillar's verdict; `issues` may be absent from the response. */
  datatype PillarResult = PillarResult(status: string, issues: Option<seq<string>>)

  datatype AuditResponse = AuditResponse(pillars: map<string, PillarResult>, isCertified: bool)

  /** A pillar card's fixed description: its key in the response, its title
      and the campaign field it stands for. */
  datatype PillarSpec = PillarSpec(key: string, title: string, field: string, fieldLabel: string)

  const AudienceKey: string := "Audience"
  const BudgetKey: string := "Budget"
  const TimeframeKey: string := "Timeframe"
  const OptimizationKey: string := "Optimization"
  const CreativeKey: string := "Creative"
  const CopyKey: string := "Copy"
  const GuardrailsKey: string := "Guardrails"

  /** The seven pillars, top to bottom. */
  const Pillars: seq<PillarSpec> := [
    PillarSpec(AudienceKey, "Audience", "geo_targeting", "Geo Targeting"),
    PillarSpec(BudgetKey, "Budget", "total_spend", "Total Spend"),
    PillarSpec(TimeframeKey, "Timeframe", "start_date", "Start Date"),
    PillarSpec(OptimizationKey, "Optimization", "placement", "Placement"),
    PillarSpec(CreativeKey, "Creative", "format", "Format"),
    PillarSpec(CopyKey, "Copy", "ad_copy_text", "Ad Copy"),
    PillarSpec(GuardrailsKey, "Guardrails", "legal", "Legal Terms")
  ]

  /** Every pillar the canvas draws has an entry in the response. */
  predicate Complete(resp: AuditResponse) {
    forall i :: 0 <= i < |Pillars| ==> Pillars[i].key in resp.pillars
  }

  // ---------------------------------------------------------------------
  // The graph
  // ---------------------------------------------------------------------

  datatype Point = Point(x: int, y: int)

  datatype CanvasNode =
    | ContractCard(id: string, position: Point, clientName: string)
    | PillarCard(id: string, position: Point, title: string, status: string, pillarKey: string,
                 fieldLabel: string, value: string, message: string)

  datatype CanvasEdge = CanvasEdge(id: string, source: string, target: string, animated: bool, stroke: string)

  datatype Graph = Graph(nodes: seq<CanvasNode>, edges: seq<CanvasEdge>)

  const EmptyGraph: Graph := Graph([], [])
  const ContractNodeId: string := "contract"
  const EdgeGrey: string := "#D1D5DB"
  const NoIssueMessage: string := "Verification needed."
  /** The budget card's value is this fixed text, whatever the response says. */
  const BudgetDisplay: string := "$4,000,000"

  /** `issues?.[0] || 'Verification needed.'`: the first issue when there is
      one and it is not empty, the placeholder otherwise. */
  function PillarMessage(issues: Option<seq<string>>): (r: string)
    ensures issues.Some? && |issues.value| > 0 && issues.value[0] != "" ==> r == issues.value[0]
    ensures issues.None? || |issues.value| == 0 || issues.value[0] == "" ==> r == NoIssueMessage
  {
    if issues.Some? && |issues.value| > 0 then OrElse(Some(issues.value[0]), NoIssueMessage)
    else NoIssueMessage
  }

  /** The card's value line: the fixed budget text on the budget pillar,
      otherwise Compliant exactly for PASS and Violation for anything else. */
  function PillarValue(key: string, status: string): (r: string)
    ensures key == BudgetKey ==> r == BudgetDisplay
    ensures key != BudgetKey ==> (r == "Compliant" <==> status == PASS)
    ensures key != BudgetKey ==> (r == "Violation" <==> status != PASS)
  {
    if key == BudgetKey then BudgetDisplay
    else if status == PASS then "Compliant"
    else "Violation"
  }

  function PillarPosition(idx: int): Point {
    Point(450, 50 + idx * 100)
  }

  function PillarNode(p: PillarSpec, idx: int, r: PillarResult): CanvasNode {
    PillarCard(p.key, PillarPosition(idx), p.title, r.status, p.key, p.fieldLabel,
               PillarValue(p.key, r.status), PillarMessage(r.issues))
  }

  function PillarEdge(p: PillarSpec, r: PillarResult): CanvasEdge {
    CanvasEdge("e-contract-" + p.key, ContractNodeId, p.key, r.status == PASS, EdgeGrey)
  }

  /** The graph for a response, or None when a pillar is missing from it:
      reading the missing pillar's status throws before any node or edge is
      stored. */
  function BuildGraph(resp: AuditResponse): (r: Option<Graph>)
    ensures r.Some? <==> Complete(resp)
    ensures r.Some? ==> |r.value.nodes| == |Pillars| + 1 && |r.value.edges| == |Pillars|
    ensures r.Some? ==> r.value.nodes[0] == ContractCard(ContractNodeId, Point(50, 300), "Nike")
    ensures r.Some? ==> forall i :: 0 <= i < |Pillars| ==>
              && r.value.nodes[i + 1].PillarCard?
              && r.value.nodes[i + 1].id == Pillars[i].key
              && r.value.nodes[i + 1].status == resp.pillars[Pillars[i].key].status
    ensures r.Some? ==> forall i :: 0 <= i < |Pillars| ==>
              && r.value.nodes[i + 1].PillarCard?
              && r.value.nodes[i + 1].position == Point(450, 50 + 100 * i)
              && r.value.nodes[i + 1].title == Pillars[i].title
              && r.value.nodes[i + 1].fieldLabel == Pillars[i].fieldLabel
              && r.value.nodes[i + 1].value == PillarValue(Pillars[i].key, resp.pillars[Pillars[i].key].status)
              && r.value.nodes[i + 1].message == PillarMessage(resp.pillars[Pillars[i].key].issues)
    ensures r.Some? ==> forall i :: 0 <= i < |Pillars| ==>
              && r.value.edges[i].id == "e-contract-" + Pillars[i].key
              && r.value.edges[i].stroke == EdgeGrey
              && r.value.edges[i].source == ContractNodeId
              && r.value.edges[i].target == Pillars[i].key
              && (r.value.edges[i].animated <==> resp.pillars[Pillars[i].key].status == PASS)
  {
    if !Complete(resp) then None
    else
      var pillarNodes := seq(|Pillars|, i requires 0 <= i < |Pillars| && Complete(resp) =>
                               PillarNode(Pillars[i], i, resp.pillars[Pillars[i].key]));
      var edges := seq(|Pillars|, i requires 0 <= i < |Pillars| && Complete(resp) =>
                         PillarEdge(Pillars[i], resp.pillars[Pillars[i].key]));
      Some(Graph([ContractCard(ContractNodeId, Point(50, 300), "Nike")] + pillarNodes, edges))
  }

  /** Two complete responses give graphs with the same ids, places and wiring:
      a response decides only what the cards and edges show. */
  lemma LayoutIndependentOfResponse(r1: AuditResponse, r2: AuditResponse)
    requires Complete(r1) && Complete(r2)
    ensures var g1 := BuildGraph(r1).value;
            var g2 := BuildGraph(r2).value;
            && (forall i :: 0 <= i < |g1.nodes| ==> g1.nodes[i].id == g2.nodes[i].id && g1.nodes[i].position == g2.nodes[i].position)
            && (forall i :: 0 <= i < |g1.edges| ==> g1.edges[i].id == g2.edges[i].id && g1.edges[i].target == g2.edges[i].target)
  {
    var g1 := BuildGraph(r1).value;
    var g2 := BuildGraph(r2).value;
    forall i | 0 <= i < |g1.nodes|
      ensures g1.nodes[i].id == g2.nodes[i].id && g1.nodes[i].position == g2.nodes[i].position
    {
      if i > 0 {
        assert g1.nodes[i] == PillarNode(Pillars[i - 1], i - 1, r1.pillars[Pillars[i - 1].key]);
        assert g2.nodes[i] == PillarNode(Pillars[i - 1], i - 1, r2.pillars[Pillars[i - 1].key]);
      }
    }
    forall i | 0 <= i < |g1.edges|
      ensures g1.edges[i].id == g2.edges[i].id && g1.edges[i].target == g2.edges[i].target
    {
      assert g1.edges[i] == PillarEdge(Pillars[i], r1.pillars[Pillars[i].key]);
      assert g2.edges[i] == PillarEdge(Pillars[i], r2.pillars[Pillars[i].key]);
    }
  }

  /** The budget card shows the same fixed total for every response, even one
      produced after the budget was cut. */
  lemma BudgetCardIgnoresResponse(resp: AuditResponse)
    requires Complete(resp)
    ensures BuildGraph(resp).value.nodes[2].value == BudgetDisplay
  {
    assert BuildGraph(resp).value.nodes[2] == PillarNode(Pillars[1], 1, resp.pillars[BudgetKey]);
  }

  // ---------------------------------------------------------------------
  // A pillar card as drawn
  // ---------------------------------------------------------------------

  datatype Icon = CheckIcon | AlertIcon | WarnIcon

  /** What a pillar card shows: the header icon, whether header and border
      are red, and the violation block with the key its Remediate button
      sends, if the block is shown at all. */
  datatype PillarView = PillarView(icon: Option<Icon>, redHeader: bool, redBorder: bool,
                                   violation: Option<(string, string)>)

  function HeaderIcon(status: string): (r: Option<Icon>)
    ensures r == Some(CheckIcon) <==> status == PASS
    ensures r == Some(AlertIcon) <==> status == FAIL
    ensures r == Some(WarnIcon) <==> status == WARN
  {
    if status == PASS then Some(CheckIcon)
    else if status == FAIL then Some(AlertIcon)
    else if status == WARN then Some(WarnIcon)
    else None
  }

  function ViewPillar(n: CanvasNode): (v: PillarView)
    requires n.PillarCard?
    ensures v.redHeader <==> n.status == FAIL
    ensures v.redBorder <==> n.status == FAIL
    ensures v.violation.Some? <==> n.status == FAIL
    ensures v.violation.Some? ==> v.violation.value == (n.message, n.pillarKey)
  {
    var failing := n.status == FAIL;
    PillarView(HeaderIcon(n.status), failing, failing,
               if failing then Some((n.message, n.pillarKey)) else None)
  }

  // ---------------------------------------------------------------------
  // Remediation fixes
  // ---------------------------------------------------------------------

  /** The campaign change a pillar's Remediate button asks the backend to
      apply before re-auditing. */
  datatype Patch =
    | GeoTargeting(geo: seq<string>)
    | BudgetChange(dailyBudget: int, totalDays: int)
    | PlacementChange(placement: string)
    | AdCopy(text: string)
    | StartDate(date: string)

  /** The fix table; the Creative and Guardrails pillars have no fix. */
  function FixFor(key: string): (r: Option<Patch>)
    ensures r.Some? <==> key in {AudienceKey, BudgetKey, OptimizationKey, CopyKey, TimeframeKey}
  {
    if key == AudienceKey then Some(GeoTargeting(["USA"]))
    else if key == BudgetKey then Some(BudgetChange(200000, 6))
    else if key == OptimizationKey then Some(PlacementChange(Auditor.NikePlacementType))
    else if key == CopyKey then Some(AdCopy("The best athletic gear for your Valentine."))
    else if key == TimeframeKey then Some(StartDate("2026-02-09"))
    else None
  }

  /** Of the seven pillars exactly Creative and Guardrails have no fix. */
  lemma PillarsWithoutFix()
    ensures forall i :: 0 <= i < |Pillars| ==> (FixFor(Pillars[i].key).None? <==> Pillars[i].key in {CreativeKey, GuardrailsKey})
  {
  }

  /** The budget and placement fixes, applied to the reshaped seed campaign
      (`Auditor.NikeSeedFields`), give the campaign the auditor certifies for the
      Nike contract: 1,200,000 in total, under the 2,000,000 cap the seed's
      4,000,000 breaks, and the contract's own placement type. */
  lemma FixesCertifyNikeSeed()
    ensures FixFor(BudgetKey).Some? && FixFor(BudgetKey).value.BudgetChange?
    ensures FixFor(OptimizationKey).Some? && FixFor(OptimizationKey).value.PlacementChange?
    ensures var b := FixFor(BudgetKey).value;
            var p := FixFor(OptimizationKey).value;
            var fixed := Auditor.NikeSeedFields.(dailyBudget := b.dailyBudget, totalDays := b.totalDays, placement := p.placement);
            && fixed == Auditor.NikeFixedFields
            && b.dailyBudget * b.totalDays <= Auditor.NikeContract.guardrails.totalBudgetLimit
            && Auditor.Evaluate(Auditor.NikeContract.guardrails, fixed, Auditor.Unavailable).overallStatus == Auditor.Certified
  {
    Auditor.NikeFixedCertified();
  }

  // ---------------------------------------------------------------------
  // Page state
  // ---------------------------------------------------------------------

  /** The page's state: the last response, the certified flag kept beside it,
      the drawn graph, the loading screen and the pillar being remediated. */
  datatype CanvasState = CanvasState(report: Option<AuditResponse>, certified: bool, graph: Graph,
                                     loading: bool, animating: Option<string>)

  const Initial: CanvasState := CanvasState(None, false, EmptyGraph, true, None)

  /** Storing a response: report and flag are set first, then the graph is
      rebuilt; a response missing a pillar leaves the old graph standing. */
  function Store(s: CanvasState, resp: AuditResponse): (r: CanvasState)
    ensures r.report == Some(resp) && r.certified == resp.isCertified
    ensures Complete(resp) ==> r.graph == BuildGraph(resp).value
    ensures !Complete(resp) ==> r.graph == s.graph
    ensures r.loading == s.loading && r.animating == s.animating
  {
    var g := BuildGraph(resp);
    s.(report := Some(resp), certified := resp.isCertified, graph := if g.Some? then g.value else s.graph)
  }

  /** The first audit on mount; `reply` is None when the request fails. The
      loading screen goes away either way. */
  function LoadInitial(s: CanvasState, reply: Option<AuditResponse>): (r: CanvasState)
    ensures !r.loading
    ensures reply.None? ==> r == s.(loading := false)
    ensures reply.Some? ==> r == Store(s, reply.value).(loading := false)
  {
    match reply
    case None => s.(loading := false)
    case Some(resp) => Store(s, resp).(loading := false)
  }

  /** Clicking Remediate: the overlay names the pillar until the timer ends. */
  function StartRemediate(s: CanvasState, key: string): (r: CanvasState)
    ensures r.animating == Some(key)
    ensures r.(animating := s.animating) == s
  {
    s.(animating := Some(key))
  }

  /** The timer's end: a pillar with a fix is re-audited with it and the
      reply stored; a pillar without one, or a failed request, changes
      nothing but the overlay, which is cleared in every case. */
  function FinishRemediate(s: CanvasState, key: string, reply: Option<AuditResponse>): (r: CanvasState)
    ensures r.animating.None?
    ensures FixFor(key).None? || reply.None? ==> r == s.(animating := None)
    ensures FixFor(key).Some? && reply.Some? ==> r == Store(s, reply.value).(animating := None)
  {
    if FixFor(key).Some? && reply.Some? then Store(s, reply.value).(animating := None)
    else s.(animating := None)
  }

  /** Remediating a pillar that has no fix (Creative, Guardrails) shows the
      overlay for a while and then leaves the page as it was. */
  lemma RemediateWithoutFixIsNoop(s: CanvasState, key: string, reply: Option<AuditResponse>)
    requires s.animating.None?
    requires key in {CreativeKey, GuardrailsKey}
    ensures FinishRemediate(StartRemediate(s, key), key, reply) == s
  {
    assert FixFor(key).None?;
  }

  /** The certified flag always agrees with the stored response, and is off
      while there is none. */
  predicate FlagMatchesReport(s: CanvasState) {
    match s.report
    case None => !s.certified
    case Some(resp) => s.certified == resp.isCertified
  }

  datatype Event = Loaded(reply: Option<AuditResponse>) | Clicked(key: string) | TimerFired(key: string, reply: Option<AuditResponse>)

  function Step(s: CanvasState, e: Event): CanvasState {
    match e
    case Loaded(reply) => LoadInitial(s, reply)
    case Clicked(key) => StartRemediate(s, key)
    case TimerFired(key, reply) => FinishRemediate(s, key, reply)
  }

  function Run(s: CanvasState, events: seq<Event>): CanvasState
    decreases |events|
  {
    if |events| == 0 then s else Run(Step(s, events[0]), events[1..])
  }

  lemma StepKeepsFlag(s: CanvasState, e: Event)
    requires FlagMatchesReport(s)
    ensures FlagMatchesReport(Step(s, e))
  {
  }

  /** From the initial state, whatever the events and replies, the flag the
      publish button reads agrees with the last stored response. */
  lemma {:induction false} RunKeepsFlag(s: CanvasState, events: seq<Event>)
    requires FlagMatchesReport(s)
    ensures FlagMatchesReport(Run(s, events))
    decreases |events|
  {
    if |events| > 0 {
      StepKeepsFlag(s, events[0]);
      RunKeepsFlag(Step(s, events[0]), events[1..]);
    }
  }

  lemma InitialFlagMatches(events: seq<Event>)
    ensures FlagMatchesReport(Run(Initial, events))
  {
    RunKeepsFlag(Initial, events);
  }

  // ---------------------------------------------------------------------
  // Header: logic score and publish button
  // ---------------------------------------------------------------------

  /** The header's score: 100 for a certified response and 45 for any other;
      with no stored response the header cannot be drawn (reading the
      missing response throws), shown as None. */
  function ShownScore(s: CanvasState): (r: Option<int>)
    ensures r.None? <==> s.report.None?
    ensures r == Some(100) <==> s.report.Some? && s.report.value.isCertified
    ensures r == Some(45) <==> s.report.Some? && !s.report.value.isCertified
  {
    match s.report
    case None => None
    case Some(resp) => Some(if resp.isCertified then 100 else 45)
  }

  datatype PublishButton = PublishButton(disabled: bool, caption: string)

  function PublishButtonOf(s: CanvasState): (b: PublishButton)
    ensures b.disabled <==> !s.certified
    ensures b.caption == "Publish to Live" <==> s.certified
    ensures b.caption == "Certification Required" <==> !s.certified
  {
    PublishButton(!s.certified, if s.certified then "Publish to Live" else "Certification Required")
  }

  /** On any reachable page the publish button is enabled exactly when the
      header shows 100. */
  lemma PublishEnabledIffScore100(events: seq<Event>)
    ensures var s := Run(Initial, events);
            !PublishButtonOf(s).disabled <==> ShownScore(s) == Some(100)
  {
    InitialFlagMatches(events);
  }
}
