/** The audit flag sidebar: one entry per flag, a Remediate button on each
    failing one, and an empty-state note when there are no flags. */
module AuditSidebar {
  import opened Wrappers
  import opened Values
  import App

  datatype FlagIcon = AlertCircle | AlertTriangle | CheckCircle

  /** The style classes for a status; `button` is absent for PASS. */
  datatype FlagStyle = FlagStyle(bg: string, border: string, text: string, iconColor: string, button: Option<string>)

  /** The style for a status; an unknown status gets the empty style (None). */
  function StyleFor(status: string): (r: Option<FlagStyle>)
    ensures r.None? <==> status != FAIL && status != WARN && status != PASS
    ensures r.Some? ==> (r.value.button.None? <==> status == PASS)
  {
    if status == FAIL then
      Some(FlagStyle("bg-red-900/20", "border-accent-red", "text-red-100", "text-accent-red",
                     Some("bg-accent-red hover:bg-red-600 text-white")))
    else if status == WARN then
      Some(FlagStyle("bg-amber-900/20", "border-accent-amber", "text-amber-100", "text-accent-amber",
                     Some("bg-accent-amber hover:bg-amber-600 text-gray-900")))
    else if status == PASS then
      Some(FlagStyle("bg-green-900/20", "border-accent-green", "text-green-100", "text-accent-green", None))
    else None
  }

  function IconFor(status: string): (r: Option<FlagIcon>)
    ensures r.None? <==> status != FAIL && status != WARN && status != PASS
  {
    if status == FAIL then Some(AlertCircle)
    else if status == WARN then Some(AlertTriangle)
    else if status == PASS then Some(CheckCircle)
    else None
  }

  /** One list entry: its React key, what it shows, and the flag its
      Remediate button hands back, if it has one. */
  datatype Entry = Entry(
    key: string,
    style: Option<FlagStyle>,
    icon: Option<FlagIcon>,
    status: string,
    message: string,
    fieldLine: Option<string>,
    remediate: Option<App.Flag>)

  function EntryFor(flag: App.Flag): (e: Entry)
    ensures e.key == flag.id && e.status == flag.status && e.message == flag.message
    ensures e.fieldLine.Some? <==> flag.field != ""
    ensures e.fieldLine.Some? ==> e.fieldLine.value == flag.field
    ensures e.remediate.Some? <==> flag.status == FAIL
    ensures e.remediate.Some? ==> e.remediate.value == flag
  {
    Entry(flag.id, StyleFor(flag.status), IconFor(flag.status), flag.status, flag.message,
          if flag.field != "" then Some(flag.field) else None,
          if flag.status == FAIL then Some(flag) else None)
  }

  datatype SidebarView = SidebarView(entries: seq<Entry>, emptyState: bool)

  /** `flags = []` applies only when the prop is missing. */
  function View(flags: Option<seq<App.Flag>>): (v: SidebarView)
    ensures |v.entries| == |flags.GetOr([])|
    ensures forall i :: 0 <= i < |v.entries| ==> v.entries[i] == EntryFor(flags.GetOr([])[i])
    ensures v.emptyState <==> |flags.GetOr([])| == 0
  {
    var fs := flags.GetOr([]);
    SidebarView(seq(|fs|, i requires 0 <= i < |fs| => EntryFor(fs[i])), |fs| == 0)
  }

  /** The entries offering Remediate are exactly the failing flags. */
  lemma RemediableIffFailing(flags: seq<App.Flag>)
    ensures var v := View(Some(flags));
            forall i :: 0 <= i < |flags| ==> (v.entries[i].remediate.Some? <==> flags[i].status == FAIL)
  {
  }

  /** After a successful remediation of a flag, no entry with that flag's id
      offers Remediate any more; the other entries are as before. */
  lemma RemediatedFlagLosesButton(s: App.AppState, flag: App.Flag, at: int, value: Option<string>, refreshed: Option<App.ScoreReply>)
    requires flag.field in App.FieldTypes(s.fields)
    ensures var before := View(Some(s.flags));
            var after := View(Some(App.Remediate(s, flag, App.Remediated(value, at), refreshed).flags));
            && |after.entries| == |before.entries|
            && (forall i :: 0 <= i < |after.entries| && after.entries[i].key == flag.id ==> after.entries[i].remediate.None?)
            && (forall i :: 0 <= i < |after.entries| && after.entries[i].key != flag.id ==> after.entries[i] == before.entries[i])
  {
    var fs := App.Remediate(s, flag, App.Remediated(value, at), refreshed).flags;
    assert fs == App.MarkPass(s.flags, flag.id);
    var after := View(Some(fs));
    forall i | 0 <= i < |after.entries| && after.entries[i].key == flag.id
      ensures after.entries[i].remediate.None?
    {
      assert after.entries[i] == EntryFor(fs[i]);
      assert fs[i].status == PASS;
    }
  }
}

/** The strategy mirror sidebar: the strategic gaps, the Fix All button and
    the summary below them. */
module StrategyMirror {
  import opened Wrappers
  import opened Values
  import opened Text

  datatype Gap = Gap(message: string, remediation: Option<string>)

  /** One gap as listed: its message and, when present, its remediation. */
  datatype GapLine = GapLine(message: string, remediation: Option<string>)

  datatype FixAllButton = FixAllButton(disabled: bool, ariaBusy: bool, caption: string)

  datatype MirrorView = MirrorView(
    gapLines: seq<GapLine>,
    allClear: bool,
    fixAll: Option<FixAllButton>,
    totalGaps: int,
    statusText: string,
    summaryTone: Tone)

  function LineFor(g: Gap): (l: GapLine)
    ensures l.message == g.message
    ensures l.remediation.Some? <==> Truthy(g.remediation)
    ensures l.remediation.Some? ==> l.remediation == g.remediation
  {
    GapLine(g.message, if Truthy(g.remediation) then g.remediation else None)
  }

  /** The sidebar for the given gaps (`[]` when the prop is missing) and the
      fixing flag. */
  function View(strategicGaps: Option<seq<Gap>>, isFixing: bool): (v: MirrorView)
    ensures var gaps := strategicGaps.GetOr([]);
            && |v.gapLines| == |gaps|
            && (forall i :: 0 <= i < |gaps| ==> v.gapLines[i] == LineFor(gaps[i]))
            && (v.allClear <==> |gaps| == 0)
            && (v.fixAll.Some? <==> |gaps| > 0)
            && v.totalGaps == |gaps|
            && (v.statusText == "Action Required" <==> |gaps| > 0)
            && (v.statusText == "Compliant" <==> |gaps| == 0)
            && (v.summaryTone == Red <==> |gaps| > 0)
    ensures v.fixAll.Some? ==>
              && (v.fixAll.value.disabled <==> isFixing)
              && v.fixAll.value.ariaBusy == isFixing
              && (v.fixAll.value.caption == "Fixing..." <==> isFixing)
              && (v.fixAll.value.caption == "Fix All" <==> !isFixing)
  {
    var gaps := strategicGaps.GetOr([]);
    var hasGaps := |gaps| > 0;
    MirrorView(seq(|gaps|, i requires 0 <= i < |gaps| => LineFor(gaps[i])),
               !hasGaps,
               if hasGaps then Some(FixAllButton(isFixing, isFixing, if isFixing then "Fixing..." else "Fix All")) else None,
               |gaps|,
               if hasGaps then "Action Required" else "Compliant",
               if hasGaps then Red else Green)
  }

  /** The list, the all-clear panel, the button and the summary never
      disagree: exactly one of list and panel shows, the button shows with
      the list, and the summary says Compliant with the panel. */
  lemma PanelsAgree(strategicGaps: Option<seq<Gap>>, isFixing: bool)
    ensures var v := View(strategicGaps, isFixing);
            && (v.allClear <==> v.gapLines == [])
            && (v.fixAll.Some? <==> !v.allClear)
            && (v.statusText == "Compliant" <==> v.allClear)
            && (v.totalGaps == 0 <==> v.allClear)
  {
  }
}
