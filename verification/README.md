# SetSync AI compliance layer — a Dafny model

SetSync AI checks an advertising campaign against the guardrails of a sales
contract before the campaign may go live. This project models the logic at
its core and proves properties of it.

- **Backend rule auditor and publish gate** (`backend/main.py`).
  - A campaign's budget, start date, genres and placement are checked against
    a contract's guardrails.
  - Every FAIL costs 25 points of a logic score.
  - The report is stored beside the campaign.
  - `publish-live` lets a campaign go live only when its stored report is
    certified.
- **Dashboard compliance state** (`src/App.jsx`, `Header.jsx`,
  `PushToLiveButton.jsx`).
  - The fallback compliance score computed from the audit flags.
  - The per-field connection-status map.
  - The one-flag remediation transition.
  - The push-to-live gate, and the gauge's colour bands.
- **Graph builders.**
  - The staging canvas (`frontend/app/page.tsx`) draws a contract card wired
    to seven compliance pillars. It also holds the fix each pillar's
    Remediate button sends and the certified score and publish button in its
    header.
  - The dashboard's node workspace (`NodeWorkspace.jsx`) draws a contract
    node wired to one node per field row. It also does the periodic edge
    recolouring and the minimap colours.
- **Status and gating rules of the view components.**
  - The audience, copy and creative cards, including media detection from
    the URL.
  - The audit-flag sidebar with its Remediate buttons.
  - The strategy-mirror sidebar with its Fix All button and summary.

Files:

- `wrappers.dfy`: `Option` and `Result`.
- `values.dfy`: status strings, colour tones, and JavaScript's `x || d` on
  values that may be missing.
- `text.dfy`:
  - ASCII case folding, which is what a `/i` regular expression without the
    unicode flag does;
  - `indexOf` and first-occurrence `replace`;
  - decimal rendering of integers in template literals, with a parse-back
    round trip.
- `auditor.dfy`: module `Auditor`, for `backend/main.py`.
- `app.dfy`: module `App`, for `src/App.jsx`.
- `workspace.dfy`: module `Workspace`, for `NodeWorkspace.jsx`.
- `canvas.dfy`: module `Canvas`, for `frontend/app/page.tsx`.
- `header.dfy`, `push_button.dfy`: the header gauge and the push button.
- `nodes.dfy`: modules `AudienceNode`, `CopyNode` and `CreativeNode`.
- `sidebars.dfy`: modules `AuditSidebar` and `StrategyMirror`.

Conventions:

- Everything is an immutable datatype with pure functions.
- Server errors are `Result` failures that carry the HTTP code and detail.
- Props or members that may be missing are `Option`s, and defaults follow
  JavaScript's rules:
  - `x || d` replaces any falsy value; for strings that means a missing
    value or `""`.
  - A destructuring default `= d` replaces only a missing prop.

## Model

| member | source | states |
|---|---|---|
| Auditor.BudgetIssue | backend/main.py:177-187 | The budget verdict is FAIL exactly when daily budget times flight days is above the contract cap; a FAIL names both the total and the cap |
| Auditor.DateIssues | backend/main.py:190-197 | A date issue exists exactly when the campaign starts strictly before the flight start, and it is always a FAIL; a compliant date gets no entry |
| Auditor.PlacementIssues | backend/main.py:206-213 | A placement issue exists exactly when the placement differs from the contract's placement type; it is a FAIL whose fix is that placement type |
| Auditor.ExactMatch | backend/main.py:153-161 | The fallback reports a genre exactly when it is both selected and forbidden, with at most one issue per selected genre |
| Auditor.ExactMatchAppend | backend/main.py:153-161 | The fallback keeps selection order: the issues for a longer selection are the first part's issues followed by the rest's |
| Auditor.ConvertEntries | backend/main.py:139-148 | The language model's entries become issues one for one, up to the first malformed entry; the whole answer is accepted only when every entry is well formed, and when it is not, the entry right after the converted ones is the malformed one that aborted the loop |
| Auditor.SemanticAudit | backend/main.py:128-163 | Every genre-check issue is a selected_genres FAIL; with no usable answer the result is exactly the exact-match fallback; a fully well-formed answer gives exactly its converted issues; an answer that breaks off at a malformed entry keeps the issues converted so far, followed by the exact-match fallback's issues |
| Auditor.CountFails | backend/main.py:216 | The FAIL count is zero exactly when every issue passed, and never exceeds the number of issues |
| Auditor.Score | backend/main.py:216-223 | The logic score is 100 minus 25 per FAIL, floored at 0 and within 0..100; the report is certified exactly when nothing failed, exactly when the score is 100 |
| Auditor.Evaluate | backend/main.py:170-223 | The report lists the audit's issues in check order and is certified exactly when its score is 100 |
| Auditor.BudgetReportedOnce | backend/main.py:176-187 | Every report holds exactly one budget issue, and it fails exactly when the attempted total exceeds the cap |
| Auditor.StartDateReported | backend/main.py:189-197 | A report holds a start-date entry exactly when the start is before the flight start, and never a passing one |
| Auditor.PlacementReported | backend/main.py:205-213 | A report holds a placement entry exactly when the placement is wrong, and never a passing one |
| Auditor.GenreEntries | backend/main.py:199-203 | The report's genre entries are the genre check's issues followed by a PASS entry only when the check found no violation |
| Auditor.GenrePassIffNoGenreFail | backend/main.py:200-203 | The genre PASS entry is in the report exactly when the genre check found no FAIL, and then it is the only genre entry |
| Auditor.FallbackGenreEntries | backend/main.py:150-163 | Without the language model the genre entries are one FAIL per forbidden selected genre in selection order, or the single PASS when there is none |
| Auditor.AuditCampaign | backend/main.py:165-229 | An unknown contract is a 404 that stores nothing; otherwise the report is computed, and campaign and report replace what was stored under the campaign's name, contracts untouched |
| Auditor.FailMessages | backend/main.py:239 | The violations list has one message per FAIL issue, and a message is listed exactly when some FAIL issue carries it |
| Auditor.FailMessagesAppend | backend/main.py:239 | The violations keep report order: the messages of two issue lists in sequence are the first list's messages followed by the second's |
| Auditor.PublishLive | backend/main.py:231-253 | Never audited is a 400 and a rejected report a 422 listing the FAIL messages; publishing succeeds exactly when the stored report is certified, and then the stored campaign becomes LIVE and nothing else in the store changes |
| Auditor.AuditThenPublish | backend/main.py:165-253 | Right after an audit, publishing succeeds exactly when the fresh report has no FAIL, and then the campaign is LIVE; otherwise the 422 lists exactly that report's FAIL messages |
| Auditor.NikeSeedRejected | backend/main.py:75-89 | The canvas's seed campaign, reshaped into the auditor's fields (4,000,000 against a 2,000,000 cap, social-feed placement) fails budget and placement and is rejected with score 50 |
| Auditor.NikeFixedCertified | backend/main.py:79-86 | With 200,000 a day for 6 days and the contract's PMP placement, every Nike check passes: certified with score 100 |
| Auditor.NikeScenario | backend/main.py:59-94 | Calling the audit and publish endpoints directly on the seeded store with the reshaped fields, the seed campaign cannot be published, and the fixed campaign audited under the same name can, ending LIVE |
| App.RoundRatioIsJsRound | src/App.jsx:146-148 | The integer formula (2p+n) div 2n equals JavaScript's Math.round of p/n, halves rounded up |
| App.RoundRatioRange | src/App.jsx:146-148 | An average of per-flag points each at most 100 rounds into 0..100, to 100 when every flag earns 100 and to 0 when none earns anything |
| App.FallbackScoreAsWritten | src/App.jsx:140-148 | The dashboard's fallback score is Math.round of the average of 100 per PASS and 50 per WARN; it lies in 0..100, all-PASS gives 100 and all-FAIL gives 0 |
| App.AsWrittenCertifiesAFailure | src/App.jsx:146-148 | As written, at least 199 PASS flags beside a single FAIL score 100 although a FAIL is outstanding |
| App.AsWrittenCounterexample | src/App.jsx:146-148 | The concrete list of 199 PASS flags and one FAIL scores 100 |
| App.FallbackScore | src/App.jsx:146-148 | The corrected score equals the written one below 100 and reaches 100 exactly when every flag passes |
| App.ApplyFallback | src/App.jsx:137-150 | The fallback fires only when there are flags and the score state is the number 0 (a reply object does not count), stores the rounded average as the code computes it, and changes nothing but the score |
| App.ApplyFallbackIdempotent | src/App.jsx:137-150 | Running the fallback effect again after it fired changes nothing |
| App.ApplyFallbackOpensGateOnFailure | src/App.jsx:137-150 | As written, the effect at score 0 with 199 PASS flags and one FAIL flag stores 100, so the push gate opens while a FAIL is outstanding |
| App.ApplyFallbackCorrected | src/App.jsx:137-150 | With the corrected score, the effect changes only the score, and when it fires the push gate opens exactly when every flag passes; it agrees with the code whenever the written score is below 100 |
| App.StoredScore | src/App.jsx:201 | Storing a score reply takes its `score` member, or the reply itself when that member is falsy: a bare number is stored as it is, an object's non-zero score is stored as a number, and only an object whose score is 0 leaves the object itself in the score state |
| App.StatusMap | src/App.jsx:48-51 | The initial connection map has exactly one key per field type |
| App.StatusMapLastWins | src/App.jsx:48-51 | Each field type maps to the status of its last row, PASS when that row's status is missing or empty |
| App.StatusMapOfUnique | src/App.jsx:48-51 | With unique field types every row's own status (or PASS) is what the map holds for it |
| App.FindField | src/App.jsx:167-169 | The found index is the first row of the flag's field type; nothing is found exactly when no row has that type |
| App.MarkPass | src/App.jsx:192-196 | Flags with the remediated id turn PASS; every other flag is kept as it was, in place |
| App.Remediate | src/App.jsx:161-216 | A thrown request or a flag matching no row changes nothing; otherwise only the first matching row (value from result, else expected, else old; PASS; stamped), that field's connection entry, the flags with that id and the score change; the score becomes the stored form of the score reply, and stays as it was when the score request threw |
| App.StatusMapReplace | src/App.jsx:186-189 | Replacing a row by one of the same type changes only that type's entry of the status map |
| App.RemediateKeepsConnectionInSync | src/App.jsx:171-189 | When the connection map mirrors unique field rows, it still mirrors them after any remediation |
| App.ScoreReplyShapeDecidesFallback | src/App.jsx:138-201 | After a remediation whose score reply is `{score: 0}`, the score state holds the reply object and the fallback effect never fires; a bare 0 reply lets it fire |
| App.PushAttempted | src/App.jsx:219 | Push is attempted exactly when the score state is the number 100; a reply object in the score state never pushes |
| Workspace.BuildNodes | src/components/NodeWorkspace.jsx:32-48 | The contract node (type contract, at (100, 250), carrying the contract) comes first, then for row i a field-<type> node of type field at (500 + 250·i, 150 + 150·i) carrying that row, in row order |
| Workspace.NodePositionsDistinct | src/components/NodeWorkspace.jsx:36-42 | No two workspace nodes share a position, whatever the rows hold |
| Workspace.LayoutDependsOnOrderOnly | src/components/NodeWorkspace.jsx:39-47 | Node positions depend only on how many rows precede a node, never on row contents |
| Workspace.FieldNodeIdInjective | src/components/NodeWorkspace.jsx:40 | Different field types give different node ids |
| Workspace.NodeIdsUniqueIff | src/components/NodeWorkspace.jsx:32-48 | Node ids are pairwise different exactly when the rows' field types are |
| Workspace.EdgeTone | src/components/NodeWorkspace.jsx:57 | An edge is red exactly when the map holds FAIL for its field, and green (#00d4aa) exactly otherwise, including a field the map does not mention |
| Workspace.BuildEdges | src/components/NodeWorkspace.jsx:50-64 | One animated smooth-step edge per row from the contract to the row's node, two pixels wide with a closed arrow; stroke and arrow share the row's edge colour from the connection map: red exactly when its status is FAIL, green otherwise |
| Workspace.PulseEdges | src/components/NodeWorkspace.jsx:72-87 | Recolouring keeps every edge except its stroke and arrow colour; both become the edge colour of the field type its target names once `field-` is removed: red exactly when the map holds FAIL for it, green otherwise |
| Workspace.PulseCatchesUp | src/components/NodeWorkspace.jsx:72-87 | Recolouring built edges with a newer map yields exactly a fresh build with that map: the prefix strip recovers each field type |
| Workspace.PulseKeepsBuiltColours | src/components/NodeWorkspace.jsx:72-87 | With the map unchanged, recolouring leaves built edges as they are |
| Workspace.PulseIdempotent | src/components/NodeWorkspace.jsx:72-87 | Recolouring twice with one map is recolouring once |
| Workspace.MiniMapColor | src/components/NodeWorkspace.jsx:125-131 | The contract node is green; another node is red exactly for FAIL and amber exactly for WARN, green otherwise |
| Workspace.EdgeRedIffRowFails | src/components/NodeWorkspace.jsx:57 | Once the map holds a row's status, its edge is red exactly when that row's status is FAIL |
| Workspace.NodeRedIffRowFails | src/components/NodeWorkspace.jsx:125-131 | A field node is red on the minimap exactly when its row's status is FAIL |
| Workspace.BuiltEdgeRedIffRowFails | src/components/NodeWorkspace.jsx:50-64 | With unique field types and the initial status map, a built edge is red exactly when its row fails |
| Workspace.MiniMapAgreesWithEdges | src/components/NodeWorkspace.jsx:57-131 | While the map mirrors unique rows, the minimap shows a field red exactly when its edge is red |
| Canvas.PillarMessage | frontend/app/page.tsx:163 | A card's message is the first issue when there is a non-empty one, and the placeholder otherwise |
| Canvas.PillarValue | frontend/app/page.tsx:162 | The budget card always shows the fixed total; any other card says Compliant exactly for PASS and Violation otherwise |
| Canvas.BuildGraph | frontend/app/page.tsx:131-179 | A graph is built exactly when every pillar is in the response: the Nike contract card at (50, 300), then seven pillar cards in fixed order, card i at (450, 50 + 100·i) with its pillar's title and field label, the response's status, the value line and the first-issue message; and seven edges e-contract-<key> from the contract, grey, animated exactly for PASS |
| Canvas.LayoutIndependentOfResponse | frontend/app/page.tsx:131-179 | Any two complete responses give the same node ids and positions and the same edge ids and targets |
| Canvas.BudgetCardIgnoresResponse | frontend/app/page.tsx:162 | The budget card shows $4,000,000 for every response, even one audited after the budget cut |
| Canvas.HeaderIcon | frontend/app/page.tsx:22-30 | The card header shows the check, alert or warning icon exactly for PASS, FAIL or WARN, and none for anything else |
| Canvas.ViewPillar | frontend/app/page.tsx:58-85 | Header and border are red, and the violation block with its Remediate button shows, exactly for a FAIL card; the button sends that card's pillar key |
| Canvas.FixFor | frontend/app/page.tsx:204-210 | A fix exists exactly for Audience, Budget, Optimization, Copy and Timeframe |
| Canvas.PillarsWithoutFix | frontend/app/page.tsx:204-215 | Of the seven pillars, exactly Creative and Guardrails have no fix |
| Canvas.FixesCertifyNikeSeed | frontend/app/page.tsx:204-207 | The budget and placement fixes, applied to the reshaped seed, give the campaign the auditor certifies for the Nike contract |
| Canvas.Store | frontend/app/page.tsx:185-187 | Storing a response sets the report and the certified flag from it; the graph is rebuilt when the response is complete and kept otherwise |
| Canvas.LoadInitial | frontend/app/page.tsx:181-193 | The first audit leaves the loading screen in every case, and stores the response only when the request succeeded |
| Canvas.StartRemediate | frontend/app/page.tsx:200-201 | Clicking Remediate names the pillar in the overlay and changes nothing else |
| Canvas.FinishRemediate | frontend/app/page.tsx:212-226 | The timer always clears the overlay; only a pillar with a fix and a successful re-audit stores a new response |
| Canvas.RemediateWithoutFixIsNoop | frontend/app/page.tsx:200-226 | Remediating Creative or Guardrails leaves the page exactly as it was |
| Canvas.StepKeepsFlag | frontend/app/page.tsx:181-227 | Every page event keeps the certified flag in agreement with the stored response |
| Canvas.RunKeepsFlag | frontend/app/page.tsx:181-227 | Any sequence of events keeps the certified flag in agreement with the stored response |
| Canvas.InitialFlagMatches | frontend/app/page.tsx:125-126 | From the initial page state, every reachable state's certified flag agrees with its stored response |
| Canvas.ShownScore | frontend/app/page.tsx:264-266 | The header shows 100 exactly for a certified response and 45 for any other; with no response it cannot be drawn |
| Canvas.PublishButtonOf | frontend/app/page.tsx:269-279 | The publish button is disabled and reads Certification Required exactly when not certified |
| Canvas.PublishEnabledIffScore100 | frontend/app/page.tsx:264-279 | On every reachable page the publish button is enabled exactly when the header shows 100 |
| Header.ShownScore | src/components/Header.jsx:4 | A supplied score is shown as it is; a missing one shows 75 |
| Header.ScoreTone | src/components/Header.jsx:10-14 | The bands partition the scores: green from 80, amber from 50 to 79, red below 50 |
| Header.ScoreToneMonotone | src/components/Header.jsx:10-14 | A higher score never falls in a worse band |
| Header.BandBoundaries | src/components/Header.jsx:11-12 | 80 is green, 79 and 50 are amber, 49 is red |
| Header.DefaultIsAmber | src/components/Header.jsx:4-16 | Without a score the gauge shows 75 in amber |
| PushButton.View | src/components/PushToLiveButton.jsx:6-26 | Disabled exactly below 100; aria-disabled mirrors disabled; hover and tap scaling only when enabled; the label names the score only when disabled |
| PushButton.DisabledLabelNamesScore | src/components/PushToLiveButton.jsx:22-25 | Two disabled buttons with the same label have the same score: the label carries the score faithfully |
| PushButton.EnabledIffPushAttempted | src/components/PushToLiveButton.jsx:6 | For scores up to 100 the button is enabled exactly when the dashboard's push handler would push |
| AudienceNode.Severance | src/components/nodes/AudienceNode.jsx:9 | The severance alarm is raised only by a present true |
| AudienceNode.View | src/components/nodes/AudienceNode.jsx:8-59 | Status defaults to PASS; the border is red exactly for severance or FAIL, amber exactly for WARN without severance, and green exactly when there is no severance and the status is neither FAIL nor WARN; the banner and ring show exactly with severance; the set-up age is red exactly for FAIL |
| AudienceNode.EmptyDataIsGreenPass | src/components/nodes/AudienceNode.jsx:8-15 | A card without data is a green PASS card without severance |
| AudienceNode.SeveranceRedBorderOnly | src/components/nodes/AudienceNode.jsx:12-58 | Severance with a PASS status reddens the border but leaves the set-up age plain |
| CopyNode.Violations | src/components/nodes/CopyNode.jsx:9 | A missing violations list is empty; a present one is used as it is |
| CopyNode.View | src/components/nodes/CopyNode.jsx:8-55 | The border is red exactly for FAIL or any violation, amber exactly for WARN without violations, and green exactly when there are no violations and the status is neither FAIL nor WARN; the list shows exactly when non-empty; the label counts the violations |
| CopyNode.LabelCountsViolations | src/components/nodes/CopyNode.jsx:26 | Two cards with the same status and label list equally many violations |
| CreativeNode.AnyOccurs | src/components/nodes/CreativeNode.jsx:17-18 | True exactly when one of the patterns occurs somewhere in the text |
| CreativeNode.IsImage | src/components/nodes/CreativeNode.jsx:17 | An image exactly when declared so or when the URL contains an image extension anywhere, ignoring ASCII case |
| CreativeNode.IsVideo | src/components/nodes/CreativeNode.jsx:18 | A video exactly when declared so or when the URL contains a video extension anywhere, ignoring ASCII case |
| CreativeNode.RightsBadge | src/components/nodes/CreativeNode.jsx:77-83 | Expired rights are red, Active green, any other value plain |
| CreativeNode.View | src/components/nodes/CreativeNode.jsx:8-68 | Status defaults to PASS and rights to Active; the border is red exactly for FAIL or expired rights, amber exactly for WARN with rights not expired, and green exactly when rights are not expired and the status is neither FAIL nor WARN; the type label is Image when an image, else Video when a video, else Unknown |
| CreativeNode.UpperCaseExtensionIsImage | src/components/nodes/CreativeNode.jsx:17 | An upper-case extension is recognised like a lower-case one |
| CreativeNode.ImageWinsOverVideo | src/components/nodes/CreativeNode.jsx:68 | A URL with both kinds of extension is labelled Image although it also counts as video |
| CreativeNode.EmptyDataDefaults | src/components/nodes/CreativeNode.jsx:8-9 | A card without data is a green PASS card with active rights and an unknown type |
| AuditSidebar.StyleFor | src/components/AuditSidebar.jsx:19-48 | Only the three known statuses have a style, and among them only PASS has no button style |
| AuditSidebar.IconFor | src/components/AuditSidebar.jsx:6-17 | Only the three known statuses have an icon |
| AuditSidebar.EntryFor | src/components/AuditSidebar.jsx:64-105 | An entry is keyed by the flag's id; its field line shows exactly for a non-empty field; its Remediate button shows exactly for FAIL and hands back the flag unchanged |
| AuditSidebar.View | src/components/AuditSidebar.jsx:5-116 | One entry per flag in input order, a missing list counting as empty; the empty-state note shows exactly when there are no flags |
| AuditSidebar.RemediableIffFailing | src/components/AuditSidebar.jsx:96 | The entries offering Remediate are exactly the failing flags |
| AuditSidebar.RemediatedFlagLosesButton | src/components/AuditSidebar.jsx:96-98 | After a remediation, no entry with the remediated id offers Remediate, and every other entry is unchanged |
| StrategyMirror.LineFor | src/components/StrategyMirrorSidebar.jsx:34-37 | A gap's remediation line shows exactly when its remediation is present and non-empty |
| StrategyMirror.View | src/components/StrategyMirrorSidebar.jsx:5-101 | One line per gap; the all-clear panel exactly without gaps; Fix All exactly with gaps, disabled, busy and reading Fixing... exactly while fixing; the count is the number of gaps; the status reads Action Required exactly with gaps |
| StrategyMirror.PanelsAgree | src/components/StrategyMirrorSidebar.jsx:22-101 | Exactly one of list and all-clear panel shows; Fix All shows with the list; the status reads Compliant with the panel |
| Values.BorderTone | src/components/nodes/AudienceNode.jsx:11-15 | The three cards' border rule: red exactly when the alarm is raised or the status is FAIL, amber exactly for WARN without alarm, green otherwise |
| Text.StripPrependedPrefix | src/components/NodeWorkspace.jsx:75 | Replacing the first field- in a target built as field- plus a type gives the type back |
| Text.NatToStringRoundTrip | src/components/nodes/CopyNode.jsx:26 | Reading the decimal digits a template literal prints for a count gives the count back |
| Text.IntToStringInjective | src/components/PushToLiveButton.jsx:24 | Different integers print differently |

## Left out

- The language-model call in `run_semantic_audit` (prompt, HTTP transport, markdown stripping, JSON decoding). It is a network call. Its outcome is a parameter: no usable answer, or the decoded entries, where a malformed entry is marked.
- HTTP clients, FastAPI routing and the uvicorn entry point. These are transport only, so requests and responses are inputs and outputs of the functions.
- React hooks and timers: the 30-second polling, the 1.5-second remediation delay and the 2-second edge pulse. These are scheduling, not logic. The fallback effect and the remediation are modelled as the transitions they perform. The poll's refresh of flags and score is not modelled, apart from the score normalisation it shares with remediation (`App.StoredScore`).
- Animations, ARIA live-region writes, `alert`, `window.location.reload`, and ReactFlow and framer-motion rendering. These are presentation only. The attributes the source derives from state are modelled, such as `aria-disabled`, `aria-busy` and the aria labels.
- The gauge's SVG arc. It is floating-point geometry with no bearing on compliance.
- The backend's `float` budgets are whole numbers. The budget figures in the source's own data are all whole, so they are modelled as integers.
- Issue messages are structured values, not rendered text. Rendering a Python float in an f-string is left out.
- `handlePublish` on the canvas and `handlePushToLive`'s request. The gate is modelled (`App.PushAttempted`, `Canvas.PublishButtonOf`); the request and its alert are I/O.
- The initial fetch and its hard-coded fallback data in `src/App.jsx`. This is I/O plus constants; the status map built from fetched rows is modelled.
- `FieldNode.jsx`, `ContractNode.jsx`, `StatusIndicator.jsx`, `TemporalNode.jsx` and `tailwind.config.js` are not part of this model. They are lookup tables, or depend on the locale.
- AudienceNode's interests and geographic lists, CopyNode's headline and body, and CreativeNode's thumbnail and metadata. These are text passed through unchanged.
- The `selected` highlight ring on the cards. It is a ReactFlow selection state.
- Header and PushButton take the score as a number. In the source, a reply object left in the score state by a `{score: 0}` reply is passed to the gauge and the button as it is. That case is not modelled in those views; `App.PushAttempted` does cover it.
- Header.ShownScore: only a missing score is replaced by 75. A `null` score, which the destructuring default does not replace, is not modelled.
- StrategyMirror.View: `isFixing` is a boolean. A non-boolean value passed as `isFixing` is not modelled.
- The canvas's requests do not match the backend. The canvas posts its seed nested by pillar (frontend/app/page.tsx:94-120), but `/audit/{contract_id}` expects a `fields` object (backend/main.py:41-44) and would refuse that body. The canvas sends its fixes to `/rerun-audit/...` (frontend/lib/api.ts:19-32), which backend/main.py does not define. `Auditor.NikeSeedFields` is therefore a hand reshaping of the seed: genres and age range are filled with an empty list and an empty string. The Nike lemmas run the backend on that reshaping, not a request the canvas can make.
- The canvas reads a `pillars` map that the backend's audit report does not contain. The canvas is modelled against the shape it reads. A response lacking a pillar makes graph building throw, which is modelled as the graph being kept.

## Findings

| source | as written | input that shows it | evidently intended | confidence | as-written member | corrected member |
|---|---|---|---|---|---|---|
| src/App.jsx:146-148 | The fallback score is `Math.round` of the average, so an average of 99.5 or more rounds to 100 | 199 PASS flags and 1 FAIL flag: (199·100)/200 = 99.5, which rounds to 100 | A score of 100, which opens the push gate at src/App.jsx:219, only when no flag is outstanding | not executed | App.ApplyFallbackOpensGateOnFailure | App.ApplyFallbackCorrected |

`App.ApplyFallback` follows the code as written, and so does the rest of the dashboard model.
`App.ApplyFallbackCorrected` uses `App.FallbackScore` in its place.
It agrees with the code whenever the written score is below 100.
