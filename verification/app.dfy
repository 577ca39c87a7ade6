/** The compliance state of the single-page dashboard: the audit flags, the
    campaign field rows, the per-field connection status and the compliance
    score, with the fallback score, the one-flag remediation transition and
    the push-to-live gate. */
module App {
  import opened Wrappers
  import opened Values

  /** An audit finding about one field. */
  datatype Flag = Flag(id: string, field: string, status: string, message: string)

  /** One audited campaign field; optional members may be absent. */
  datatype FieldRow = FieldRow(
    fieldType: string,
    value: Option<string>,
    expected: Option<string>,
    status: Option<string>,
    remediatedAt: Option<int>)

  datatype ContractData = ContractData(fields: map<string, string>)

  /** What the score state holds: a number, or the reply object itself when
      `scoreData.score || scoreData` fell through to it because its `score`
      was 0. */
  datatype ScoreState = Number(n: int) | ReplyObject(score: int)

  /** A compliance-score reply: a bare number, or an object with a `score`. */
  datatype ScoreReply = Bare(value: int) | Wrapped(score: int)

  /** `scoreData.score || scoreData`: a bare number has no `score` member and
      is kept; an object's non-zero `score` is taken; an object whose `score`
      is 0 is stored as the object. */
  function StoredScore(reply: ScoreReply): (r: ScoreState)
    ensures r.ReplyObject? <==> reply == Wrapped(0)
    ensures reply.Bare? ==> r == Number(reply.value)
    ensures reply.Wrapped? && reply.score != 0 ==> r == Number(reply.score)
  {
    match reply
    case Bare(v) => Number(v)
    case Wrapped(n) => if n != 0 then Number(n) else ReplyObject(n)
  }

  datatype AppState = AppState(
    score: ScoreState,
    flags: seq<Flag>,
    contract: ContractData,
    fields: seq<FieldRow>,
    connection: map<string, string>)

  // ---------------------------------------------------------------------
  // Fallback compliance score
  // ---------------------------------------------------------------------

  /** Number of flags with the given status. */
  function Count(flags: seq<Flag>, status: string): (r: nat)
    ensures r <= |flags|
    decreases |flags|
  {
    if |flags| == 0 then 0
    else Count(flags[..|flags| - 1], status) + (if flags[|flags| - 1].status == status then 1 else 0)
  }

  lemma {:induction false} CountAll(flags: seq<Flag>, status: string)
    ensures Count(flags, status) == |flags| <==> forall i :: 0 <= i < |flags| ==> flags[i].status == status
    decreases |flags|
  {
    if |flags| > 0 {
      var n := |flags| - 1;
      CountAll(flags[..n], status);
      assert forall i :: 0 <= i < n ==> flags[..n][i] == flags[i];
    }
  }

  lemma {:induction false} CountNone(flags: seq<Flag>, status: string)
    ensures Count(flags, status) == 0 <==> forall i :: 0 <= i < |flags| ==> flags[i].status != status
    decreases |flags|
  {
    if |flags| > 0 {
      var n := |flags| - 1;
      CountNone(flags[..n], status);
      assert forall i :: 0 <= i < n ==> flags[..n][i] == flags[i];
    }
  }

  lemma {:induction false} CountDisjoint3(flags: seq<Flag>, s1: string, s2: string, s3: string)
    requires s1 != s2 && s2 != s3 && s1 != s3
    ensures Count(flags, s1) + Count(flags, s2) + Count(flags, s3) <= |flags|
    decreases |flags|
  {
    if |flags| > 0 {
      CountDisjoint3(flags[..|flags| - 1], s1, s2, s3);
    }
  }

  /** A flag has one status, so counts of two statuses never overlap. */
  lemma {:induction false} CountDisjoint(flags: seq<Flag>, s1: string, s2: string)
    requires s1 != s2
    ensures Count(flags, s1) + Count(flags, s2) <= |flags|
    decreases |flags|
  {
    if |flags| > 0 {
      CountDisjoint(flags[..|flags| - 1], s1, s2);
    }
  }

  /** JavaScript's `Math.round`: the nearest integer, halves rounded up. */
  function JsRound(x: real): int {
    (x + 0.5).Floor
  }

  /** Points earned by the flags: 100 per PASS and 50 per WARN. */
  function Points(flags: seq<Flag>): (r: nat)
    ensures r <= 100 * |flags|
  {
    CountDisjoint(flags, PASS, WARN);
    100 * Count(flags, PASS) + 50 * Count(flags, WARN)
  }

  /** `Math.round(points / n)` in integer arithmetic. */
  function RoundRatio(points: nat, n: nat): nat
    requires n > 0
  {
    (2 * points + n) / (2 * n)
  }

  lemma MulMono(a: int, b: int, d: nat)
    requires a <= b
    ensures a * d <= b * d
  {
    assert b * d - a * d == (b - a) * d;
  }

  /** Integer division lands between any two multiples that bracket it. */
  lemma DivBetween(m: nat, d: nat, q: nat)
    requires d > 0
    ensures m < (q + 1) * d ==> m / d <= q
    ensures q * d <= m ==> q <= m / d
  {
    var k := m / d;
    assert k * d <= m < (k + 1) * d;
    if m < (q + 1) * d && k > q {
      MulMono(q + 1, k, d);
    }
    if q * d <= m && q > k {
      MulMono(k + 1, q, d);
    }
  }

  lemma RoundRatioRange(points: nat, n: nat)
    requires n > 0 && points <= 100 * n
    ensures RoundRatio(points, n) <= 100
    ensures points == 100 * n ==> RoundRatio(points, n) == 100
    ensures points == 0 ==> RoundRatio(points, n) == 0
  {
    DivBetween(2 * points + n, 2 * n, 100);
    DivBetween(2 * points + n, 2 * n, 0);
  }

  lemma RoundRatioIsJsRound(points: nat, n: nat)
    requires n > 0
    ensures RoundRatio(points, n) == JsRound(points as real / n as real)
  {
    var m := 2 * points + n;
    var d := 2 * n;
    var q := m / d;
    assert q * d <= m < (q + 1) * d;
    var x := points as real / n as real + 0.5;
    assert x == m as real / d as real;
    assert (q * d) as real == q as real * d as real;
    assert ((q + 1) * d) as real == (q + 1) as real * d as real;
    assert q as real <= x;
    assert x < (q + 1) as real;
  }

  /** The score the dashboard derives from its flags when the backend has
      not supplied one, exactly as the code computes it: the rounded average
      of 100 per PASS, 50 per WARN and 0 per FAIL. */
  function FallbackScoreAsWritten(flags: seq<Flag>): (r: int)
    requires |flags| > 0
    ensures 0 <= r <= 100
    ensures r == JsRound(Points(flags) as real / |flags| as real)
    ensures (forall i :: 0 <= i < |flags| ==> flags[i].status == PASS) ==> r == 100
    ensures (forall i :: 0 <= i < |flags| ==> flags[i].status == FAIL) ==> r == 0
  {
    var n := |flags|;
    var p := Points(flags);
    RoundRatioIsJsRound(p, n);
    RoundRatioRange(p, n);
    CountAll(flags, PASS);
    CountAll(flags, FAIL);
    CountDisjoint(flags, PASS, FAIL);
    CountDisjoint(flags, WARN, FAIL);
    RoundRatio(p, n)
  }

  /** As written, rounding lets a flag list with a FAIL in it reach 100:
      any 199 or more PASS flags beside a single FAIL average at least 99.5,
      which rounds up. */
  lemma AsWrittenCertifiesAFailure(flags: seq<Flag>)
    requires |flags| >= 200
    requires Count(flags, PASS) == |flags| - 1
    requires Count(flags, FAIL) == 1
    ensures FallbackScoreAsWritten(flags) == 100
    ensures exists i :: 0 <= i < |flags| && flags[i].status == FAIL
  {
    var n := |flags|;
    CountDisjoint3(flags, PASS, WARN, FAIL);
    assert Count(flags, WARN) == 0;
    var p := Points(flags);
    assert p == 100 * (n - 1);
    var m := 2 * p + n;
    var d := 2 * n;
    assert 100 * d <= m;
    DivBetween(m, d, 100);
    assert RoundRatio(p, n) == m / d;
    assert FallbackScoreAsWritten(flags) == RoundRatio(p, n);
    CountNone(flags, FAIL);
  }

  function Repeat(f: Flag, n: nat): (r: seq<Flag>)
    ensures |r| == n
    ensures forall i :: 0 <= i < n ==> r[i] == f
  {
    seq(n, i => f)
  }

  lemma {:induction false} CountRepeat(f: Flag, n: nat, status: string)
    ensures Count(Repeat(f, n), status) == if f.status == status then n else 0
    decreases n
  {
    if n > 0 {
      assert Repeat(f, n)[..n - 1] == Repeat(f, n - 1);
      CountRepeat(f, n - 1, status);
    }
  }

  /** The concrete input: 199 passing flags followed by one failing flag. */
  lemma AsWrittenCounterexample()
    ensures var flags := Repeat(Flag("p", "Budget", PASS, ""), 199) + [Flag("f", "Geos", FAIL, "")];
            && FallbackScoreAsWritten(flags) == 100
            && flags[199].status == FAIL
  {
    var pass := Flag("p", "Budget", PASS, "");
    var fail := Flag("f", "Geos", FAIL, "");
    var flags := Repeat(pass, 199) + [fail];
    assert flags[..199] == Repeat(pass, 199);
    CountRepeat(pass, 199, PASS);
    CountRepeat(pass, 199, FAIL);
    AsWrittenCertifiesAFailure(flags);
  }

  /** The fallback score with the rounding corrected at the top: it agrees
      with the code below 100, and it reaches 100 only when every flag
      passes, so an outstanding FAIL or WARN can never open the push gate. */
  function FallbackScore(flags: seq<Flag>): (r: int)
    requires |flags| > 0
    ensures 0 <= r <= 100
    ensures r == 100 <==> forall i :: 0 <= i < |flags| ==> flags[i].status == PASS
    ensures (forall i :: 0 <= i < |flags| ==> flags[i].status == FAIL) ==> r == 0
    ensures FallbackScoreAsWritten(flags) < 100 ==> r == FallbackScoreAsWritten(flags)
  {
    var rounded := FallbackScoreAsWritten(flags);
    CountAll(flags, PASS);
    if rounded == 100 && Count(flags, PASS) != |flags| then 99 else rounded
  }

  /** The fallback effect as the dashboard runs it: it fires only while there
      are flags and the score state is the number 0 (`=== 0`), stores the
      rounded average, and touches nothing but the score. */
  function ApplyFallback(s: AppState): (r: AppState)
    ensures r.flags == s.flags && r.fields == s.fields && r.connection == s.connection && r.contract == s.contract
    ensures !(|s.flags| > 0 && s.score == Number(0)) ==> r == s
    ensures |s.flags| > 0 && s.score == Number(0) ==> r.score == Number(FallbackScoreAsWritten(s.flags))
  {
    if |s.flags| > 0 && s.score == Number(0) then s.(score := Number(FallbackScoreAsWritten(s.flags))) else s
  }

  /** Re-running the effect after it has fired changes nothing more. */
  lemma ApplyFallbackIdempotent(s: AppState)
    ensures ApplyFallback(ApplyFallback(s)) == ApplyFallback(s)
  {
  }

  /** As written, the effect opens the push gate for a flag list that still
      holds a FAIL: 199 passing flags and one failing flag at score 0. */
  lemma ApplyFallbackOpensGateOnFailure(s: AppState)
    requires s.score == Number(0)
    requires s.flags == Repeat(Flag("p", "Budget", PASS, ""), 199) + [Flag("f", "Geos", FAIL, "")]
    ensures PushAttempted(ApplyFallback(s).score)
    ensures exists i :: 0 <= i < |s.flags| && s.flags[i].status == FAIL
  {
    AsWrittenCounterexample();
    assert s.flags[199].status == FAIL;
  }

  /** The fallback effect with the corrected score: when it fires, the push
      gate opens exactly when every flag passes. */
  function ApplyFallbackCorrected(s: AppState): (r: AppState)
    ensures r.flags == s.flags && r.fields == s.fields && r.connection == s.connection && r.contract == s.contract
    ensures !(|s.flags| > 0 && s.score == Number(0)) ==> r == s
    ensures |s.flags| > 0 && s.score == Number(0) ==>
              (PushAttempted(r.score) <==> forall i :: 0 <= i < |s.flags| ==> s.flags[i].status == PASS)
    ensures |s.flags| > 0 && s.score == Number(0) && FallbackScoreAsWritten(s.flags) < 100 ==> r == ApplyFallback(s)
  {
    if |s.flags| > 0 && s.score == Number(0) then s.(score := Number(FallbackScore(s.flags))) else s
  }

  // ---------------------------------------------------------------------
  // Initial connection-status map
  // ---------------------------------------------------------------------

  /** No two rows share a field type. */
  predicate UniqueFieldTypes(fields: seq<FieldRow>) {
    forall i, j :: 0 <= i < j < |fields| ==> fields[i].fieldType != fields[j].fieldType
  }

  function FieldTypes(fields: seq<FieldRow>): set<string> {
    set i | 0 <= i < |fields| :: fields[i].fieldType
  }

  /** The status map built from the field rows, one entry per field type. */
  function StatusMap(fields: seq<FieldRow>): (m: map<string, string>)
    ensures m.Keys == FieldTypes(fields)
    decreases |fields|
  {
    if |fields| == 0 then map[]
    else
      var n := |fields| - 1;
      var prefix := fields[..n];
      assert FieldTypes(fields) == FieldTypes(prefix) + {fields[n].fieldType} by {
        assert forall i :: 0 <= i < n ==> fields[i] == prefix[i];
      }
      StatusMap(prefix)[fields[n].fieldType := OrElse(fields[n].status, PASS)]
  }

  /** Row `i` is the last row with its field type. */
  predicate LastOfType(fields: seq<FieldRow>, i: int)
    requires 0 <= i < |fields|
  {
    forall j :: i < j < |fields| ==> fields[j].fieldType != fields[i].fieldType
  }

  /** Each field type maps to the status of its last row, PASS when that
      row has no status. */
  lemma {:induction false} StatusMapLastWins(fields: seq<FieldRow>, i: nat)
    requires i < |fields| && LastOfType(fields, i)
    ensures StatusMap(fields)[fields[i].fieldType] == OrElse(fields[i].status, PASS)
    decreases |fields|
  {
    var n := |fields| - 1;
    if i < n {
      var prefix := fields[..n];
      assert prefix[i] == fields[i];
      assert LastOfType(prefix, i);
      StatusMapLastWins(prefix, i);
    }
  }

  lemma StatusMapOfUnique(fields: seq<FieldRow>)
    requires UniqueFieldTypes(fields)
    ensures forall i :: 0 <= i < |fields| ==> StatusMap(fields)[fields[i].fieldType] == OrElse(fields[i].status, PASS)
  {
    forall i | 0 <= i < |fields|
      ensures StatusMap(fields)[fields[i].fieldType] == OrElse(fields[i].status, PASS)
    {
      StatusMapLastWins(fields, i);
    }
  }

  // ---------------------------------------------------------------------
  // Remediation of one flag
  // ---------------------------------------------------------------------

  /** Index of the first row with the given field type. */
  function FindFieldFrom(fields: seq<FieldRow>, fieldType: string, from: nat): (r: Option<nat>)
    decreases |fields| - from
    ensures r.Some? ==> from <= r.value < |fields| && fields[r.value].fieldType == fieldType
    ensures r.Some? ==> forall j :: from <= j < r.value ==> fields[j].fieldType != fieldType
    ensures r.None? ==> forall j :: from <= j < |fields| ==> fields[j].fieldType != fieldType
  {
    if from >= |fields| then None
    else if fields[from].fieldType == fieldType then Some(from)
    else FindFieldFrom(fields, fieldType, from + 1)
  }

  function FindField(fields: seq<FieldRow>, fieldType: string): (r: Option<nat>)
    ensures r.Some? ==> r.value < |fields| && fields[r.value].fieldType == fieldType
    ensures r.Some? ==> forall j :: 0 <= j < r.value ==> fields[j].fieldType != fieldType
    ensures r.None? <==> fieldType !in FieldTypes(fields)
  {
    var r := FindFieldFrom(fields, fieldType, 0);
    assert r.Some? ==> fields[r.value].fieldType in FieldTypes(fields);
    r
  }

  /** Every flag with the given id turns PASS; every other flag is kept. */
  function MarkPass(flags: seq<Flag>, id: string): (r: seq<Flag>)
    ensures |r| == |flags|
    ensures forall i :: 0 <= i < |flags| && flags[i].id != id ==> r[i] == flags[i]
    ensures forall i :: 0 <= i < |flags| && flags[i].id == id ==> r[i] == flags[i].(status := PASS)
  {
    seq(|flags|, i requires 0 <= i < |flags| => if flags[i].id == id then flags[i].(status := PASS) else flags[i])
  }

  /** What the remediation request returned: the new value (possibly
      absent), stamped with the time of the response, or a thrown error. */
  datatype RemediateOutcome = Remediated(value: Option<string>, at: int) | Threw

  /** The one-flag remediation transition. `refreshed` is the reply of the
      follow-up score request, None when that request threw. */
  function Remediate(s: AppState, flag: Flag, outcome: RemediateOutcome, refreshed: Option<ScoreReply>): (r: AppState)
    ensures r.contract == s.contract
    ensures outcome.Threw? || flag.field !in FieldTypes(s.fields) ==> r == s
    ensures outcome.Remediated? && flag.field in FieldTypes(s.fields) ==>
              var i := FindField(s.fields, flag.field).value;
              var old_ := s.fields[i];
              && |r.fields| == |s.fields|
              && r.fields[i] == old_.(value := FirstTruthy(outcome.value, old_.expected, old_.value),
                                     status := Some(PASS),
                                     remediatedAt := Some(outcome.at))
              && (forall j :: 0 <= j < |s.fields| && j != i ==> r.fields[j] == s.fields[j])
              && r.connection == s.connection[flag.field := PASS]
              && r.flags == MarkPass(s.flags, flag.id)
              && (refreshed.None? ==> r.score == s.score)
              && (refreshed.Some? ==> r.score == StoredScore(refreshed.value))
  {
    match outcome
    case Threw => s
    case Remediated(value, at) =>
      match FindField(s.fields, flag.field)
      case None => s
      case Some(i) =>
        var f := s.fields[i];
        var fixed := f.(value := FirstTruthy(value, f.expected, f.value), status := Some(PASS), remediatedAt := Some(at));
        s.(fields := s.fields[i := fixed],
           connection := s.connection[flag.field := PASS],
           flags := MarkPass(s.flags, flag.id),
           score := if refreshed.Some? then StoredScore(refreshed.value) else s.score)
  }

  /** Replacing a row by one of the same field type keeps every row's type. */
  lemma ReplaceKeepsTypes(fields: seq<FieldRow>, i: nat, row: FieldRow)
    requires i < |fields| && row.fieldType == fields[i].fieldType
    ensures forall j :: 0 <= j < |fields| ==> fields[i := row][j].fieldType == fields[j].fieldType
    ensures UniqueFieldTypes(fields) ==> UniqueFieldTypes(fields[i := row])
    ensures FieldTypes(fields[i := row]) == FieldTypes(fields)
  {
    var fs := fields[i := row];
    assert forall j :: 0 <= j < |fields| ==> fs[j].fieldType == fields[j].fieldType;
    assert forall k :: k in FieldTypes(fields) ==> k in FieldTypes(fs) by {
      forall k | k in FieldTypes(fields) ensures k in FieldTypes(fs) {
        var j :| 0 <= j < |fields| && fields[j].fieldType == k;
        assert fs[j].fieldType == k;
      }
    }
  }

  /** One key of the status map after replacing row `i`. */
  lemma StatusMapReplaceAt(fields: seq<FieldRow>, i: nat, row: FieldRow, k: string)
    requires UniqueFieldTypes(fields)
    requires i < |fields| && row.fieldType == fields[i].fieldType
    requires k in FieldTypes(fields)
    ensures k in StatusMap(fields[i := row])
    ensures StatusMap(fields[i := row])[k] == StatusMap(fields)[row.fieldType := OrElse(row.status, PASS)][k]
  {
    var fs := fields[i := row];
    ReplaceKeepsTypes(fields, i, row);
    var j :| 0 <= j < |fields| && fields[j].fieldType == k;
    assert LastOfType(fields, j);
    assert LastOfType(fs, j);
    StatusMapLastWins(fs, j);
    if j == i {
      assert fs[j] == row;
    } else {
      assert fs[j] == fields[j];
      assert k != row.fieldType;
      StatusMapLastWins(fields, j);
    }
  }

  /** Replacing a row by one of the same field type changes only that
      type's entry in the status map. */
  lemma StatusMapReplace(fields: seq<FieldRow>, i: nat, row: FieldRow)
    requires UniqueFieldTypes(fields)
    requires i < |fields| && row.fieldType == fields[i].fieldType
    ensures UniqueFieldTypes(fields[i := row])
    ensures StatusMap(fields[i := row]) == StatusMap(fields)[row.fieldType := OrElse(row.status, PASS)]
  {
    ReplaceKeepsTypes(fields, i, row);
    var m1 := StatusMap(fields[i := row]);
    var m2 := StatusMap(fields)[row.fieldType := OrElse(row.status, PASS)];
    assert fields[i].fieldType in FieldTypes(fields);
    assert m1.Keys == m2.Keys;
    forall k | k in m1.Keys
      ensures m1[k] == m2[k]
    {
      StatusMapReplaceAt(fields, i, row, k);
    }
  }

  /** When the connection map mirrors the field rows (field types unique),
      a remediation keeps it mirroring them. */
  lemma RemediateKeepsConnectionInSync(s: AppState, flag: Flag, outcome: RemediateOutcome, refreshed: Option<ScoreReply>)
    requires UniqueFieldTypes(s.fields)
    requires s.connection == StatusMap(s.fields)
    ensures var r := Remediate(s, flag, outcome, refreshed);
            UniqueFieldTypes(r.fields) && r.connection == StatusMap(r.fields)
  {
    if outcome.Remediated? && flag.field in FieldTypes(s.fields) {
      var i := FindField(s.fields, flag.field).value;
      var f := s.fields[i];
      var fixed := f.(value := FirstTruthy(outcome.value, f.expected, f.value),
                      status := Some(PASS), remediatedAt := Some(outcome.at));
      StatusMapReplace(s.fields, i, fixed);
      assert Remediate(s, flag, outcome, refreshed).fields == s.fields[i := fixed];
    }
  }

  /** A remediation whose score reply is `{score: 0}` leaves the reply object
      in the score state, so the fallback effect never fires afterwards; a
      bare 0 lets it fire. */
  lemma ScoreReplyShapeDecidesFallback(s: AppState, flag: Flag, value: Option<string>, at: int)
    requires flag.field in FieldTypes(s.fields) && |s.flags| > 0
    ensures var r := Remediate(s, flag, Remediated(value, at), Some(Wrapped(0)));
            r.score.ReplyObject? && ApplyFallback(r) == r
    ensures var r := Remediate(s, flag, Remediated(value, at), Some(Bare(0)));
            ApplyFallback(r).score == Number(FallbackScoreAsWritten(r.flags))
  {
  }

  /** The push handler's gate (`complianceScore === 100`): only the number 100
      pushes; a reply object held in the score state never does. */
  predicate PushAttempted(score: ScoreState)
    ensures PushAttempted(score) <==> score.Number? && score.n == 100
    ensures score.ReplyObject? ==> !PushAttempted(score)
  {
    score == Number(100)
  }
}
