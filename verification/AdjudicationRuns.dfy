/** What sequences of engine passes and analyst decisions keep. */
module AdjudicationRuns {
  import opened Common
  import opened Adjudication

  /** One pass of the engine, or one analyst decision; a bulk decision is one per finding it changes. */
  datatype Step =
    | EnginePass(run: nat, analysis: nat, report: Report, synthetic: bool)
    | Reclassify(finding: nat, actor: string, verdict: string, confidence: string)
    | BulkVerdict(findings: seq<nat>, actor: string, verdict: string)

  datatype Case = Case(book: Book, verdicts: seq<ProcessVerdict>)

  function Decide(book: Book, id: nat, actor: string, verdict: string, confidence: string): Book {
    if id >= |book.findings| then book
    else
      var f := book.findings[id];
      Book(book.findings[id := f.(verdict := verdict, confidence := confidence, holder := ANALYST, conflict := None)],
           book.history + [Reclassification(id, actor, f.verdict, verdict, f.confidence, confidence)])
  }

  /** A bulk decision leaves a finding that already has the verdict alone, and never touches a confidence. */
  function DecideAll(book: Book, ids: seq<nat>, actor: string, verdict: string): Book
    decreases |ids|
  {
    if ids == [] then book
    else
      var id := ids[0];
      var after := if id < |book.findings| && book.findings[id].verdict != verdict
                   then Decide(book, id, actor, verdict, book.findings[id].confidence) else book;
      DecideAll(after, ids[1..], actor, verdict)
  }

  function Next(c: Case, step: Step): Case {
    match step
    case EnginePass(run, analysis, report, synthetic) =>
      var rows := RowsOf(run, analysis, report);
      Case(Applied(c.book, Rulings(c.book.findings, run, Applicable(rows, synthetic), analysis)),
           SupersedeAll(c.verdicts, run, analysis) + rows)
    case Reclassify(id, actor, verdict, confidence) => c.(book := Decide(c.book, id, actor, verdict, confidence))
    case BulkVerdict(ids, actor, verdict) => c.(book := DecideAll(c.book, ids, actor, verdict))
  }

  function Run(c: Case, steps: seq<Step>): Case
    decreases |steps|
  {
    if steps == [] then c else Run(Next(c, steps[0]), steps[1..])
  }

  // ---- What a ruling may do ---------------------------------------------------------------------

  /** What every ruling keeps: an analyst's verdict stands, and a verdict changes only together with a history row. */
  ghost predicate Lawful(id: nat, f: Finding, r: Ruling) {
    && r.finding.run == f.run && r.finding.kind == f.kind && r.finding.pid == f.pid
    && (f.holder == ANALYST ==>
          && r.finding.verdict == f.verdict && r.finding.confidence == f.confidence && r.finding.raw == f.raw
          && r.finding.holder == ANALYST && !r.updated && r.history == None)
    && (r.finding.verdict != f.verdict <==> r.history.Some?)
    && (r.history.Some? ==>
          && r.history.value.finding == id
          && r.history.value.actor == "investigation-engine"
          && r.history.value.fromVerdict == f.verdict && r.history.value.toVerdict == r.finding.verdict
          && r.history.value.fromConfidence == f.confidence && r.history.value.toConfidence == r.finding.confidence)
    && (!r.updated ==> r.finding == f.(conflict := r.finding.conflict))
  }

  lemma RulingsAreLawful(id: nat, f: Finding, byPid: map<int, ProcessVerdict>, analysis: nat)
    ensures Lawful(id, f, Rule(id, f, byPid, analysis))
  {
  }

  /** A finding the engine may rule on takes the verdict of its process, and a diagnostic takes none. */
  lemma RulingReachesTheFinding(id: nat, f: Finding, byPid: map<int, ProcessVerdict>, analysis: nat)
    requires f.holder != ANALYST
    ensures var after := Rule(id, f, byPid, analysis).finding;
            if "YARA Scan Coverage Incomplete" <= f.kind || "Unnamed Carved Module" <= f.kind then
              after.verdict == "Indeterminate"
            else if f.pid.GetOr(0) in byPid then
              var v := byPid[f.pid.GetOr(0)];
              && after.verdict == v.verdict && after.confidence == v.confidence && after.holder == ENGINE
              && AdjudicationOf(after.raw) == Some(ByEngine(StampOf(v)))
            else after == f
  {
  }

  /**
   A diagnostic is put back to where no verdict was given, whatever was said about its process; one that is there
   already is left alone.
   */
  lemma DiagnosticIsCleared(id: nat, f: Finding, byPid: map<int, ProcessVerdict>, analysis: nat)
    requires "YARA Scan Coverage Incomplete" <= f.kind || "Unnamed Carved Module" <= f.kind
    requires f.holder != "analyst"
    ensures var r := Rule(id, f, byPid, analysis);
            var judged := f.raw.Dict? && f.raw.adjudication.Some?
                          && (f.raw.adjudication.value.ByEngine? || f.raw.adjudication.value.truthy);
            if f.verdict == "Indeterminate" && !judged then r.finding == f && !r.updated
            else
              && r.updated && r.finding.verdict == "Indeterminate" && r.finding.confidence == "Low"
              && r.finding.raw == Dict(if f.raw.Dict? then f.raw.rest else "", None)
              && r.finding.holder == "engine" && r.finding.producedBy == Some(analysis)
  {
  }

  /** A finding no process is named in, that the engine may rule on. */
  predicate Unattributed(f: Finding) {
    f.pid == None && !NonDetection(f) && f.holder != ANALYST
  }

  /** The report says nothing against the finding under PID 0, the engine's bucket for what it could not attribute. */
  predicate BucketAgrees(f: Finding, rows: seq<ProcessVerdict>, synthetic: bool) {
    synthetic || 0 !in ByPid(rows) || ByPid(rows)[0].verdict == f.verdict
  }

  /**
   Over one pass, an unattributed finding keeps its verdict exactly when the image is synthetic, the report has no
   verdict for PID 0, or that verdict is the finding's own. Findings of other runs keep theirs.
   */
  lemma UnattributedKeepsVerdictIff(c: Case, run: nat, analysis: nat, report: Report, synthetic: bool, id: nat)
    requires id < |c.book.findings| && Unattributed(c.book.findings[id])
    ensures var f := c.book.findings[id];
            var after := Next(c, EnginePass(run, analysis, report, synthetic)).book.findings;
            |after| == |c.book.findings|
            && (after[id].verdict == f.verdict <==>
                  f.run != run || BucketAgrees(f, RowsOf(run, analysis, report), synthetic))
  {
    var f, rows := c.book.findings[id], RowsOf(run, analysis, report);
    hide RowsOf, ByPid;
    var byPid := Applicable(rows, synthetic);
    assert 0 in byPid <==> !synthetic && 0 in ByPid(rows);
    var after := Next(c, EnginePass(run, analysis, report, synthetic)).book.findings;
    assert after[id] == RuleAt(c.book.findings, id, run, byPid, analysis).finding;
  }

  /** A report whose only true positive is its unattributed bucket overturns a collector's verdict that names no process. */
  lemma UnattributedCanBeOverturned(kind: string, weight: real)
    requires !NonDetection(Finding(0, kind, None, "", "", Dict("", None), "", None, None))
    ensures var f := Finding(0, kind, None, "Likely False Positive", "Low", Dict("", None), "", None, None);
            var report := Report([Entry(0, "[host/kernel]", weight, "")], [], []);
            Next(Case(Book([f], []), []), EnginePass(0, 1, report, false)).book.findings[0].verdict == TRUE_POSITIVE
  {
    var f := Finding(0, kind, None, "Likely False Positive", "Low", Dict("", None), "", None, None);
    var report := Report([Entry(0, "[host/kernel]", weight, "")], [], []);
    var rows := RowsOf(0, 1, report);
    var row := VerdictRow(0, 1, TRUE_POSITIVE, report.truePositives[0]);
    assert rows == [row];
    assert [row][..0] == [];
    assert ByPid([row]) == map[0 := row];
    var c := Case(Book([f], []), []);
    assert Applicable(rows, false) == map[0 := row] && row.verdict == TRUE_POSITIVE;
    RulingReachesTheFinding(0, f, map[0 := row], 1);
    assert Next(c, EnginePass(0, 1, report, false)).book.findings[0] == Rule(0, f, map[0 := row], 1).finding;
  }

  /** Ruling again on the outcome rewrites nothing and writes no history. */
  lemma RulingIsIdempotent(id: nat, f: Finding, byPid: map<int, ProcessVerdict>, analysis: nat)
    ensures var once := Rule(id, f, byPid, analysis).finding;
            Rule(id, once, byPid, analysis) == Ruling(once, false, None)
  {
    var once := Rule(id, f, byPid, analysis).finding;
    assert NonDetection(once) == NonDetection(f);
  }

  // ---- Repeating a pass -------------------------------------------------------------------------

  /** The same pass applied again updates no finding and adds no history row. */
  lemma SamePassAgainChangesNothing(book: Book, run: nat, byPid: map<int, ProcessVerdict>, analysis: nat, once: Book)
    requires once == Applied(book, Rulings(book.findings, run, byPid, analysis))
    ensures var again := Rulings(once.findings, run, byPid, analysis);
            Applied(once, again) == once && UpdateCount(again) == 0
  {
    var again := Rulings(once.findings, run, byPid, analysis);
    forall i | 0 <= i < |once.findings|
      ensures again[i] == Ruling(once.findings[i], false, None)
    {
      RulingsAreLawful(i, book.findings[i], byPid, analysis);
      RulingIsIdempotent(i, book.findings[i], byPid, analysis);
    }
    QuietRulings(again);
    assert Applied(once, again).findings == once.findings;
  }

  /** The same verdicts, recorded under another analysis. */
  ghost predicate SameButAnalysis(a: map<int, ProcessVerdict>, b: map<int, ProcessVerdict>, analysis: nat) {
    a.Keys == b.Keys && forall p | p in a :: b[p] == a[p].(analysis := analysis)
  }

  ghost predicate RowsSameButAnalysis(a: seq<ProcessVerdict>, b: seq<ProcessVerdict>, analysis: nat) {
    |a| == |b| && forall i | 0 <= i < |a| :: b[i] == a[i].(analysis := analysis)
  }

  lemma {:induction false} ByPidSameButAnalysis(a: seq<ProcessVerdict>, b: seq<ProcessVerdict>, analysis: nat)
    requires RowsSameButAnalysis(a, b, analysis)
    ensures SameButAnalysis(ByPid(a), ByPid(b), analysis)
  {
    if a != [] {
      ByPidSameButAnalysis(a[..|a| - 1], b[..|b| - 1], analysis);
    }
  }

  /** A conflict with nothing but its analysis number changed. */
  ghost predicate SameConflictButAnalysis(a: Option<Conflict>, b: Option<Conflict>, analysis: nat) {
    a == b || (a.Some? && b == Some(a.value.(analysis := analysis)))
  }

  lemma RulingUnderAnotherAnalysis(id: nat, f: Finding, byPid: map<int, ProcessVerdict>, first: nat,
                                   byPid': map<int, ProcessVerdict>, second: nat)
    requires SameButAnalysis(byPid, byPid', second)
    ensures var once := Rule(id, f, byPid, first).finding;
            var again := Rule(id, once, byPid', second);
            && !again.updated && again.history == None
            && again.finding == once.(conflict := again.finding.conflict)
            && SameConflictButAnalysis(once.conflict, again.finding.conflict, second)
  {
    var once := Rule(id, f, byPid, first).finding;
    var p := f.pid.GetOr(0);
    assert NonDetection(once) == NonDetection(f) && once.pid == f.pid;
    if p in byPid {
      var v, v' := byPid[p], byPid'[p];
      assert v' == v.(analysis := second);
      assert StampOf(v') == StampOf(v) && v'.verdict == v.verdict && v'.confidence == v.confidence;
    }
  }

  /** The same report under another analysis changes nothing but the analysis number inside recorded disagreements. */
  lemma SameReportUnderAnotherAnalysis(book: Book, run: nat, report: Report, synthetic: bool, first: nat, second: nat,
                                       once: Book)
    requires once == Applied(book, Rulings(book.findings, run, Applicable(RowsOf(run, first, report), synthetic), first))
    ensures var again := Rulings(once.findings, run, Applicable(RowsOf(run, second, report), synthetic), second);
            var after := Applied(once, again);
            && UpdateCount(again) == 0 && after.history == once.history
            && forall i | 0 <= i < |once.findings| ::
                 && after.findings[i] == once.findings[i].(conflict := after.findings[i].conflict)
                 && SameConflictButAnalysis(once.findings[i].conflict, after.findings[i].conflict, second)
  {
    ReportSameButAnalysis(run, report, synthetic, first, second);
    hide Applicable, RowsOf, Rule;
    var byPid := Applicable(RowsOf(run, first, report), synthetic);
    var byPid' := Applicable(RowsOf(run, second, report), synthetic);
    assert byPid == map[] <==> byPid' == map[] by { assert byPid.Keys == byPid'.Keys; }
    var again := Rulings(once.findings, run, byPid', second);
    forall i | 0 <= i < |once.findings|
      ensures !again[i].updated && again[i].history == None
      ensures again[i].finding == once.findings[i].(conflict := again[i].finding.conflict)
      ensures SameConflictButAnalysis(once.findings[i].conflict, again[i].finding.conflict, second)
    {
      RulingsAreLawful(i, book.findings[i], byPid, first);
      RulingUnderAnotherAnalysis(i, book.findings[i], byPid, first, byPid', second);
    }
    QuietRulings(again);
  }

  lemma RowsUnderAnotherAnalysis(run: nat, report: Report, first: nat, second: nat)
    ensures RowsSameButAnalysis(RowsOf(run, first, report), RowsOf(run, second, report), second)
  {
    hide VerdictRow;
    var a, b, c := report.truePositives, report.undetermined, report.noiseClosed;
    LabelUnderAnotherAnalysis(run, TRUE_POSITIVE, a, first, second);
    LabelUnderAnotherAnalysis(run, "Undetermined", b, first, second);
    LabelUnderAnotherAnalysis(run, "Noise Closed", c, first, second);
    hide RowsSameButAnalysis, LabelRows;
    var x, y := LabelRows(run, first, TRUE_POSITIVE, a), LabelRows(run, first, "Undetermined", b);
    var x', y' := LabelRows(run, second, TRUE_POSITIVE, a), LabelRows(run, second, "Undetermined", b);
    SameConcat(x, y, x', y', second);
    SameConcat(x + y, LabelRows(run, first, "Noise Closed", c), x' + y', LabelRows(run, second, "Noise Closed", c), second);
  }

  lemma SameConcat(a: seq<ProcessVerdict>, b: seq<ProcessVerdict>, a': seq<ProcessVerdict>, b': seq<ProcessVerdict>,
                   analysis: nat)
    requires RowsSameButAnalysis(a, a', analysis) && RowsSameButAnalysis(b, b', analysis)
    ensures RowsSameButAnalysis(a + b, a' + b', analysis)
  {
  }

  lemma LabelUnderAnotherAnalysis(run: nat, name: string, entries: seq<Entry>, first: nat, second: nat)
    ensures RowsSameButAnalysis(LabelRows(run, first, name, entries), LabelRows(run, second, name, entries), second)
  {
    hide ConfidenceOf, LadderVerdict, Clip;
  }

  lemma ReportSameButAnalysis(run: nat, report: Report, synthetic: bool, first: nat, second: nat)
    ensures SameButAnalysis(Applicable(RowsOf(run, first, report), synthetic),
                            Applicable(RowsOf(run, second, report), synthetic), second)
  {
    var a, b := RowsOf(run, first, report), RowsOf(run, second, report);
    RowsUnderAnotherAnalysis(run, report, first, second);
    hide RowsOf, ByPid, RowsSameButAnalysis;
    ByPidSameButAnalysis(a, b, second);
  }

  // ---- History ----------------------------------------------------------------------------------

  /** A finding's own reclassifications, oldest first. */
  function HistoryOf(history: seq<Reclassification>, id: nat): (own: seq<Reclassification>)
    ensures forall k | 0 <= k < |own| :: own[k].finding == id
  {
    if history == [] then []
    else
      HistoryOf(history[..|history| - 1], id) +
      if history[|history| - 1].finding == id then [history[|history| - 1]] else []
  }

  /** The rows lead, end to end, from one verdict to another. */
  ghost predicate Leads(own: seq<Reclassification>, first: string, now: string) {
    if own == [] then first == now
    else
      && own[0].fromVerdict == first && own[|own| - 1].toVerdict == now
      && forall k | 0 <= k < |own| - 1 :: own[k].toVerdict == own[k + 1].fromVerdict
  }

  ghost predicate Accounted(first: seq<Finding>, book: Book) {
    && |book.findings| == |first|
    && forall i | 0 <= i < |first| :: Leads(HistoryOf(book.history, i), first[i].verdict, book.findings[i].verdict)
  }

  lemma {:induction false} HistoryOfConcat(a: seq<Reclassification>, b: seq<Reclassification>, id: nat)
    ensures HistoryOf(a + b, id) == HistoryOf(a, id) + HistoryOf(b, id)
    decreases |b|
  {
    if b == [] {
      assert a + b == a;
    } else {
      assert (a + b)[..|a + b| - 1] == a + b[..|b| - 1];
      HistoryOfConcat(a, b[..|b| - 1], id);
    }
  }

  lemma LeadsConcat(a: seq<Reclassification>, b: seq<Reclassification>, first: string, mid: string, now: string)
    requires Leads(a, first, mid) && Leads(b, mid, now)
    ensures Leads(a + b, first, now)
  {
    if a == [] {
      assert a + b == b;
    } else if b == [] {
      assert a + b == a;
    }
  }

  lemma PassIsLawful(findings: seq<Finding>, run: nat, byPid: map<int, ProcessVerdict>, analysis: nat)
    ensures var rulings := Rulings(findings, run, byPid, analysis);
            forall i | 0 <= i < |findings| :: Lawful(i, findings[i], rulings[i])
  {
    forall i | 0 <= i < |findings|
      ensures Lawful(i, findings[i], RuleAt(findings, i, run, byPid, analysis))
    {
      RulingsAreLawful(i, findings[i], byPid, analysis);
    }
  }

  lemma HistoryOfOneMore(history: seq<Reclassification>, row: Option<Reclassification>, owner: nat, id: nat)
    requires row.Some? ==> row.value.finding == owner
    ensures HistoryOf(history + RowIfAny(row), id) == HistoryOf(history, id) + if id == owner then RowIfAny(row) else []
  {
    if row.Some? {
      assert (history + [row.value])[..|history|] == history;
    } else {
      assert history + [] == history;
    }
  }

  /** One pass writes at most one row for a finding, and that row is its ruling's. */
  lemma {:induction false} PassHistoryOf(rulings: seq<Ruling>, id: nat)
    requires forall i | 0 <= i < |rulings| && rulings[i].history.Some? :: rulings[i].history.value.finding == i
    ensures HistoryOf(HistoryRows(rulings), id) == if id < |rulings| then RowIfAny(rulings[id].history) else []
  {
    if rulings != [] {
      var n := |rulings| - 1;
      PassHistoryOf(rulings[..n], id);
      HistoryOfOneMore(HistoryRows(rulings[..n]), rulings[n].history, n, id);
    }
  }

  lemma PassKeepsAccount(first: seq<Finding>, book: Book, rulings: seq<Ruling>)
    requires Accounted(first, book) && |rulings| == |book.findings|
    requires forall i | 0 <= i < |rulings| :: Lawful(i, book.findings[i], rulings[i])
    ensures Accounted(first, Applied(book, rulings))
  {
    var after := Applied(book, rulings);
    forall i | 0 <= i < |first|
      ensures Leads(HistoryOf(after.history, i), first[i].verdict, after.findings[i].verdict)
    {
      PassHistoryOf(rulings, i);
      HistoryOfConcat(book.history, HistoryRows(rulings), i);
      LeadsConcat(HistoryOf(book.history, i), HistoryOf(HistoryRows(rulings), i),
                  first[i].verdict, book.findings[i].verdict, after.findings[i].verdict);
    }
  }

  lemma DecisionKeepsAccount(first: seq<Finding>, book: Book, id: nat, actor: string, verdict: string, confidence: string)
    requires Accounted(first, book)
    ensures Accounted(first, Decide(book, id, actor, verdict, confidence))
  {
    if id < |book.findings| {
      var f := book.findings[id];
      var row := Reclassification(id, actor, f.verdict, verdict, f.confidence, confidence);
      var after := Decide(book, id, actor, verdict, confidence);
      forall i | 0 <= i < |first|
        ensures Leads(HistoryOf(after.history, i), first[i].verdict, after.findings[i].verdict)
      {
        HistoryOfConcat(book.history, [row], i);
        assert [row][..0] == [];
        assert HistoryOf([row], i) == if i == id then [row] else [];
        LeadsConcat(HistoryOf(book.history, i), HistoryOf([row], i),
                    first[i].verdict, book.findings[i].verdict, after.findings[i].verdict);
      }
    }
  }

  lemma {:induction false} BulkKeepsAccount(first: seq<Finding>, book: Book, ids: seq<nat>, actor: string, verdict: string)
    requires Accounted(first, book)
    ensures Accounted(first, DecideAll(book, ids, actor, verdict))
    decreases |ids|
  {
    if ids != [] {
      var id := ids[0];
      if id < |book.findings| && book.findings[id].verdict != verdict {
        DecisionKeepsAccount(first, book, id, actor, verdict, book.findings[id].confidence);
        BulkKeepsAccount(first, Decide(book, id, actor, verdict, book.findings[id].confidence), ids[1..], actor, verdict);
      } else {
        BulkKeepsAccount(first, book, ids[1..], actor, verdict);
      }
    }
  }

  /** However passes and decisions follow each other, each finding's rows lead from its first verdict to its current one. */
  lemma {:induction false} HistoryLinksEndToEnd(first: seq<Finding>, c: Case, steps: seq<Step>)
    requires Accounted(first, c.book)
    ensures Accounted(first, Run(c, steps).book)
    decreases |steps|
  {
    if steps != [] {
      match steps[0] {
        case EnginePass(run, analysis, report, synthetic) =>
          var byPid := Applicable(RowsOf(run, analysis, report), synthetic);
          PassIsLawful(c.book.findings, run, byPid, analysis);
          PassKeepsAccount(first, c.book, Rulings(c.book.findings, run, byPid, analysis));
        case Reclassify(id, actor, verdict, confidence) =>
          DecisionKeepsAccount(first, c.book, id, actor, verdict, confidence);
        case BulkVerdict(ids, actor, verdict) =>
          BulkKeepsAccount(first, c.book, ids, actor, verdict);
      }
      HistoryLinksEndToEnd(first, Next(c, steps[0]), steps[1..]);
    }
  }

  // ---- Ownership --------------------------------------------------------------------------------

  /** A finding and its own history are as they were, but for the recorded disagreement. */
  ghost predicate Stands(before: Book, after: Book, id: nat) {
    && id < |before.findings| == |after.findings|
    && after.findings[id] == before.findings[id].(conflict := after.findings[id].conflict)
    && HistoryOf(after.history, id) == HistoryOf(before.history, id)
  }

  lemma DecisionElsewhere(book: Book, other: nat, actor: string, verdict: string, confidence: string, id: nat)
    requires id < |book.findings| && other != id
    ensures Stands(book, Decide(book, other, actor, verdict, confidence), id)
  {
    if other < |book.findings| {
      var f := book.findings[other];
      var row := Some(Reclassification(other, actor, f.verdict, verdict, f.confidence, confidence));
      HistoryOfOneMore(book.history, row, other, id);
    }
  }

  lemma {:induction false} BulkElsewhere(book: Book, ids: seq<nat>, actor: string, verdict: string, id: nat)
    requires id < |book.findings| && id !in ids
    ensures Stands(book, DecideAll(book, ids, actor, verdict), id)
    decreases |ids|
  {
    if ids != [] {
      var first := ids[0];
      if first < |book.findings| && book.findings[first].verdict != verdict {
        DecisionElsewhere(book, first, actor, verdict, book.findings[first].confidence, id);
        BulkElsewhere(Decide(book, first, actor, verdict, book.findings[first].confidence), ids[1..], actor, verdict, id);
      } else {
        BulkElsewhere(book, ids[1..], actor, verdict, id);
      }
    }
  }

  lemma PassLeavesAnalystsAlone(book: Book, run: nat, byPid: map<int, ProcessVerdict>, analysis: nat, id: nat)
    requires id < |book.findings| && book.findings[id].holder == ANALYST
    ensures Stands(book, Applied(book, Rulings(book.findings, run, byPid, analysis)), id)
  {
    var rulings := Rulings(book.findings, run, byPid, analysis);
    PassIsLawful(book.findings, run, byPid, analysis);
    PassHistoryOf(rulings, id);
    HistoryOfConcat(book.history, HistoryRows(rulings), id);
  }

  lemma StepLeavesAnalystsAlone(c: Case, s: Step, id: nat)
    requires (s.Reclassify? ==> s.finding != id) && (s.BulkVerdict? ==> id !in s.findings)
    requires id < |c.book.findings| && c.book.findings[id].holder == ANALYST
    ensures Stands(c.book, Next(c, s).book, id)
  {
    hide Rulings, Applied, Stands, Decide, DecideAll;
    match s
    case EnginePass(run, analysis, report, synthetic) =>
      PassLeavesAnalystsAlone(c.book, run, Applicable(RowsOf(run, analysis, report), synthetic), analysis, id);
    case Reclassify(other, actor, verdict, confidence) =>
      DecisionElsewhere(c.book, other, actor, verdict, confidence, id);
    case BulkVerdict(ids, actor, verdict) =>
      BulkElsewhere(c.book, ids, actor, verdict, id);
  }

  /**
   Whatever passes run and whatever is decided about other findings in between, a finding an analyst holds keeps
   verdict, confidence and raw, and gains no history.
   */
  lemma {:induction false} AnalystVerdictStands(c: Case, steps: seq<Step>, id: nat)
    requires forall s | s in steps :: (s.Reclassify? ==> s.finding != id) && (s.BulkVerdict? ==> id !in s.findings)
    requires id < |c.book.findings| && c.book.findings[id].holder == ANALYST
    ensures Stands(c.book, Run(c, steps).book, id)
    decreases |steps|
  {
    if steps != [] {
      StepLeavesAnalystsAlone(c, steps[0], id);
      hide Next, HistoryOf;
      AnalystVerdictStands(Next(c, steps[0]), steps[1..], id);
    }
  }

  /** Where the last pass over an analyst's finding disagreed, the finding says so; where it agreed, it says nothing. */
  lemma DisagreementIsRecorded(id: nat, f: Finding, byPid: map<int, ProcessVerdict>, analysis: nat)
    requires f.holder == ANALYST && !NonDetection(f) && f.pid.GetOr(0) in byPid
    ensures var after := Rule(id, f, byPid, analysis).finding;
            var v := byPid[f.pid.GetOr(0)];
            (after.conflict.Some? <==> v.verdict != f.verdict)
            && (after.conflict.Some? ==>
                  var c := after.conflict.value;
                  && c.verdict == v.verdict && c.confidence == v.confidence && c.engineLabel == v.engineLabel
                  && c.analysis == analysis
                  && c.rationale == if |v.rationale| <= 1000 then v.rationale else v.rationale[..1000])
  {
  }

  /**
   An analyst's decision, column by column: the finding takes verdict and confidence, is the analyst's and no longer in
   dispute; one history row says from what to what, in the analyst's name; no other finding changes.
   */
  lemma DecisionTakesHold(book: Book, id: nat, actor: string, verdict: string, confidence: string)
    requires id < |book.findings|
    ensures var was, after := book.findings[id], Decide(book, id, actor, verdict, confidence);
            && |after.findings| == |book.findings|
            && var now := after.findings[id];
            && now.verdict == verdict && now.confidence == confidence && now.holder == "analyst" && now.conflict == None
            && now.raw == was.raw && now.run == was.run && now.pid == was.pid && now.kind == was.kind
            && (forall i | 0 <= i < |book.findings| && i != id :: after.findings[i] == book.findings[i])
            && |after.history| == |book.history| + 1 && book.history <= after.history
            && var row := after.history[|book.history|];
            && row.finding == id && row.actor == actor
            && row.fromVerdict == was.verdict && row.toVerdict == verdict
            && row.fromConfidence == was.confidence && row.toConfidence == confidence
  {
  }

  /** A bulk decision rewrites the listed findings that carry another verdict, and no others. */
  lemma {:induction false} BulkReaches(book: Book, ids: seq<nat>, id: nat, actor: string, verdict: string)
    requires id < |book.findings|
    ensures |DecideAll(book, ids, actor, verdict).findings| == |book.findings|
    ensures DecideAll(book, ids, actor, verdict).findings[id] ==
              var f := book.findings[id];
              if id in ids && f.verdict != verdict then f.(verdict := verdict, holder := ANALYST, conflict := None) else f
    decreases |ids|
  {
    if ids != [] {
      var first := ids[0];
      var after := if first < |book.findings| && book.findings[first].verdict != verdict
                   then Decide(book, first, actor, verdict, book.findings[first].confidence) else book;
      BulkReaches(after, ids[1..], id, actor, verdict);
      assert id in ids <==> id == first || id in ids[1..];
    }
  }

  /**
   A bulk verdict outlives a pass that disagrees with it exactly when it changed the finding's verdict, or an analyst
   held the finding already: one that merely confirms the verdict leaves the finding to the engine.
   */
  lemma BulkVerdictStandsIff(book: Book, ids: seq<nat>, id: nat, actor: string, verdict: string,
                             byPid: map<int, ProcessVerdict>, analysis: nat)
    requires id in ids && id < |book.findings|
    requires var f := book.findings[id];
             !NonDetection(f) && f.pid.GetOr(0) in byPid && byPid[f.pid.GetOr(0)].verdict != verdict
    ensures var decided := DecideAll(book, ids, actor, verdict).findings;
            |decided| == |book.findings|
            && (Rule(id, decided[id], byPid, analysis).finding.verdict == verdict
                <==> book.findings[id].verdict != verdict || book.findings[id].holder == ANALYST)
  {
    BulkReaches(book, ids, id, actor, verdict);
  }

  // ---- Supersession -----------------------------------------------------------------------------

  function CurrentOf(verdicts: seq<ProcessVerdict>, run: nat): seq<ProcessVerdict> {
    if verdicts == [] then []
    else
      var v := verdicts[|verdicts| - 1];
      CurrentOf(verdicts[..|verdicts| - 1], run) + if v.run == run && v.current then [v] else []
  }

  lemma {:induction false} CurrentOfConcat(a: seq<ProcessVerdict>, b: seq<ProcessVerdict>, run: nat)
    ensures CurrentOf(a + b, run) == CurrentOf(a, run) + CurrentOf(b, run)
    decreases |b|
  {
    if b == [] {
      assert a + b == a;
    } else {
      assert (a + b)[..|a + b| - 1] == a + b[..|b| - 1];
      CurrentOfConcat(a, b[..|b| - 1], run);
    }
  }

  lemma {:induction false} CurrentAfterSuperseding(verdicts: seq<ProcessVerdict>, run: nat, analysis: nat, other: nat)
    ensures CurrentOf(SupersedeAll(verdicts, run, analysis), other) == if other == run then [] else CurrentOf(verdicts, other)
    decreases |verdicts|
  {
    var after := SupersedeAll(verdicts, run, analysis);
    if verdicts != [] {
      CurrentAfterSuperseding(verdicts[..|verdicts| - 1], run, analysis, other);
      assert after[..|after| - 1] == SupersedeAll(verdicts[..|verdicts| - 1], run, analysis);
    }
  }

  lemma {:induction false} CurrentOfAllCurrent(rows: seq<ProcessVerdict>, run: nat, other: nat)
    requires forall v | v in rows :: v.run == run && v.current
    ensures CurrentOf(rows, other) == if other == run then rows else []
    decreases |rows|
  {
    if rows != [] {
      CurrentOfAllCurrent(rows[..|rows| - 1], run, other);
    }
  }

  /** Nothing but the marks of being superseded ever changes on a row once written. */
  ghost predicate KeptAsHistory(before: seq<ProcessVerdict>, after: seq<ProcessVerdict>) {
    && |before| <= |after|
    && forall i | 0 <= i < |before| ::
         && after[i].(current := true, supersededBy := None) == before[i].(current := true, supersededBy := None)
         && (!before[i].current ==> after[i] == before[i])
  }

  /** The report of a run's last pass, if it had one. */
  function LastPass(steps: seq<Step>, run: nat): Option<Step> {
    if steps == [] then None
    else
      var s := steps[|steps| - 1];
      if s.EnginePass? && s.run == run then Some(s) else LastPass(steps[..|steps| - 1], run)
  }

  lemma RunSplit(c: Case, steps: seq<Step>, last: Step)
    ensures Run(c, steps + [last]) == Next(Run(c, steps), last)
    decreases |steps|
  {
    if steps == [] {
      assert [] + [last] == [last] && [last][1..] == [];
      assert Run(c, [last]) == Run(Next(c, last), []);
    } else {
      assert (steps + [last])[1..] == steps[1..] + [last];
      RunSplit(Next(c, steps[0]), steps[1..], last);
    }
  }

  lemma CurrentAfterStep(c: Case, s: Step, run: nat)
    ensures CurrentOf(Next(c, s).verdicts, run) ==
              if s.EnginePass? && s.run == run then RowsOf(run, s.analysis, s.report) else CurrentOf(c.verdicts, run)
  {
    if s.EnginePass? {
      var rows := RowsOf(s.run, s.analysis, s.report);
      CurrentOfConcat(SupersedeAll(c.verdicts, s.run, s.analysis), rows, run);
      CurrentAfterSuperseding(c.verdicts, s.run, s.analysis, run);
      CurrentOfAllCurrent(rows, s.run, run);
    }
  }

  /** A run's current process verdicts are exactly those of its last pass. */
  lemma {:induction false} CurrentIsLastPass(c: Case, steps: seq<Step>, run: nat)
    requires c.verdicts == []
    ensures var last := LastPass(steps, run);
            CurrentOf(Run(c, steps).verdicts, run) ==
              if last.Some? && last.value.EnginePass? then RowsOf(run, last.value.analysis, last.value.report) else []
    decreases |steps|
  {
    if steps != [] {
      var before, last := steps[..|steps| - 1], steps[|steps| - 1];
      assert steps == before + [last];
      CurrentIsLastPass(c, before, run);
      RunSplit(c, before, last);
      CurrentAfterStep(Run(c, before), last, run);
    }
  }

  /** No row is ever dropped or rewritten: later passes only mark it superseded, once. */
  lemma {:induction false} EarlierRowsAreKept(c: Case, steps: seq<Step>)
    ensures KeptAsHistory(c.verdicts, Run(c, steps).verdicts)
    decreases |steps|
  {
    if steps != [] {
      var next := Next(c, steps[0]);
      EarlierRowsAreKept(next, steps[1..]);
      KeptTransitive(c.verdicts, next.verdicts, Run(next, steps[1..]).verdicts);
    }
  }

  lemma KeptTransitive(a: seq<ProcessVerdict>, b: seq<ProcessVerdict>, c: seq<ProcessVerdict>)
    requires KeptAsHistory(a, b) && KeptAsHistory(b, c)
    ensures KeptAsHistory(a, c)
  {
    forall i | 0 <= i < |a|
      ensures c[i].(current := true, supersededBy := None) == a[i].(current := true, supersededBy := None)
      ensures !a[i].current ==> c[i] == a[i]
    {
      assert b[i].(current := true, supersededBy := None) == a[i].(current := true, supersededBy := None);
    }
  }
}
