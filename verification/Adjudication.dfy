/** Engine passes over a run's findings: who holds a verdict, what is history, what supersedes what. */
module Adjudication {
  import opened Common

  const TRUE_POSITIVE := "True Positive"
  const INDETERMINATE := "Indeterminate"
  const ENGINE := "engine"
  const ANALYST := "analyst"

  /** What the engine writes into a finding it judged. */
  datatype Stamp = Stamp(engineLabel: string, pid: int, process: string, weight: real, rationale: string)

  /** The `adjudication` entry of a raw finding: a stamp, or whatever else arrived there. */
  datatype Adjudicated = ByEngine(stamp: Stamp) | Other(text: string, truthy: bool)

  datatype Raw = Dict(rest: string, adjudication: Option<Adjudicated>) | NotADict(text: string)

  datatype Conflict = Conflict(verdict: string, confidence: string, engineLabel: string, analysis: nat, rationale: string)

  /** `pid` is what the finding's target, details and pid fields say; a pass changes none of them. */
  datatype Finding = Finding(run: nat, kind: string, pid: Option<int>, verdict: string, confidence: string, raw: Raw,
                             holder: string, producedBy: Option<nat>, conflict: Option<Conflict>)

  datatype Reclassification = Reclassification(finding: nat, actor: string, fromVerdict: string, toVerdict: string,
                                               fromConfidence: string, toConfidence: string)

  datatype ProcessVerdict = ProcessVerdict(run: nat, analysis: nat, pid: int, process: string, engineLabel: string,
                                           verdict: string, confidence: string, weight: real, rationale: string,
                                           current: bool, supersededBy: Option<nat>)

  datatype Entry = Entry(pid: int, process: string, weight: real, rationale: string)

  datatype Report = Report(truePositives: seq<Entry>, undetermined: seq<Entry>, noiseClosed: seq<Entry>)

  function ConfidenceOf(weight: real): string {
    if weight >= 6.0 then "High" else if weight >= 3.0 then "Medium" else "Low"
  }

  function LadderVerdict(name: string): string {
    if name == TRUE_POSITIVE then TRUE_POSITIVE
    else if name == "False Positive" || name == "Noise Closed" then "Likely False Positive"
    else INDETERMINATE
  }

  function VerdictRow(run: nat, analysis: nat, name: string, e: Entry): ProcessVerdict {
    ProcessVerdict(run, analysis, e.pid, Clip(e.process, 255), name, LadderVerdict(name),
                   if name == TRUE_POSITIVE then ConfidenceOf(e.weight) else "Low",
                   e.weight, Clip(e.rationale, 8000), true, None)
  }

  function LabelRows(run: nat, analysis: nat, name: string, entries: seq<Entry>): (rows: seq<ProcessVerdict>)
    ensures |rows| == |entries|
    ensures forall i | 0 <= i < |rows| :: rows[i] == VerdictRow(run, analysis, name, entries[i])
  {
    seq(|entries|, i requires 0 <= i < |entries| => VerdictRow(run, analysis, name, entries[i]))
  }

  function RowsOf(run: nat, analysis: nat, report: Report): (rows: seq<ProcessVerdict>)
    ensures forall v | v in rows :: v.run == run && v.analysis == analysis && v.current
  {
    LabelRows(run, analysis, TRUE_POSITIVE, report.truePositives)
    + LabelRows(run, analysis, "Undetermined", report.undetermined)
    + LabelRows(run, analysis, "Noise Closed", report.noiseClosed)
  }

  /** The verdict in force for each pid: where a pid is listed twice, the later row's. */
  function ByPid(rows: seq<ProcessVerdict>): map<int, ProcessVerdict> {
    if rows == [] then map[]
    else ByPid(rows[..|rows| - 1])[rows[|rows| - 1].pid := rows[|rows| - 1]]
  }

  /** On a synthetic image the engine's unattributed bucket judges the placeholder, not the host. */
  function Applicable(rows: seq<ProcessVerdict>, synthetic: bool): map<int, ProcessVerdict> {
    if synthetic then ByPid(rows) - {0} else ByPid(rows)
  }

  // ---- One finding ------------------------------------------------------------------------------

  predicate NonDetection(f: Finding) {
    "YARA Scan Coverage Incomplete" <= f.kind || "Unnamed Carved Module" <= f.kind
  }

  function StampOf(v: ProcessVerdict): Stamp {
    Stamp(v.engineLabel, v.pid, v.process, v.weight, Clip(v.rationale, 1000))
  }

  function AdjudicationOf(raw: Raw): Option<Adjudicated> {
    if raw.Dict? then raw.adjudication else None
  }

  function WithAdjudication(raw: Raw, a: Option<Adjudicated>): Raw {
    Dict(if raw.Dict? then raw.rest else "", a)
  }

  predicate Truthy(a: Option<Adjudicated>) {
    a.Some? && (a.value.ByEngine? || a.value.truthy)
  }

  /** What a pass makes of one finding, whether it rewrote it, and the history row if there is one. */
  datatype Ruling = Ruling(finding: Finding, updated: bool, history: Option<Reclassification>)

  function Rewritten(id: nat, f: Finding, verdict: string, confidence: string, raw: Raw, analysis: nat): Ruling {
    var f' := f.(verdict := verdict, confidence := confidence, raw := raw, holder := ENGINE, producedBy := Some(analysis));
    Ruling(f', true,
           if f.verdict == verdict then None
           else Some(Reclassification(id, "investigation-engine", f.verdict, verdict, f.confidence, confidence)))
  }

  function Rule(id: nat, f: Finding, byPid: map<int, ProcessVerdict>, analysis: nat): Ruling {
    if NonDetection(f) then
      if f.holder == ANALYST then Ruling(f, false, None)
      else if Truthy(AdjudicationOf(f.raw)) || f.verdict != INDETERMINATE then
        Rewritten(id, f, INDETERMINATE, "Low", WithAdjudication(f.raw, None), analysis)
      else Ruling(f, false, None)
    else if f.pid.GetOr(0) !in byPid then Ruling(f, false, None)
    else
      var v := byPid[f.pid.GetOr(0)];
      if f.holder == ANALYST then
        Ruling(f.(conflict := if f.verdict == v.verdict then None
                              else Some(Conflict(v.verdict, v.confidence, v.engineLabel, analysis, Clip(v.rationale, 1000)))),
               false, None)
      else if f.verdict == v.verdict && f.confidence == v.confidence
              && AdjudicationOf(f.raw) == Some(ByEngine(StampOf(v))) && f.holder == ENGINE then Ruling(f, false, None)
      else
        Rewritten(id, f, v.verdict, v.confidence, WithAdjudication(f.raw, Some(ByEngine(StampOf(v)))), analysis)
  }

  // ---- A pass over the findings of a run -----------------------------------------------------------

  /** Finding i after the pass. A pass with no verdict to apply returns before it looks at any finding. */
  function RuleAt(findings: seq<Finding>, i: nat, run: nat, byPid: map<int, ProcessVerdict>, analysis: nat): Ruling
    requires i < |findings|
  {
    if findings[i].run == run && byPid != map[] then Rule(i, findings[i], byPid, analysis)
    else Ruling(findings[i], false, None)
  }

  function Rulings(findings: seq<Finding>, run: nat, byPid: map<int, ProcessVerdict>, analysis: nat): (rulings: seq<Ruling>)
    ensures |rulings| == |findings|
    ensures forall i | 0 <= i < |findings| :: rulings[i] == RuleAt(findings, i, run, byPid, analysis)
  {
    seq(|findings|, i requires 0 <= i < |findings| => RuleAt(findings, i, run, byPid, analysis))
  }

  function RowIfAny(row: Option<Reclassification>): seq<Reclassification> {
    if row.Some? then [row.value] else []
  }

  function HistoryRows(rulings: seq<Ruling>): seq<Reclassification> {
    if rulings == [] then []
    else HistoryRows(rulings[..|rulings| - 1]) + RowIfAny(rulings[|rulings| - 1].history)
  }

  function UpdateCount(rulings: seq<Ruling>): nat {
    if rulings == [] then 0
    else UpdateCount(rulings[..|rulings| - 1]) + if rulings[|rulings| - 1].updated then 1 else 0
  }

  /** The findings and their history. */
  datatype Book = Book(findings: seq<Finding>, history: seq<Reclassification>)

  function Applied(book: Book, rulings: seq<Ruling>): (after: Book)
    requires |rulings| == |book.findings|
    ensures |after.findings| == |book.findings|
    ensures forall i | 0 <= i < |book.findings| :: after.findings[i] == rulings[i].finding
    ensures after.history == book.history + HistoryRows(rulings)
  {
    Book(seq(|book.findings|, i requires 0 <= i < |book.findings| => rulings[i].finding),
         book.history + HistoryRows(rulings))
  }

  function Supersede(v: ProcessVerdict, run: nat, analysis: nat): ProcessVerdict {
    if v.run == run && v.current then v.(current := false, supersededBy := Some(analysis)) else v
  }

  function SupersedeAll(verdicts: seq<ProcessVerdict>, run: nat, analysis: nat): (after: seq<ProcessVerdict>)
    ensures |after| == |verdicts|
    ensures forall i | 0 <= i < |verdicts| :: after[i] == Supersede(verdicts[i], run, analysis)
  {
    seq(|verdicts|, i requires 0 <= i < |verdicts| => Supersede(verdicts[i], run, analysis))
  }

  // ---- A pass read off the report -------------------------------------------------------------------

  /** One process verdict against the entry it was made from, under the given label, verdict and confidence. */
  ghost predicate RecordsEntry(v: ProcessVerdict, run: nat, analysis: nat, e: Entry, name: string, verdict: string,
                               confidence: string)
  {
    && v.run == run && v.analysis == analysis && v.current && v.supersededBy == None
    && v.pid == e.pid && v.weight == e.weight
    && v.process == (if |e.process| <= 255 then e.process else e.process[..255])
    && v.rationale == (if |e.rationale| <= 8000 then e.rationale else e.rationale[..8000])
    && v.engineLabel == name && v.verdict == verdict && v.confidence == confidence
  }

  /**
   The rows are the report's entries, one each and in order: true positives with the confidence their weight calls for,
   then what the engine left open, then what it closed as noise.
   */
  ghost predicate Recorded(rows: seq<ProcessVerdict>, run: nat, analysis: nat, report: Report) {
    var a, b, c := |report.truePositives|, |report.undetermined|, |report.noiseClosed|;
    && |rows| == a + b + c
    && (forall i | 0 <= i < a ::
          var e := report.truePositives[i];
          && (e.weight >= 6.0 ==> RecordsEntry(rows[i], run, analysis, e, "True Positive", "True Positive", "High"))
          && (3.0 <= e.weight < 6.0 ==> RecordsEntry(rows[i], run, analysis, e, "True Positive", "True Positive", "Medium"))
          && (e.weight < 3.0 ==> RecordsEntry(rows[i], run, analysis, e, "True Positive", "True Positive", "Low")))
    && (forall i | 0 <= i < b ::
          RecordsEntry(rows[a + i], run, analysis, report.undetermined[i], "Undetermined", "Indeterminate", "Low"))
    && (forall i | 0 <= i < c ::
          RecordsEntry(rows[a + b + i], run, analysis, report.noiseClosed[i], "Noise Closed", "Likely False Positive", "Low"))
  }

  lemma RowByColumns(run: nat, analysis: nat, e: Entry)
    ensures e.weight >= 6.0 ==>
              RecordsEntry(VerdictRow(run, analysis, TRUE_POSITIVE, e), run, analysis, e, "True Positive", "True Positive", "High")
    ensures 3.0 <= e.weight < 6.0 ==>
              RecordsEntry(VerdictRow(run, analysis, TRUE_POSITIVE, e), run, analysis, e, "True Positive", "True Positive", "Medium")
    ensures e.weight < 3.0 ==>
              RecordsEntry(VerdictRow(run, analysis, TRUE_POSITIVE, e), run, analysis, e, "True Positive", "True Positive", "Low")
    ensures RecordsEntry(VerdictRow(run, analysis, "Undetermined", e), run, analysis, e, "Undetermined", "Indeterminate", "Low")
    ensures RecordsEntry(VerdictRow(run, analysis, "Noise Closed", e), run, analysis, e, "Noise Closed", "Likely False Positive", "Low")
  {
  }

  lemma RowsByColumns(run: nat, analysis: nat, report: Report)
    ensures Recorded(RowsOf(run, analysis, report), run, analysis, report)
  {
    hide RecordsEntry, VerdictRow;
    forall e: Entry {
      RowByColumns(run, analysis, e);
    }
  }

  /** Everything the report lists, in the order it is recorded. */
  ghost function Listed(report: Report): seq<Entry> {
    report.truePositives + report.undetermined + report.noiseClosed
  }

  /** Entry k is the last one for the pid; where the pid is listed once, the only one. */
  ghost predicate LastWordOn(report: Report, k: nat, pid: int) {
    && k < |Listed(report)| && Listed(report)[k].pid == pid
    && forall later | k < later < |Listed(report)| :: Listed(report)[later].pid != pid
  }

  ghost predicate Silent(report: Report, pid: int) {
    forall e | e in Listed(report) :: e.pid != pid
  }

  /** Not an analyst's, not a diagnostic, and not in the bucket that a synthetic image's pass leaves out. */
  ghost predicate RulableIn(f: Finding, synthetic: bool) {
    && f.holder != "analyst"
    && !("YARA Scan Coverage Incomplete" <= f.kind) && !("Unnamed Carved Module" <= f.kind)
    && !(synthetic && f.pid.GetOr(0) == 0)
  }

  /** The finding carries what its list says of entry k, in the engine's name. */
  ghost predicate CarriesVerdict(f: Finding, report: Report, k: nat)
    requires k < |Listed(report)|
  {
    var e, a, b := Listed(report)[k], |report.truePositives|, |report.undetermined|;
    && f.holder == "engine"
    && (k < a ==> f.verdict == "True Positive"
                  && f.confidence == if e.weight >= 6.0 then "High" else if e.weight >= 3.0 then "Medium" else "Low")
    && (a <= k < a + b ==> f.verdict == "Indeterminate" && f.confidence == "Low")
    && (a + b <= k ==> f.verdict == "Likely False Positive" && f.confidence == "Low")
    && f.raw.Dict? && f.raw.adjudication.Some? && f.raw.adjudication.value.ByEngine?
    && var stamp := f.raw.adjudication.value.stamp;
    && stamp.pid == e.pid && stamp.weight == e.weight
    && stamp.process == (if |e.process| <= 255 then e.process else e.process[..255])
    && stamp.rationale == (if |e.rationale| <= 1000 then e.rationale else e.rationale[..1000])
    && stamp.engineLabel == if k < a then "True Positive" else if k < a + b then "Undetermined" else "Noise Closed"
  }

  /** A pid's verdict is the last of its rows, and where it has none there is no verdict for it. */
  lemma {:induction false} ByPidIsLast(rows: seq<ProcessVerdict>, pid: int, k: nat)
    ensures k < |rows| && rows[k].pid == pid && (forall later | k < later < |rows| :: rows[later].pid != pid) ==>
              pid in ByPid(rows) && ByPid(rows)[pid] == rows[k]
    ensures (forall v | v in rows :: v.pid != pid) ==> pid !in ByPid(rows)
  {
    if rows != [] {
      ByPidIsLast(rows[..|rows| - 1], pid, k);
    }
  }

  /** The finding is as the engine leaves one that it judged by the row. */
  ghost predicate JudgedBy(f: Finding, v: ProcessVerdict) {
    && f.verdict == v.verdict && f.confidence == v.confidence && f.holder == ENGINE
    && AdjudicationOf(f.raw) == Some(ByEngine(StampOf(v)))
  }

  lemma JudgedByItsEntry(run: nat, analysis: nat, report: Report, k: nat, f: Finding)
    requires k < |Listed(report)| && |RowsOf(run, analysis, report)| == |Listed(report)|
    requires JudgedBy(f, RowsOf(run, analysis, report)[k])
    ensures CarriesVerdict(f, report, k)
  {
  }

  lemma RulableIsRuled(id: nat, f: Finding, byPid: map<int, ProcessVerdict>, analysis: nat, synthetic: bool)
    requires RulableIn(f, synthetic) && f.pid.GetOr(0) in byPid
    ensures JudgedBy(Rule(id, f, byPid, analysis).finding, byPid[f.pid.GetOr(0)])
  {
  }

  /** What a pass makes of every finding, by the report alone. */
  lemma PassByReport(findings: seq<Finding>, run: nat, analysis: nat, report: Report, synthetic: bool)
    ensures var byPid := Applicable(RowsOf(run, analysis, report), synthetic);
            && (forall id, k | 0 <= id < |findings| && LastWordOn(report, k, findings[id].pid.GetOr(0)) ::
                  findings[id].run == run && RulableIn(findings[id], synthetic) ==>
                    CarriesVerdict(RuleAt(findings, id, run, byPid, analysis).finding, report, k))
            && (forall id | 0 <= id < |findings| && Silent(report, findings[id].pid.GetOr(0)) ::
                  RulableIn(findings[id], synthetic) ==>
                    RuleAt(findings, id, run, byPid, analysis).finding == findings[id])
  {
    var rows := RowsOf(run, analysis, report);
    var byPid := Applicable(rows, synthetic);
    forall id, k | 0 <= id < |findings| && LastWordOn(report, k, findings[id].pid.GetOr(0))
                   && findings[id].run == run && RulableIn(findings[id], synthetic)
      ensures CarriesVerdict(RuleAt(findings, id, run, byPid, analysis).finding, report, k)
    {
      LastWordReaches(findings, id, k, run, analysis, report, synthetic);
    }
    forall id | 0 <= id < |findings| && Silent(report, findings[id].pid.GetOr(0)) && RulableIn(findings[id], synthetic)
      ensures RuleAt(findings, id, run, byPid, analysis).finding == findings[id]
    {
      SilenceLeaves(findings, id, run, analysis, report, synthetic);
    }
  }

  lemma PidsAreListed(run: nat, analysis: nat, report: Report)
    ensures |RowsOf(run, analysis, report)| == |Listed(report)|
    ensures forall k | 0 <= k < |Listed(report)| :: RowsOf(run, analysis, report)[k].pid == Listed(report)[k].pid
  {
  }

  lemma LastWordReaches(findings: seq<Finding>, id: nat, k: nat, run: nat, analysis: nat, report: Report, synthetic: bool)
    requires id < |findings| && LastWordOn(report, k, findings[id].pid.GetOr(0))
    requires findings[id].run == run && RulableIn(findings[id], synthetic)
    ensures var byPid := Applicable(RowsOf(run, analysis, report), synthetic);
            CarriesVerdict(RuleAt(findings, id, run, byPid, analysis).finding, report, k)
  {
    var rows, pid := RowsOf(run, analysis, report), findings[id].pid.GetOr(0);
    PidsAreListed(run, analysis, report);
    ByPidIsLast(rows, pid, k);
    var byPid := Applicable(rows, synthetic);
    assert pid in byPid && byPid[pid] == rows[k];
    hide CarriesVerdict, RowsOf, ByPid, Applicable, Rule, RulableIn, JudgedBy, LastWordOn;
    RulableIsRuled(id, findings[id], byPid, analysis, synthetic);
    JudgedByItsEntry(run, analysis, report, k, Rule(id, findings[id], byPid, analysis).finding);
  }

  lemma SilenceLeaves(findings: seq<Finding>, id: nat, run: nat, analysis: nat, report: Report, synthetic: bool)
    requires id < |findings| && Silent(report, findings[id].pid.GetOr(0)) && RulableIn(findings[id], synthetic)
    ensures var byPid := Applicable(RowsOf(run, analysis, report), synthetic);
            RuleAt(findings, id, run, byPid, analysis).finding == findings[id]
  {
    var rows, pid := RowsOf(run, analysis, report), findings[id].pid.GetOr(0);
    PidsAreListed(run, analysis, report);
    forall v | v in rows
      ensures v.pid != pid
    {
      var k :| 0 <= k < |rows| && rows[k] == v;
      assert Listed(report)[k] in Listed(report);
    }
    ByPidIsLast(rows, pid, 0);
  }

  class Casebook {
    var findings: seq<Finding>
    var history: seq<Reclassification>
    var verdicts: seq<ProcessVerdict>

    ghost function Contents(): Book reads this { Book(findings, history) }

    constructor (findings: seq<Finding>)
      ensures Contents() == Book(findings, []) && verdicts == []
    {
      this.findings, history, verdicts := findings, [], [];
    }

    method ApplyToFindings(run: nat, rows: seq<ProcessVerdict>, analysis: nat, excludeUnattributed: bool)
      returns (updated: nat)
      modifies this`findings, this`history
      ensures var rulings := Rulings(old(findings), run, Applicable(rows, excludeUnattributed), analysis);
              Contents() == Applied(old(Contents()), rulings) && updated == UpdateCount(rulings)
    {
      var byPid := IndexByPid(rows);
      if excludeUnattributed {
        byPid := byPid - {0};
      }
      if byPid == map[] {
        ghost var rulings := Rulings(findings, run, byPid, analysis);
        QuietRulings(rulings);
        assert Applied(Contents(), rulings).findings == findings;
        return 0;
      }
      updated := RuleAll(run, byPid, analysis);
    }

    method RuleAll(run: nat, byPid: map<int, ProcessVerdict>, analysis: nat) returns (updated: nat)
      requires byPid != map[]
      modifies this`findings, this`history
      ensures var rulings := Rulings(old(findings), run, byPid, analysis);
              Contents() == Applied(old(Contents()), rulings) && updated == UpdateCount(rulings)
    {
      ghost var was, before := findings, history;
      ghost var rulings := Rulings(findings, run, byPid, analysis);
      updated := 0;
      for i := 0 to |findings|
        invariant |findings| == |was|
        invariant forall j | 0 <= j < i :: findings[j] == rulings[j].finding
        invariant forall j | i <= j < |was| :: findings[j] == was[j]
        invariant history == before + HistoryRows(rulings[..i])
        invariant updated == UpdateCount(rulings[..i])
      {
        var ruling := Ruling(findings[i], false, None);
        if findings[i].run == run {
          ruling := RuleFinding(i, findings[i], byPid, analysis);
        }
        assert ruling == rulings[i];
        assert rulings[..i + 1][..i] == rulings[..i];
        findings := findings[i := ruling.finding];
        if ruling.updated {
          updated := updated + 1;
        }
        if ruling.history.Some? {
          history := history + [ruling.history.value];
        }
      }
      assert rulings[..|rulings|] == rulings;
      assert findings == Applied(Book(was, before), rulings).findings;
    }

    /** Record the engine's verdicts for a run, superseding the earlier ones, and carry them onto its findings. */
    method Persist(run: nat, analysis: nat, report: Report, synthetic: bool) returns (updated: nat)
      modifies this
      ensures verdicts == SupersedeAll(old(verdicts), run, analysis) + RowsOf(run, analysis, report)
      ensures |old(verdicts)| <= |verdicts| && Recorded(verdicts[|old(verdicts)|..], run, analysis, report)
      ensures forall i | 0 <= i < |old(verdicts)| ::
                verdicts[i] == if old(verdicts)[i].run == run && old(verdicts)[i].current
                               then old(verdicts)[i].(current := false, supersededBy := Some(analysis))
                               else old(verdicts)[i]
      ensures |findings| == |old(findings)|
      ensures forall id, k | 0 <= id < |findings| && LastWordOn(report, k, old(findings)[id].pid.GetOr(0)) ::
                old(findings)[id].run == run && RulableIn(old(findings)[id], synthetic) ==>
                  CarriesVerdict(findings[id], report, k)
      ensures forall id | 0 <= id < |findings| && Silent(report, old(findings)[id].pid.GetOr(0)) ::
                RulableIn(old(findings)[id], synthetic) ==> findings[id] == old(findings)[id]
      ensures var rulings := Rulings(old(findings), run, Applicable(RowsOf(run, analysis, report), synthetic), analysis);
              Contents() == Applied(old(Contents()), rulings) && updated == UpdateCount(rulings)
    {
      var rows := RowsOf(run, analysis, report);
      RowsByColumns(run, analysis, report);
      PassByReport(findings, run, analysis, report, synthetic);
      hide LastWordOn, CarriesVerdict, Silent, RulableIn, Recorded, RowsOf, Applicable, RuleAt;
      verdicts := SupersedeAll(verdicts, run, analysis) + rows;
      updated := ApplyToFindings(run, rows, analysis, synthetic);
    }
  }

  /** Rulings that neither rewrite nor record leave no trace. */
  lemma {:induction false} QuietRulings(rulings: seq<Ruling>)
    requires forall i | 0 <= i < |rulings| :: !rulings[i].updated && rulings[i].history == None
    ensures HistoryRows(rulings) == [] && UpdateCount(rulings) == 0
  {
    if rulings != [] {
      QuietRulings(rulings[..|rulings| - 1]);
    }
  }

  method IndexByPid(rows: seq<ProcessVerdict>) returns (byPid: map<int, ProcessVerdict>)
    ensures byPid == ByPid(rows)
  {
    byPid := map[];
    for i := 0 to |rows|
      invariant byPid == ByPid(rows[..i])
    {
      assert rows[..i + 1][..i] == rows[..i];
      byPid := byPid[rows[i].pid := rows[i]];
    }
    assert rows[..|rows|] == rows;
  }

  /** The loop's body: branch by branch, in the order the branches are tried. */
  method RuleFinding(id: nat, f: Finding, byPid: map<int, ProcessVerdict>, analysis: nat) returns (r: Ruling)
    ensures r == Rule(id, f, byPid, analysis)
  {
    if NonDetection(f) {
      if f.holder == ANALYST {
        return Ruling(f, false, None);
      }
      if Truthy(AdjudicationOf(f.raw)) || f.verdict != INDETERMINATE {
        return Rewritten(id, f, INDETERMINATE, "Low", WithAdjudication(f.raw, None), analysis);
      }
      return Ruling(f, false, None);
    }
    var pid := if f.pid.Some? then f.pid.value else 0;
    if pid !in byPid {
      return Ruling(f, false, None);
    }
    var v := byPid[pid];
    if f.holder == ANALYST {
      var conflict := if f.verdict == v.verdict then None
                      else Some(Conflict(v.verdict, v.confidence, v.engineLabel, analysis, Clip(v.rationale, 1000)));
      return Ruling(f.(conflict := conflict), false, None);
    }
    var stamp := ByEngine(StampOf(v));
    if f.verdict == v.verdict && f.confidence == v.confidence && AdjudicationOf(f.raw) == Some(stamp) && f.holder == ENGINE {
      return Ruling(f, false, None);
    }
    return Rewritten(id, f, v.verdict, v.confidence, WithAdjudication(f.raw, Some(stamp)), analysis);
  }
}
