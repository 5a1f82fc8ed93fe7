/** The open backlog over time: a running total over arrivals and decisions against what it is meant to count. */
module Backlog {
  import opened Common

  type Day = int

  datatype Finding = Finding(id: nat, created: Option<Day>, adjudicatedBy: string, verdict: string)

  /** A recorded reclassification, by the day it was made. */
  datatype Decision = Decision(finding: nat, day: Day)

  type DecidedOn = map<nat, Day>

  predicate EntryState(f: Finding) {
    f.adjudicatedBy == "" && f.verdict in {"", "Indeterminate"}
  }

  /** The day a finding left the queue: the recorded one, or the day it arrived if something settled it on arrival. */
  function DecisionDay(f: Finding, decidedOn: DecidedOn): Option<Day> {
    if f.id in decidedOn then Some(decidedOn[f.id])
    else if EntryState(f) then None
    else f.created
  }

  /** Who leaves the queue when, on the finding's own columns: a recorded decision decides, and then whether it still waits. */
  lemma DecisionDayByColumns(f: Finding, decidedOn: DecidedOn)
    ensures f.id in decidedOn ==> DecisionDay(f, decidedOn) == Some(decidedOn[f.id])
    ensures f.id !in decidedOn && f.adjudicatedBy == "" && (f.verdict == "" || f.verdict == "Indeterminate") ==>
              DecisionDay(f, decidedOn) == None
    ensures f.id !in decidedOn && (f.adjudicatedBy != "" || (f.verdict != "" && f.verdict != "Indeterminate")) ==>
              DecisionDay(f, decidedOn) == f.created
  {
  }

  /** Rows by finding, and for each finding the latest first. */
  ghost predicate InQueryOrder(rows: seq<Decision>) {
    forall i, j | 0 <= i < j < |rows| ::
      rows[i].finding < rows[j].finding || (rows[i].finding == rows[j].finding && rows[i].day >= rows[j].day)
  }

  /** A later entry replaces an earlier one, so what stays for a finding is its first decision. */
  method FirstDecisions(rows: seq<Decision>) returns (decidedOn: DecidedOn)
    requires InQueryOrder(rows)
    ensures forall f :: f in decidedOn <==> exists r | r in rows :: r.finding == f
    ensures forall r | r in rows :: decidedOn[r.finding] <= r.day
    ensures forall f | f in decidedOn :: Decision(f, decidedOn[f]) in rows
  {
    decidedOn := map[];
    for i := 0 to |rows|
      invariant forall f :: f in decidedOn <==> exists r | r in rows[..i] :: r.finding == f
      invariant forall r | r in rows[..i] :: decidedOn[r.finding] <= r.day
      invariant forall f | f in decidedOn :: Decision(f, decidedOn[f]) in rows[..i]
    {
      assert rows[..i + 1] == rows[..i] + [rows[i]];
      forall r | r in rows[..i] && r.finding == rows[i].finding
        ensures rows[i].day <= r.day
      {
        var k :| 0 <= k < i && rows[k] == r;
      }
      decidedOn := decidedOn[rows[i].finding := rows[i].day];
    }
    assert rows[..|rows|] == rows;
  }

  // ---- Counting ---------------------------------------------------------------------------------

  predicate OnOrBefore(day: Option<Day>, d: Day) { day.Some? && day.value <= d }

  /** Arrived by the end of day d and not decided by then. */
  predicate OpenAt(f: Finding, decidedOn: DecidedOn, d: Day) {
    OnOrBefore(f.created, d) && !OnOrBefore(DecisionDay(f, decidedOn), d)
  }

  function One(b: bool): nat { if b then 1 else 0 }

  function OpenCount(findings: seq<Finding>, decidedOn: DecidedOn, d: Day): nat {
    if findings == [] then 0
    else OpenCount(findings[..|findings| - 1], decidedOn, d) + One(OpenAt(findings[|findings| - 1], decidedOn, d))
  }

  /** In the queue when the window opened. */
  predicate Opening(f: Finding, decidedOn: DecidedOn, start: Day) {
    && f.created.Some? && f.created.value < start
    && var d := DecisionDay(f, decidedOn);
       d == None || d.value >= start
  }

  predicate ArrivesOn(f: Finding, start: Day, d: Day) {
    f.created == Some(d) && d >= start
  }

  predicate LeavesOn(f: Finding, decidedOn: DecidedOn, start: Day, d: Day) {
    f.created.Some? && DecisionDay(f, decidedOn) == Some(d) && d >= start
  }

  function OpeningCount(findings: seq<Finding>, decidedOn: DecidedOn, start: Day): nat {
    if findings == [] then 0
    else OpeningCount(findings[..|findings| - 1], decidedOn, start)
         + One(Opening(findings[|findings| - 1], decidedOn, start))
  }

  function ArrivalCount(findings: seq<Finding>, start: Day, d: Day): nat {
    if findings == [] then 0
    else ArrivalCount(findings[..|findings| - 1], start, d) + One(ArrivesOn(findings[|findings| - 1], start, d))
  }

  function DecisionCount(findings: seq<Finding>, decidedOn: DecidedOn, start: Day, d: Day): nat {
    if findings == [] then 0
    else DecisionCount(findings[..|findings| - 1], decidedOn, start, d)
         + One(LeavesOn(findings[|findings| - 1], decidedOn, start, d))
  }

  /** The opening backlog plus every arrival less every decision of the window's days up to d. */
  function Running(findings: seq<Finding>, decidedOn: DecidedOn, start: Day, d: Day): int
    decreases if d >= start then d - start + 1 else 0
  {
    if d < start then OpeningCount(findings, decidedOn, start)
    else Running(findings, decidedOn, start, d - 1)
         + ArrivalCount(findings, start, d) - DecisionCount(findings, decidedOn, start, d)
  }

  datatype Point = Point(day: Day, arrived: nat, decided: nat, open: nat)

  function At(m: map<Day, nat>, d: Day): nat {
    if d in m then m[d] else 0
  }

  method Tally(findings: seq<Finding>, decidedOn: DecidedOn, start: Day)
    returns (arrived: map<Day, nat>, decided: map<Day, nat>, opening: nat)
    ensures opening == OpeningCount(findings, decidedOn, start)
    ensures forall d :: At(arrived, d) == ArrivalCount(findings, start, d)
    ensures forall d :: At(decided, d) == DecisionCount(findings, decidedOn, start, d)
  {
    arrived, decided, opening := map[], map[], 0;
    for i := 0 to |findings|
      invariant opening == OpeningCount(findings[..i], decidedOn, start)
      invariant forall d :: At(arrived, d) == ArrivalCount(findings[..i], start, d)
      invariant forall d :: At(decided, d) == DecisionCount(findings[..i], decidedOn, start, d)
    {
      var f := findings[i];
      assert findings[..i + 1][..i] == findings[..i] && findings[..i + 1][i] == f;
      if f.created == None {
        continue;
      }
      var arrivedOn, leftOn := f.created.value, DecisionDay(f, decidedOn);
      if arrivedOn < start {
        if leftOn == None || leftOn.value >= start {
          opening := opening + 1;
        }
      } else {
        arrived := arrived[arrivedOn := At(arrived, arrivedOn) + 1];
      }
      if leftOn.Some? && leftOn.value >= start {
        decided := decided[leftOn.value := At(decided, leftOn.value) + 1];
      }
    }
    assert findings[..|findings|] == findings;
  }

  /** One point for every day of the window; where decisions never precede arrivals each shows what was open that day. */
  method Series(findings: seq<Finding>, decidedOn: DecidedOn, start: Day, today: Day)
    returns (opening: nat, series: seq<Point>)
    ensures opening == OpeningCount(findings, decidedOn, start)
    ensures |series| == Max(0, today - start + 1)
    ensures forall i | 0 <= i < |series| ::
              && series[i].day == start + i
              && series[i].arrived == ArrivalCount(findings, start, start + i)
              && series[i].decided == DecisionCount(findings, decidedOn, start, start + i)
              && series[i].open == Max(0, Running(findings, decidedOn, start, start + i))
    ensures (forall f | f in findings :: DecidedAfterArrival(f, decidedOn)) ==>
              forall i | 0 <= i < |series| ::
                series[i].open == Running(findings, decidedOn, start, start + i) == OpenCount(findings, decidedOn, start + i)
  {
    var arrived, decided;
    arrived, decided, opening := Tally(findings, decidedOn, start);
    var running: int := opening;
    series := [];
    while start + |series| <= today
      invariant |series| <= Max(0, today - start + 1)
      invariant running == Running(findings, decidedOn, start, start + |series| - 1)
      invariant forall i | 0 <= i < |series| ::
                  && series[i].day == start + i
                  && series[i].arrived == ArrivalCount(findings, start, start + i)
                  && series[i].decided == DecisionCount(findings, decidedOn, start, start + i)
                  && series[i].open == Max(0, Running(findings, decidedOn, start, start + i))
      decreases today - start - |series|
    {
      var day := start + |series|;
      running := running + At(arrived, day) - At(decided, day);
      series := series + [Point(day, At(arrived, day), At(decided, day), Max(0, running))];
    }
    if forall f | f in findings :: DecidedAfterArrival(f, decidedOn) {
      forall i | 0 <= i < |series|
        ensures series[i].open == Running(findings, decidedOn, start, start + i) == OpenCount(findings, decidedOn, start + i)
      {
        RunningIsOpen(findings, decidedOn, start, start + i);
      }
    }
  }

  // ---- What the running total means ---------------------------------------------------------------

  predicate DecidedAfterArrival(f: Finding, decidedOn: DecidedOn) {
    f.created.Some? ==> !DecisionDay(f, decidedOn).Some? || f.created.value <= DecisionDay(f, decidedOn).value
  }

  /** Arrived in the window by day d but decided before the window: counted as if it were open. */
  predicate CountedTooLong(f: Finding, decidedOn: DecidedOn, start: Day, d: Day) {
    && f.created.Some? && start <= f.created.value <= d
    && DecisionDay(f, decidedOn).Some? && DecisionDay(f, decidedOn).value < start
  }

  /** Decided in the window by day d and arriving only later: taken off before it was put on. */
  predicate TakenOffTooSoon(f: Finding, decidedOn: DecidedOn, start: Day, d: Day) {
    && f.created.Some? && d < f.created.value
    && DecisionDay(f, decidedOn).Some? && start <= DecisionDay(f, decidedOn).value <= d
  }

  /** The two kinds of inversion, over all windows, are one thing: a decision that precedes its finding's arrival. */
  lemma InvertedIffDecidedBeforeArrival(f: Finding, decidedOn: DecidedOn)
    ensures (exists start, d :: CountedTooLong(f, decidedOn, start, d) || TakenOffTooSoon(f, decidedOn, start, d)) <==>
              f.created.Some? && DecisionDay(f, decidedOn).Some? && DecisionDay(f, decidedOn).value < f.created.value
    ensures DecidedAfterArrival(f, decidedOn) <==>
              forall start, d :: !CountedTooLong(f, decidedOn, start, d) && !TakenOffTooSoon(f, decidedOn, start, d)
  {
    if f.created.Some? && DecisionDay(f, decidedOn).Some? && DecisionDay(f, decidedOn).value < f.created.value {
      assert CountedTooLong(f, decidedOn, DecisionDay(f, decidedOn).value + 1, f.created.value);
    }
  }

  function TooLongCount(findings: seq<Finding>, decidedOn: DecidedOn, start: Day, d: Day): nat {
    if findings == [] then 0
    else TooLongCount(findings[..|findings| - 1], decidedOn, start, d)
         + One(CountedTooLong(findings[|findings| - 1], decidedOn, start, d))
  }

  function TooSoonCount(findings: seq<Finding>, decidedOn: DecidedOn, start: Day, d: Day): nat {
    if findings == [] then 0
    else TooSoonCount(findings[..|findings| - 1], decidedOn, start, d)
         + One(TakenOffTooSoon(findings[|findings| - 1], decidedOn, start, d))
  }

  lemma {:induction false} OpeningAccount(findings: seq<Finding>, decidedOn: DecidedOn, start: Day)
    ensures OpeningCount(findings, decidedOn, start) + TooSoonCount(findings, decidedOn, start, start - 1)
         == OpenCount(findings, decidedOn, start - 1) + TooLongCount(findings, decidedOn, start, start - 1)
  {
    if findings != [] {
      OpeningAccount(findings[..|findings| - 1], decidedOn, start);
    }
  }

  lemma {:induction false} DayAccount(findings: seq<Finding>, decidedOn: DecidedOn, start: Day, d: Day)
    requires start <= d
    ensures OpenCount(findings, decidedOn, d) + TooLongCount(findings, decidedOn, start, d)
            - TooSoonCount(findings, decidedOn, start, d)
         == OpenCount(findings, decidedOn, d - 1) + TooLongCount(findings, decidedOn, start, d - 1)
            - TooSoonCount(findings, decidedOn, start, d - 1)
            + ArrivalCount(findings, start, d) - DecisionCount(findings, decidedOn, start, d)
  {
    if findings != [] {
      DayAccount(findings[..|findings| - 1], decidedOn, start, d);
    }
  }

  /** For all findings and dates: the running total is the open count, off by exactly the two kinds of inversion. */
  lemma {:induction false} RunningAccount(findings: seq<Finding>, decidedOn: DecidedOn, start: Day, d: Day)
    requires start - 1 <= d
    ensures Running(findings, decidedOn, start, d)
         == OpenCount(findings, decidedOn, d) + TooLongCount(findings, decidedOn, start, d)
            - TooSoonCount(findings, decidedOn, start, d)
    decreases d - start + 1
  {
    if d < start {
      OpeningAccount(findings, decidedOn, start);
    } else {
      RunningAccount(findings, decidedOn, start, d - 1);
      DayAccount(findings, decidedOn, start, d);
    }
  }

  lemma {:induction false} NoInversions(findings: seq<Finding>, decidedOn: DecidedOn, start: Day, d: Day)
    requires forall f | f in findings :: DecidedAfterArrival(f, decidedOn)
    ensures TooLongCount(findings, decidedOn, start, d) == 0 && TooSoonCount(findings, decidedOn, start, d) == 0
  {
    if findings != [] {
      NoInversions(findings[..|findings| - 1], decidedOn, start, d);
      assert findings[|findings| - 1] in findings;
    }
  }

  /** Where decisions never precede arrivals the total is the open count itself, on every day, and so never negative. */
  lemma RunningIsOpen(findings: seq<Finding>, decidedOn: DecidedOn, start: Day, d: Day)
    requires start - 1 <= d
    requires forall f | f in findings :: DecidedAfterArrival(f, decidedOn)
    ensures Running(findings, decidedOn, start, d) == OpenCount(findings, decidedOn, d)
  {
    RunningAccount(findings, decidedOn, start, d);
    NoInversions(findings, decidedOn, start, d);
  }

  /** The plotted value is right on a day exactly when the inversions cancel, or the clamp hides them on an empty queue. */
  lemma PlottedIsOpenIff(findings: seq<Finding>, decidedOn: DecidedOn, start: Day, d: Day)
    requires start <= d
    ensures var long, soon := TooLongCount(findings, decidedOn, start, d), TooSoonCount(findings, decidedOn, start, d);
            Max(0, Running(findings, decidedOn, start, d)) == OpenCount(findings, decidedOn, d)
            <==> long == soon || (OpenCount(findings, decidedOn, d) == 0 && long < soon)
  {
    RunningAccount(findings, decidedOn, start, d);
  }

  /** A finding decided the day before it arrived takes an honest queue of one down to nothing. */
  lemma InversionHidesAnOpenFinding()
    ensures var findings := [Finding(1, Some(0), "", ""), Finding(2, Some(6), "analyst", "True Positive")];
            var decidedOn: DecidedOn := map[2 := 5];
            OpenCount(findings, decidedOn, 5) == 1 && Running(findings, decidedOn, 5, 5) == 0
  {
    var a, b := Finding(1, Some(0), "", ""), Finding(2, Some(6), "analyst", "True Positive");
    var findings := [a, b];
    var decidedOn: DecidedOn := map[2 := 5];
    assert findings[..1] == [a] && [a][..0] == [];
    RunningAccount(findings, decidedOn, 5, 5);
    assert OpenCount([a], decidedOn, 5) == 1;
    assert TooSoonCount([a], decidedOn, 5, 5) == 0 && TooLongCount([a], decidedOn, 5, 5) == 0;
    assert TooSoonCount(findings, decidedOn, 5, 5) == 1 && TooLongCount(findings, decidedOn, 5, 5) == 0;
  }

  function EntryCount(findings: seq<Finding>): nat {
    if findings == [] then 0 else EntryCount(findings[..|findings| - 1]) + One(EntryState(findings[|findings| - 1]))
  }

  /** When all dates are in and a decided finding has left the entry state, the last day is the queue as it stands. */
  lemma {:induction false} LastDayIsOpenNow(findings: seq<Finding>, decidedOn: DecidedOn, today: Day)
    requires forall f | f in findings :: OnOrBefore(f.created, today)
    requires forall f | f in findings && f.id in decidedOn :: decidedOn[f.id] <= today && !EntryState(f)
    ensures OpenCount(findings, decidedOn, today) == EntryCount(findings)
  {
    if findings != [] {
      LastDayIsOpenNow(findings[..|findings| - 1], decidedOn, today);
      assert findings[|findings| - 1] in findings;
    }
  }
}
