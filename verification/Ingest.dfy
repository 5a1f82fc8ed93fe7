/**
 Ingest normalization: a posted bundle becomes rows. Deliveries are applied one at a time, each a
 transaction. Row ids are positions. Where the source takes `.first()` of several same-named hosts,
 which one the database returns is the delivery's `tie`, left arbitrary.
 */
module Ingest {
  import opened Common
  import FirstSeen

  // ---- What is posted ---------------------------------------------------------------------------

  datatype Indicator = Indicator(kind: string, value: string)

  datatype FindingIn = FindingIn(text: string, indicators: seq<Indicator>) | NotAFinding(text: string)

  datatype HostIn = HostIn(hostname: string, platform: string, machineId: string, hostnameSource: string)

  /** `machineId` arrives unstripped; `collectedAt` is None when it was absent or unreadable. */
  datatype Bundle = Bundle(incidentId: string, name: string, host: HostIn, stamp: string,
                           collectedAt: Option<int>, findings: seq<FindingIn>, iocs: seq<Indicator>)

  /** One application of a bundle: the clock when it was applied, and the database's choice among equals. */
  datatype Delivery = Delivery(bundle: Bundle, now: int, tie: nat)

  // ---- The tables -------------------------------------------------------------------------------

  datatype Investigation = Investigation(incidentId: string, name: string)

  datatype Host = Host(hostname: string, platform: string, machineId: string)

  datatype Field = HostnameField | MachineIdField

  datatype Change = Change(host: nat, field: Field, was: string, becomes: string,
                           observedAt: Option<int>, stamp: string)

  datatype CollectionRun = CollectionRun(investigation: nat, host: nat, stamp: string, collectedAt: int)

  datatype FindingRow = FindingRow(run: nat, finding: FindingIn)

  datatype Ioc = Ioc(run: nat, indicator: Indicator)

  datatype SightingKey = SightingKey(indicator: Indicator, host: nat, investigation: nat)

  datatype Sighting = Sighting(count: nat, firstSeen: int, lastSeen: int, hostname: string)

  datatype Db = Db(investigations: seq<Investigation>, hosts: seq<Host>, changes: seq<Change>,
                   runs: seq<CollectionRun>, findings: seq<FindingRow>, iocs: seq<Ioc>,
                   sightings: map<SightingKey, Sighting>)

  const EMPTY := Db([], [], [], [], [], [], map[])

  // ---- Investigation and host -------------------------------------------------------------------

  function CaseOf(b: Bundle): Investigation {
    Investigation(b.incidentId,
                  if b.name != "" then b.name
                  else if b.incidentId != "" then b.incidentId
                  else "Untitled investigation")
  }

  function FindCase(cases: seq<Investigation>, c: Investigation): (found: Option<nat>)
    ensures found.Some? ==> found.value < |cases| && cases[found.value] == c
    ensures found.None? ==> c !in cases
  {
    if cases == [] then None
    else if cases[|cases| - 1] == c then Some(|cases| - 1)
    else FindCase(cases[..|cases| - 1], c)
  }

  function FindMachine(hosts: seq<Host>, machineId: string): (found: Option<nat>)
    ensures found.Some? ==> found.value < |hosts| && hosts[found.value].machineId == machineId
    ensures found.None? ==> forall i | 0 <= i < |hosts| :: hosts[i].machineId != machineId
  {
    if hosts == [] then None
    else if hosts[|hosts| - 1].machineId == machineId then Some(|hosts| - 1)
    else FindMachine(hosts[..|hosts| - 1], machineId)
  }

  predicate Named(h: Host, hostname: string, platform: string) {
    h.hostname == hostname && h.platform == platform
  }

  function FindNamed(hosts: seq<Host>, hostname: string, platform: string): (found: Option<nat>)
    ensures found.Some? ==> found.value < |hosts| && Named(hosts[found.value], hostname, platform)
    ensures found.None? ==> forall i | 0 <= i < |hosts| :: !Named(hosts[i], hostname, platform)
  {
    if hosts == [] then None
    else if Named(hosts[|hosts| - 1], hostname, platform) then Some(|hosts| - 1)
    else FindNamed(hosts[..|hosts| - 1], hostname, platform)
  }

  /** Some same-named host if there is one: the one the tie points at, when it points at one. */
  function PickNamed(hosts: seq<Host>, hostname: string, platform: string, tie: nat): (found: Option<nat>)
    ensures found.Some? ==> found.value < |hosts| && Named(hosts[found.value], hostname, platform)
    ensures found.None? ==> forall i | 0 <= i < |hosts| :: !Named(hosts[i], hostname, platform)
  {
    if tie < |hosts| && Named(hosts[tie], hostname, platform) then Some(tie)
    else FindNamed(hosts, hostname, platform)
  }

  /** A container id is no name for the machine it ran on. */
  predicate NameTrustworthy(source: string) {
    source in {"host-mount", "override", ""}
  }

  /** The case a bundle belongs to, on its columns: the given name, or the incident id for want of one, or neither. */
  ghost predicate IsCaseOf(c: Investigation, b: Bundle) {
    && c.incidentId == b.incidentId
    && (b.name != "" ==> c.name == b.name)
    && (b.name == "" && b.incidentId != "" ==> c.name == b.incidentId)
    && (b.name == "" && b.incidentId == "" ==> c.name == "Untitled investigation")
  }

  datatype Resolved = Resolved(hosts: seq<Host>, changes: seq<Change>, host: nat)

  function Resolve(hosts: seq<Host>, changes: seq<Change>, h: HostIn, observedAt: Option<int>, stamp: string,
                   tie: nat): (r: Resolved)
    ensures r.host < |r.hosts|
  {
    var machineId := Strip(h.machineId);
    var byMachine := if machineId != "" then FindMachine(hosts, machineId) else None;
    match byMachine
    case Some(i) =>
      if hosts[i].hostname != h.hostname && NameTrustworthy(h.hostnameSource) then
        Resolved(hosts[i := hosts[i].(hostname := h.hostname)],
                 changes + [Change(i, HostnameField, hosts[i].hostname, h.hostname, observedAt, stamp)], i)
      else Resolved(hosts, changes, i)
    case None =>
      match PickNamed(hosts, h.hostname, h.platform, tie)
      case Some(i) =>
        if machineId != "" && hosts[i].machineId == "" then
          Resolved(hosts[i := hosts[i].(machineId := machineId)],
                   changes + [Change(i, MachineIdField, "", machineId, observedAt, stamp)], i)
        else Resolved(hosts, changes, i)
      case None =>
        Resolved(hosts + [Host(h.hostname, h.platform, machineId)], changes, |hosts|)
  }

  /** The host has the machine-id that was reported, blanks stripped. */
  ghost predicate IsMachine(host: Host, h: HostIn) {
    Strip(h.machineId) != "" && host.machineId == Strip(h.machineId)
  }

  /**
   A known machine resolves to its row. Where the name reported is another one and is the machine's own, the row takes
   it and the change is recorded first; otherwise nothing changes.
   */
  lemma KnownMachineFollowsItsName(hosts: seq<Host>, changes: seq<Change>, h: HostIn, observedAt: Option<int>,
                                   stamp: string, tie: nat, r: Resolved)
    requires r == Resolve(hosts, changes, h, observedAt, stamp, tie)
    requires exists host | host in hosts :: IsMachine(host, h)
    ensures r.host < |hosts| == |r.hosts| && IsMachine(hosts[r.host], h)
    ensures forall i | 0 <= i < |hosts| && i != r.host :: r.hosts[i] == hosts[i]
    ensures r.hosts[r.host].platform == hosts[r.host].platform && r.hosts[r.host].machineId == hosts[r.host].machineId
    ensures var was := hosts[r.host].hostname;
            if h.hostname != was
               && (h.hostnameSource == "host-mount" || h.hostnameSource == "override" || h.hostnameSource == "") then
              && r.hosts[r.host].hostname == h.hostname
              && r.changes == changes + [Change(r.host, HostnameField, was, h.hostname, observedAt, stamp)]
            else r.hosts == hosts && r.changes == changes
  {
  }

  /**
   Any other machine resolves to a row of the same name and platform, the one the database returns; a row without a
   machine-id takes the reported one, and the change is recorded. Where no row has the name, one is added.
   */
  lemma UnknownMachineGoesByName(hosts: seq<Host>, changes: seq<Change>, h: HostIn, observedAt: Option<int>,
                                 stamp: string, tie: nat, r: Resolved)
    requires r == Resolve(hosts, changes, h, observedAt, stamp, tie)
    requires forall host | host in hosts :: !IsMachine(host, h)
    ensures forall i | 0 <= i < |hosts| && i != r.host :: i < |r.hosts| && r.hosts[i] == hosts[i]
    ensures if exists host | host in hosts :: host.hostname == h.hostname && host.platform == h.platform then
              && r.host < |hosts| == |r.hosts|
              && var was := hosts[r.host];
              && was.hostname == h.hostname && was.platform == h.platform
              && (tie < |hosts| && hosts[tie].hostname == h.hostname && hosts[tie].platform == h.platform ==> r.host == tie)
              && if Strip(h.machineId) != "" && was.machineId == "" then
                   && r.hosts[r.host] == Host(was.hostname, was.platform, Strip(h.machineId))
                   && r.changes == changes + [Change(r.host, MachineIdField, "", Strip(h.machineId), observedAt, stamp)]
                 else r.hosts == hosts && r.changes == changes
            else
              && r.host == |hosts| && r.changes == changes
              && r.hosts == hosts + [Host(h.hostname, h.platform, Strip(h.machineId))]
  {
    var byMachine := FindMachine(hosts, Strip(h.machineId));
    assert byMachine.Some? ==> hosts[byMachine.value] in hosts;
    var byName := PickNamed(hosts, h.hostname, h.platform, tie);
    assert byName.Some? ==> hosts[byName.value] in hosts;
  }

  // ---- Indicators -------------------------------------------------------------------------------

  function ClipIndicator(i: Indicator): Indicator {
    Indicator(Clip(i.kind, 64), Clip(i.value, 1024))
  }

  function ClipAll(s: seq<Indicator>): (clipped: seq<Indicator>)
    ensures |clipped| == |s|
    ensures forall i | 0 <= i < |s| :: clipped[i] == ClipIndicator(s[i])
  {
    seq(|s|, i requires 0 <= i < |s| => ClipIndicator(s[i]))
  }

  /** Every indicator the findings recovered, clipped to its columns, in order. */
  function Recovered(findings: seq<FindingIn>): seq<Indicator> {
    if findings == [] then []
    else (if findings[0].FindingIn? then ClipAll(findings[0].indicators) else []) + Recovered(findings[1..])
  }

  function Itself(i: Indicator): Indicator { i }

  /** Recovered indicators not among the hunt's, each once. */
  function NewIndicators(findings: seq<FindingIn>, hunt: seq<Indicator>): seq<Indicator> {
    FirstSeen.Keep(Itself, (set i | i in hunt), Recovered(findings))
  }

  function IndicatorsOf(b: Bundle): seq<Indicator> {
    ClipAll(b.iocs) + NewIndicators(b.findings, ClipAll(b.iocs))
  }

  // ---- Rollup -----------------------------------------------------------------------------------

  function Tick(sightings: map<SightingKey, Sighting>, key: SightingKey, seen: int, hostname: string)
    : map<SightingKey, Sighting>
  {
    if key in sightings then
      var s := sightings[key];
      sightings[key := Sighting(s.count + 1, Min(s.firstSeen, seen), Max(s.lastSeen, seen), hostname)]
    else sightings[key := Sighting(1, seen, seen, hostname)]
  }

  function RollUp(sightings: map<SightingKey, Sighting>, indicators: seq<Indicator>, host: nat, investigation: nat,
                  seen: int, hostname: string): map<SightingKey, Sighting>
  {
    if indicators == [] then sightings
    else
      var n := |indicators| - 1;
      Tick(RollUp(sightings, indicators[..n], host, investigation, seen, hostname),
           SightingKey(indicators[n], host, investigation), seen, hostname)
  }

  // ---- One bundle -------------------------------------------------------------------------------

  datatype Ingested = Ingested(db: Db, run: nat, created: bool)

  function FindRun(runs: seq<CollectionRun>, investigation: nat, host: nat, stamp: string): (found: Option<nat>)
    ensures found.Some? ==> found.value < |runs| && SameCollection(runs[found.value], investigation, host, stamp)
    ensures found.None? ==> forall i | 0 <= i < |runs| :: !SameCollection(runs[i], investigation, host, stamp)
  {
    if runs == [] then None
    else if SameCollection(runs[|runs| - 1], investigation, host, stamp) then Some(|runs| - 1)
    else FindRun(runs[..|runs| - 1], investigation, host, stamp)
  }

  predicate SameCollection(run: CollectionRun, investigation: nat, host: nat, stamp: string) {
    run.investigation == investigation && run.host == host && run.stamp == stamp
  }

  function FindingRows(run: nat, findings: seq<FindingIn>): seq<FindingRow> {
    if findings == [] then []
    else (if findings[0].FindingIn? then [FindingRow(run, findings[0])] else []) + FindingRows(run, findings[1..])
  }

  /**
   From `start` on, the table holds the run's rows for the findings that `at` picks: in order, each once, and all there
   are. Entries that are no findings are skipped.
   */
  ghost predicate FindingsStand(table: seq<FindingRow>, start: nat, run: nat, findings: seq<FindingIn>, at: seq<nat>) {
    && start + |at| <= |table|
    && (forall k | 0 <= k < |at| ::
          at[k] < |findings| && findings[at[k]].FindingIn? && table[start + k] == FindingRow(run, findings[at[k]]))
    && (forall k, l | 0 <= k < l < |at| :: at[k] < at[l])
    && (forall i | 0 <= i < |findings| && findings[i].FindingIn? :: i in at)
  }

  /** A finding recovered the indicator, as its columns keep it: 64 characters of the kind and 1024 of the value. */
  ghost predicate RecoveredBy(findings: seq<FindingIn>, x: Indicator) {
    exists f, i | f in findings && f.FindingIn? && i in f.indicators :: IsClipped(x, i)
  }

  ghost predicate IsClipped(x: Indicator, i: Indicator) {
    && x.kind == (if |i.kind| <= 64 then i.kind else i.kind[..64])
    && x.value == (if |i.value| <= 1024 then i.value else i.value[..1024])
  }

  /** The hunt's own indicators, in order, and then every one that a finding recovered and is not there yet, once. */
  ghost predicate AreIndicatorsOf(indicators: seq<Indicator>, b: Bundle) {
    var hunt := |b.iocs|;
    && hunt <= |indicators|
    && (forall k | 0 <= k < hunt :: IsClipped(indicators[k], b.iocs[k]))
    && (forall k, l | 0 <= k < l < |indicators| && hunt <= l :: indicators[k] != indicators[l])
    && (forall k | hunt <= k < |indicators| :: RecoveredBy(b.findings, indicators[k]))
    && (forall x | RecoveredBy(b.findings, x) :: x in indicators)
  }

  /** From `start` on, the table holds the run's rows for these indicators. */
  ghost predicate IndicatorsStand(table: seq<Ioc>, start: nat, run: nat, indicators: seq<Indicator>) {
    && start + |indicators| <= |table|
    && forall k | 0 <= k < |indicators| :: table[start + k] == Ioc(run, indicators[k])
  }

  /** What a finding recovered is what its clipped indicators are. */
  lemma {:induction false} RecoveredExact(findings: seq<FindingIn>, x: Indicator)
    ensures x in Recovered(findings) <==> RecoveredBy(findings, x)
  {
    if findings != [] {
      var rest := findings[1..];
      RecoveredExact(rest, x);
      assert findings == [findings[0]] + rest;
      if findings[0].FindingIn? {
        var own, clipped := findings[0].indicators, ClipAll(findings[0].indicators);
        if x in clipped {
          var k :| 0 <= k < |clipped| && clipped[k] == x;
          assert own[k] in own && IsClipped(x, own[k]);
        }
        forall i | i in own && IsClipped(x, i)
          ensures x in clipped
        {
          var k :| 0 <= k < |own| && own[k] == i;
          assert clipped[k] == x;
        }
      }
    }
  }

  lemma IndicatorsByColumns(b: Bundle)
    ensures AreIndicatorsOf(IndicatorsOf(b), b)
  {
    var hunt := ClipAll(b.iocs);
    var all, more := IndicatorsOf(b), NewIndicators(b.findings, hunt);
    forall x
      ensures x in more <==> RecoveredBy(b.findings, x) && x !in hunt
    {
      NewIndicatorsExact(b.findings, hunt, x);
      RecoveredExact(b.findings, x);
    }
    forall k, l | 0 <= k < l < |all| && |hunt| <= l
      ensures all[k] != all[l]
    {
      NewIndicatorsExact(b.findings, hunt, all[l]);
      assert all[l] == more[l - |hunt|];
    }
    forall k | |hunt| <= k < |all|
      ensures RecoveredBy(b.findings, all[k])
    {
      assert all[k] == more[k - |hunt|];
    }
  }

  lemma {:induction false} FindingRowsStand(table: seq<FindingRow>, run: nat, findings: seq<FindingIn>) returns (at: seq<nat>)
    ensures FindingsStand(table + FindingRows(run, findings), |table|, run, findings, at)
    ensures |at| == |FindingRows(run, findings)|
  {
    if findings == [] {
      at := [];
    } else {
      var n := |findings| - 1;
      at := FindingRowsStand(table, run, findings[..n]);
      FindingRowsLast(run, findings);
      if findings[n].FindingIn? {
        at := at + [n];
      }
    }
  }

  lemma {:induction false} FindingRowsLast(run: nat, findings: seq<FindingIn>)
    requires findings != []
    ensures FindingRows(run, findings) ==
              FindingRows(run, findings[..|findings| - 1])
              + if findings[|findings| - 1].FindingIn? then [FindingRow(run, findings[|findings| - 1])] else []
  {
    var n := |findings| - 1;
    var first := if findings[0].FindingIn? then [FindingRow(run, findings[0])] else [];
    if n == 0 {
      assert findings[..0] == [] && findings[1..] == [] && FindingRows(run, []) == [];
      assert first + [] == first && [] + first == first;
    } else {
      var last := if findings[n].FindingIn? then [FindingRow(run, findings[n])] else [];
      FindingRowsLast(run, findings[1..]);
      assert findings[1..][..n - 1] == findings[..n][1..] && findings[..n][0] == findings[0];
      var between := FindingRows(run, findings[1..n]);
      assert FindingRows(run, findings[1..]) == between + last && FindingRows(run, findings[..n]) == first + between;
      assert first + (between + last) == (first + between) + last;
    }
  }

  function IocRows(run: nat, indicators: seq<Indicator>): (rows: seq<Ioc>)
    ensures |rows| == |indicators|
    ensures forall i | 0 <= i < |rows| :: rows[i] == Ioc(run, indicators[i])
  {
    seq(|indicators|, i requires 0 <= i < |indicators| => Ioc(run, indicators[i]))
  }

  function Identify(db: Db, b: Bundle, tie: nat): (d: (Db, nat, nat))
    ensures d.1 < |d.0.investigations| && d.2 < |d.0.hosts|
    ensures d.0.runs == db.runs && d.0.findings == db.findings && d.0.iocs == db.iocs && d.0.sightings == db.sightings
  {
    var found := FindCase(db.investigations, CaseOf(b));
    var cases := if found.Some? then db.investigations else db.investigations + [CaseOf(b)];
    var r := Resolve(db.hosts, db.changes, b.host, b.collectedAt, b.stamp, tie);
    (db.(investigations := cases, hosts := r.hosts, changes := r.changes), found.GetOr(|db.investigations|), r.host)
  }

  function IngestBundle(db: Db, d: Delivery): Ingested {
    var b := d.bundle;
    var (db1, investigation, host) := Identify(db, b, d.tie);
    match FindRun(db1.runs, investigation, host, b.stamp)
    case Some(r) => Ingested(db1, r, false)
    case None =>
      var run := CollectionRun(investigation, host, b.stamp, b.collectedAt.GetOr(d.now));
      var id := |db1.runs|;
      var indicators := IndicatorsOf(b);
      Ingested(db1.(runs := db1.runs + [run],
                    findings := db1.findings + FindingRows(id, b.findings),
                    iocs := db1.iocs + IocRows(id, indicators),
                    sightings := RollUp(db1.sightings, indicators, host, investigation, run.collectedAt,
                                        db1.hosts[host].hostname)),
               id, true)
  }

  /**
   What becomes of a bundle, read off the tables. Its run is of its case, of its stamp and on an existing host; a run it
   created has its findings and its indicators, each once and in order, as the rows added; a run that was there before
   adds none.
   */
  ghost predicate Filed(before: Db, d: Delivery, after: Db, run: nat, created: bool) {
    var b := d.bundle;
    && run < |after.runs| && after.runs[run].stamp == b.stamp && after.runs[run].host < |after.hosts|
    && after.runs[run].investigation < |after.investigations|
    && IsCaseOf(after.investigations[after.runs[run].investigation], b)
    && before.findings <= after.findings && before.iocs <= after.iocs && before.runs <= after.runs
    && if created then
         && run == |before.runs| && |after.runs| == run + 1
         && (b.collectedAt.Some? ==> after.runs[run].collectedAt == b.collectedAt.value)
         && (b.collectedAt.None? ==> after.runs[run].collectedAt == d.now)
         && (exists at | FindingsStand(after.findings, |before.findings|, run, b.findings, at) ::
               |after.findings| == |before.findings| + |at|)
         && (exists indicators | AreIndicatorsOf(indicators, b) ::
               IndicatorsStand(after.iocs, |before.iocs|, run, indicators)
               && |after.iocs| == |before.iocs| + |indicators|)
       else
         && after.runs == before.runs && after.findings == before.findings && after.iocs == before.iocs
         && after.sightings == before.sightings
  }

  lemma IngestFiles(db: Db, d: Delivery, after: Ingested)
    requires after == IngestBundle(db, d)
    ensures Filed(db, d, after.db, after.run, after.created)
  {
    hide Resolve, RollUp, IndicatorsOf, AreIndicatorsOf, FindingRows;
    if after.created {
      var at := FindingRowsStand(db.findings, after.run, d.bundle.findings);
      assert FindingsStand(after.db.findings, |db.findings|, after.run, d.bundle.findings, at);
      IndicatorsByColumns(d.bundle);
      assert IndicatorsStand(after.db.iocs, |db.iocs|, after.run, IndicatorsOf(d.bundle));
    }
  }

  function DeliverAll(db: Db, deliveries: seq<Delivery>): Db
    decreases |deliveries|
  {
    if deliveries == [] then db else DeliverAll(IngestBundle(db, deliveries[0]).db, deliveries[1..])
  }

  // ---- The store --------------------------------------------------------------------------------

  class Store {
    var investigations: seq<Investigation>
    var hosts: seq<Host>
    var changes: seq<Change>
    var runs: seq<CollectionRun>
    var findings: seq<FindingRow>
    var iocs: seq<Ioc>
    var sightings: map<SightingKey, Sighting>

    ghost function Tables(): Db reads this {
      Db(investigations, hosts, changes, runs, findings, iocs, sightings)
    }

    constructor ()
      ensures Tables() == EMPTY
    {
      investigations, hosts, changes, runs, findings, iocs, sightings := [], [], [], [], [], [], map[];
    }

    method GetOrCreateCase(c: Investigation) returns (investigation: nat)
      modifies this`investigations
      ensures investigation < |investigations| && investigations[investigation] == c
      ensures investigations == if c in old(investigations) then old(investigations) else old(investigations) + [c]
      ensures investigation == FindCase(old(investigations), c).GetOr(|old(investigations)|)
    {
      var found := FindCase(investigations, c);
      if found.None? {
        investigations := investigations + [c];
        return |investigations| - 1;
      }
      investigation := found.value;
    }

    method ResolveHost(h: HostIn, observedAt: Option<int>, stamp: string, tie: nat) returns (host: nat)
      modifies this`hosts, this`changes
      ensures Resolved(hosts, changes, host) == Resolve(old(hosts), old(changes), h, observedAt, stamp, tie)
    {
      var machineId := Strip(h.machineId);
      var found := None;
      if machineId != "" {
        found := FindMachine(hosts, machineId);
        if found.Some? && hosts[found.value].hostname != h.hostname && NameTrustworthy(h.hostnameSource) {
          var i := found.value;
          changes := changes + [Change(i, HostnameField, hosts[i].hostname, h.hostname, observedAt, stamp)];
          hosts := hosts[i := hosts[i].(hostname := h.hostname)];
        }
      }
      if found.None? {
        found := PickNamed(hosts, h.hostname, h.platform, tie);
        if found.Some? && machineId != "" && hosts[found.value].machineId == "" {
          var i := found.value;
          changes := changes + [Change(i, MachineIdField, "", machineId, observedAt, stamp)];
          hosts := hosts[i := hosts[i].(machineId := machineId)];
        }
      }
      if found.None? {
        hosts := hosts + [Host(h.hostname, h.platform, machineId)];
        found := Some(|hosts| - 1);
      }
      host := found.value;
    }

    method RollUpSightings(indicators: seq<Indicator>, host: nat, investigation: nat, seen: int)
      requires host < |hosts|
      modifies this`sightings
      ensures sightings == RollUp(old(sightings), indicators, host, investigation, seen, hosts[host].hostname)
    {
      for i := 0 to |indicators|
        invariant sightings == RollUp(old(sightings), indicators[..i], host, investigation, seen, hosts[host].hostname)
      {
        assert indicators[..i + 1][..i] == indicators[..i];
        var key := SightingKey(indicators[i], host, investigation);
        if key !in sightings {
          sightings := sightings[key := Sighting(1, seen, seen, hosts[host].hostname)];
        } else {
          var s := sightings[key];
          var first := if seen < s.firstSeen then seen else s.firstSeen;
          var last := if seen > s.lastSeen then seen else s.lastSeen;
          sightings := sightings[key := Sighting(s.count + 1, first, last, hosts[host].hostname)];
        }
      }
      assert indicators[..|indicators|] == indicators;
    }

    /** Returns the run this bundle is filed under, and whether this delivery created it. */
    method Ingest(d: Delivery) returns (run: nat, created: bool)
      modifies this
      ensures Ingested(Tables(), run, created) == IngestBundle(old(Tables()), d)
      ensures Filed(old(Tables()), d, Tables(), run, created)
    {
      ghost var after := IngestBundle(Tables(), d);
      IngestFiles(Tables(), d, after);
      hide Filed, Resolve, RollUp, FindingRows, CaseOf, IocRows, NewIndicators, ClipAll, FindRun, FindCase;
      var b := d.bundle;
      var investigation := GetOrCreateCase(CaseOf(b));
      var host := ResolveHost(b.host, b.collectedAt, b.stamp, d.tie);
      assert (Tables(), investigation, host) == Identify(old(Tables()), b, d.tie);
      var existing := FindRun(runs, investigation, host, b.stamp);
      if existing.Some? {
        return existing.value, false;
      }
      run := |runs|;
      var seen := b.collectedAt.GetOr(d.now);
      runs := runs + [CollectionRun(investigation, host, b.stamp, seen)];
      findings := findings + FindingRows(run, b.findings);
      var hunt := ClipAll(b.iocs);
      var recovered := IocsFromFindings(b.findings, hunt);
      iocs := iocs + IocRows(run, hunt + recovered);
      RollUpSightings(hunt + recovered, host, investigation, seen);
      created := true;
    }
  }

  method IocsFromFindings(findings: seq<FindingIn>, hunt: seq<Indicator>) returns (rows: seq<Indicator>)
    ensures rows == NewIndicators(findings, hunt)
  {
    var seen := set i | i in hunt;
    rows := [];
    for n := 0 to |findings|
      invariant rows + FirstSeen.Keep(Itself, seen, Recovered(findings[n..])) == NewIndicators(findings, hunt)
    {
      assert findings[n..][0] == findings[n] && findings[n..][1..] == findings[n + 1..];
      ghost var rest := Recovered(findings[n + 1..]);
      if findings[n].NotAFinding? {
        assert Recovered(findings[n..]) == rest;
        continue;
      }
      var found := ClipAll(findings[n].indicators);
      assert found[0..] + rest == Recovered(findings[n..]);
      for k := 0 to |found|
        invariant rows + FirstSeen.Keep(Itself, seen, found[k..] + rest) == NewIndicators(findings, hunt)
      {
        assert (found[k..] + rest)[0] == found[k] && (found[k..] + rest)[1..] == found[k + 1..] + rest;
        if found[k] in seen {
          continue;
        }
        seen := seen + {found[k]};
        rows := rows + [found[k]];
      }
      assert found[|found|..] + rest == rest;
    }
    assert findings[|findings|..] == [];
  }

  /** Every indicator a bundle yields beyond the hunt's own appears once, and none is missed. */
  lemma NewIndicatorsExact(findings: seq<FindingIn>, hunt: seq<Indicator>, x: Indicator)
    ensures var rows := NewIndicators(findings, hunt);
            && (x in rows <==> x in Recovered(findings) && x !in hunt)
            && forall i, j | 0 <= i < j < |rows| :: rows[i] != rows[j]
  {
    var known := set i | i in hunt;
    FirstSeen.KeepKeys(Itself, known, Recovered(findings));
    assert forall s: seq<Indicator> :: x in FirstSeen.Keys(Itself, s) <==> x in s;
  }
}
