/** When redelivering a bundle is idempotent, whatever other bundles arrive in between. */
module Redelivery {
  import opened Common
  import opened Ingest
  import opened IngestRuns
  import opened Numerals

  /** The bundle's first delivery was filed on a host row that carries the bundle's machine-id. */
  predicate FiledOnItsMachine(first: Ingested, b: Bundle) {
    && Strip(b.host.machineId) != ""
    && first.run < |first.db.runs| && first.db.runs[first.run].host < |first.db.hosts|
    && first.db.hosts[first.db.runs[first.run].host].machineId == Strip(b.host.machineId)
  }

  /**
   What can be seen before the first delivery: the bundle carries a machine-id, and that id is known, or the host
   picked by name has none yet, or no host has that name.
   */
  predicate KnownOrUnclaimed(db: Db, d: Delivery) {
    var h := d.bundle.host;
    var machineId := Strip(h.machineId);
    && machineId != ""
    && (FindMachine(db.hosts, machineId).Some?
        || match PickNamed(db.hosts, h.hostname, h.platform, d.tie)
           case None => true
           case Some(i) => db.hosts[i].machineId == "")
  }

  /** Whether a bundle ends up on its machine is decided before it is delivered. */
  lemma FiledOnItsMachineIffKnownOrUnclaimed(db: Db, d: Delivery, first: Ingested)
    requires first == IngestBundle(db, d)
    ensures FiledOnItsMachine(first, d.bundle) <==> KnownOrUnclaimed(db, d)
  {
    IngestCases(db, d);
    hide IngestBundle;
    var r := Resolve(db.hosts, db.changes, d.bundle.host, d.bundle.collectedAt, d.bundle.stamp, d.tie);
    assert FiledOnItsMachine(first, d.bundle) <==>
           Strip(d.bundle.host.machineId) != "" && r.hosts[r.host].machineId == Strip(d.bundle.host.machineId);
  }

  lemma FindMachineIs(hosts: seq<Host>, i: nat)
    requires i < |hosts| && hosts[i].machineId != "" && MachinesDistinct(hosts)
    ensures FindMachine(hosts, hosts[i].machineId) == Some(i)
  {
  }

  lemma KnownMachineResolves(hosts: seq<Host>, changes: seq<Change>, i: nat, h: HostIn, observedAt: Option<int>,
                             stamp: string, tie: nat)
    requires i < |hosts| && hosts[i].machineId != "" && MachinesDistinct(hosts)
    requires Strip(h.machineId) == hosts[i].machineId
    ensures Resolve(hosts, changes, h, observedAt, stamp, tie).host == i
  {
    FindMachineIs(hosts, i);
  }

  /** A known machine with a filed collection: delivering it again finds both. */
  lemma KnownMachineFindsItsRun(db: Db, again: Delivery, r: nat)
    requires Sound(db) && r < |db.runs|
    requires var run := db.runs[r];
             && run.stamp == again.bundle.stamp
             && run.host < |db.hosts|
             && run.investigation < |db.investigations| && db.investigations[run.investigation] == CaseOf(again.bundle)
             && Strip(again.bundle.host.machineId) != ""
             && db.hosts[run.host].machineId == Strip(again.bundle.host.machineId)
    ensures var second := IngestBundle(db, again);
            && second.run == r && !second.created
            && second.db.runs == db.runs && second.db.findings == db.findings
            && second.db.iocs == db.iocs && second.db.sightings == db.sightings
  {
    var run, b := db.runs[r], again.bundle;
    IngestCases(db, again);
    KnownMachineResolves(db.hosts, db.changes, run.host, b.host, b.collectedAt, b.stamp, again.tie);
    hide IngestBundle, Resolve, IndicatorsOf, RollUp, RollupsExact;
    var second := IngestBundle(db, again);
    var filed := second.db.runs[second.run];
    assert filed.investigation == run.investigation && filed.host == run.host && filed.stamp == run.stamp;
    assert SameCollection(run, filed.investigation, filed.host, filed.stamp);
    assert SameCollection(filed, run.investigation, run.host, run.stamp);
  }

  /** However late and under whatever name, everything a known machine sends converges on its one host. */
  lemma ArrivalsOfAMachineConverge(db: Db, i: nat, others: seq<Delivery>, h: HostIn, observedAt: Option<int>,
                                   stamp: string, tie: nat)
    requires Sound(db) && i < |db.hosts|
    requires db.hosts[i].machineId != "" && Strip(h.machineId) == db.hosts[i].machineId
    ensures var after := DeliverAll(db, others);
            Resolve(after.hosts, after.changes, h, observedAt, stamp, tie).host == i
  {
    hide IngestBundle;
    DeliveriesKeepSound(db, others);
    var after := DeliverAll(db, others);
    KnownMachineResolves(after.hosts, after.changes, i, h, observedAt, stamp, tie);
  }

  /** Filed on its machine, a bundle adds nothing when it comes again, however late and after whatever else. */
  lemma RedeliveryAddsNothing(db: Db, d: Delivery, first: Ingested, others: seq<Delivery>, again: Delivery)
    requires Sound(db) && first == IngestBundle(db, d) && again.bundle == d.bundle
    requires FiledOnItsMachine(first, d.bundle)
    ensures var between := DeliverAll(first.db, others);
            var second := IngestBundle(between, again);
            && second.run == first.run && !second.created
            && second.db.runs == between.runs && second.db.findings == between.findings
            && second.db.iocs == between.iocs && second.db.sightings == between.sightings
  {
    IngestCases(db, d);
    IngestKeepsSound(db, d);
    DeliveriesKeepSound(first.db, others);
    var between := DeliverAll(first.db, others);
    assert between.runs[first.run] == first.db.runs[first.run];
    KnownMachineFindsItsRun(between, again, first.run);
  }

  // ---- The converse: what makes it fail ---------------------------------------------------------

  predicate NoMachine(db: Db, machineId: string) {
    forall i | 0 <= i < |db.hosts| :: db.hosts[i].machineId != machineId
  }

  ghost function NamedHosts(hosts: seq<Host>, hostname: string, platform: string): set<nat> {
    set i: nat | i < |hosts| && Named(hosts[i], hostname, platform)
  }

  lemma DeliverAllConcat(db: Db, a: seq<Delivery>, b: seq<Delivery>)
    ensures DeliverAll(db, a + b) == DeliverAll(DeliverAll(db, a), b)
    decreases |a|
  {
    if a == [] {
      assert a + b == b;
    } else {
      assert (a + b)[1..] == a[1..] + b;
      DeliverAllConcat(IngestBundle(db, a[0]).db, a[1..], b);
    }
  }

  const MAX_MACHINE_ID := 64
  const MAX_HOSTNAME := 255

  /** The most rows a table with a 64-bit key holds. */
  const MAX_ROWS := 0x7FFF_FFFF_FFFF_FFFF

  /** The bundle fits the columns of every table it reaches. */
  predicate Storable(b: Bundle) {
    && |b.incidentId| <= 128 && |CaseOf(b).name| <= 255 && |b.stamp| <= 64
    && |b.host.hostname| <= MAX_HOSTNAME && |b.host.platform| <= 32
    && |Strip(b.host.machineId)| <= MAX_MACHINE_ID
  }

  ghost predicate AllStorable(deliveries: seq<Delivery>) {
    forall d | d in deliveries :: Storable(d.bundle)
  }

  /** What the database itself keeps: every machine-id fits its column, and there is room for the keys. */
  ghost predicate Fits(hosts: seq<Host>) {
    |hosts| <= MAX_ROWS && forall i | 0 <= i < |hosts| :: |hosts[i].machineId| <= MAX_MACHINE_ID
  }

  lemma {:induction false} MachinesCount(hosts: seq<Host>, apartFrom: string)
    ensures |(set i: nat | i < |hosts| :: hosts[i].machineId) + {apartFrom}| <= |hosts| + 1
  {
    var taken := (set i: nat | i < |hosts| :: hosts[i].machineId) + {apartFrom};
    if hosts == [] {
      assert taken == {apartFrom};
    } else {
      var n := |hosts| - 1;
      MachinesCount(hosts[..n], apartFrom);
      var before := (set i: nat | i < n :: hosts[..n][i].machineId) + {apartFrom};
      assert taken == before + {hosts[n].machineId};
    }
  }

  /** However many hosts there are, some short machine-id is not in use. */
  lemma FreshMachine(hosts: seq<Host>, apartFrom: string) returns (machineId: string)
    requires |hosts| <= MAX_ROWS
    ensures machineId != "" && machineId != apartFrom && |machineId| <= MAX_MACHINE_ID
    ensures Strip(machineId) == machineId
    ensures forall i | 0 <= i < |hosts| :: hosts[i].machineId != machineId
  {
    var taken := (set i: nat | i < |hosts| :: hosts[i].machineId) + {apartFrom};
    MachinesCount(hosts, apartFrom);
    var n := FreeNumeral(taken);
    hide Decimal, PowerOfTen, Strip;
    machineId := Decimal(n);
    DecimalTrimmed(n);
    StripTrims(machineId);
    TwentyDigits();
    DecimalShort(n, 20);
    assert forall i: nat | i < |hosts| :: hosts[i].machineId in taken;
  }

  function OtherName(hostname: string): (other: string)
    ensures other != hostname && |other| == 1
  {
    if hostname == "a" then "b" else "a"
  }

  function Visit(hostname: string, platform: string, machineId: string, tie: nat): Delivery {
    Delivery(Bundle("", "", HostIn(hostname, platform, machineId, ""), "", Some(0), [], []), 0, tie)
  }

  lemma AdoptionResolves(hosts: seq<Host>, changes: seq<Change>, i: nat, m: string)
    requires i < |hosts| && hosts[i].machineId == "" && m != "" && Strip(m) == m
    requires forall j | 0 <= j < |hosts| :: hosts[j].machineId != m
    ensures var b := Visit(hosts[i].hostname, hosts[i].platform, m, i).bundle;
            Resolve(hosts, changes, b.host, b.collectedAt, b.stamp, i).hosts == hosts[i := hosts[i].(machineId := m)]
  {
  }

  lemma RenameResolves(hosts: seq<Host>, changes: seq<Change>, i: nat, hostname: string)
    requires i < |hosts| && hosts[i].machineId != "" && hosts[i].hostname != hostname
    requires MachinesDistinct(hosts) && Trimmed(hosts[i].machineId)
    ensures var b := Visit(hostname, hosts[i].platform, hosts[i].machineId, 0).bundle;
            Resolve(hosts, changes, b.host, b.collectedAt, b.stamp, 0).hosts == hosts[i := hosts[i].(hostname := hostname)]
  {
    StripTrims(hosts[i].machineId);
    FindMachineIs(hosts, i);
  }

  lemma InTurn(db: Db, first: seq<Delivery>, between: Db, second: seq<Delivery>, after: Db) returns (both: seq<Delivery>)
    requires between == DeliverAll(db, first) && after == DeliverAll(between, second)
    requires AllStorable(first) && AllStorable(second)
    ensures after == DeliverAll(db, both) && AllStorable(both)
  {
    both := first + second;
    DeliverAllConcat(db, first, second);
  }

  lemma OneVisit(db: Db, visit: Delivery) returns (visits: seq<Delivery>, after: Db)
    requires Sound(db)
    ensures visits == [visit] && after == DeliverAll(db, visits) && Sound(after)
    ensures var b := visit.bundle;
            after.hosts == Resolve(db.hosts, db.changes, b.host, b.collectedAt, b.stamp, visit.tie).hosts
  {
    visits, after := [visit], IngestBundle(db, visit).db;
    IngestKeepsSound(db, visit);
    IngestCases(db, visit);
    assert [visit][1..] == [];
  }

  /** One visit under a fresh machine-id is adopted by the same-named host the database picks. */
  lemma Adopt(db: Db, i: nat, apartFrom: string) returns (visits: seq<Delivery>, after: Db)
    requires Sound(db) && i < |db.hosts| && db.hosts[i].machineId == "" && Fits(db.hosts)
    requires |db.hosts[i].hostname| <= MAX_HOSTNAME && |db.hosts[i].platform| <= 32
    ensures after == DeliverAll(db, visits) && Sound(after) && AllStorable(visits) && Fits(after.hosts)
    ensures |after.hosts| == |db.hosts| && after.hosts == db.hosts[i := after.hosts[i]]
    ensures after.hosts[i].hostname == db.hosts[i].hostname && after.hosts[i].platform == db.hosts[i].platform
    ensures after.hosts[i].machineId != "" && after.hosts[i].machineId != apartFrom
  {
    hide Sound, Resolve, Strip, DeliverAll, IngestBundle;
    var m := FreshMachine(db.hosts, apartFrom);
    var visit := Visit(db.hosts[i].hostname, db.hosts[i].platform, m, i);
    AdoptionResolves(db.hosts, db.changes, i, m);
    visits, after := OneVisit(db, visit);
  }

  /** One visit under a known machine-id and another name renames that host. */
  lemma Rename(db: Db, i: nat) returns (visits: seq<Delivery>, after: Db)
    requires Sound(db) && i < |db.hosts| && db.hosts[i].machineId != "" && Fits(db.hosts)
    requires |db.hosts[i].platform| <= 32
    ensures after == DeliverAll(db, visits) && Sound(after) && AllStorable(visits) && Fits(after.hosts)
    ensures |after.hosts| == |db.hosts| && after.hosts == db.hosts[i := after.hosts[i]]
    ensures after.hosts[i].hostname != db.hosts[i].hostname && after.hosts[i].machineId == db.hosts[i].machineId
  {
    var renamed := OtherName(db.hosts[i].hostname);
    var visit := Visit(renamed, db.hosts[i].platform, db.hosts[i].machineId, 0);
    assert MachinesDistinct(db.hosts) && HostSound(db.hosts[i], db.changes, i);
    StripTrims(db.hosts[i].machineId);
    RenameResolves(db.hosts, db.changes, i, renamed);
    hide Sound, Resolve, Strip, IdentitySound, HostSound, DeliverAll, IngestBundle;
    visits, after := OneVisit(db, visit);
  }

  lemma StillNoMachine(db: Db, after: Db, i: nat, apartFrom: string)
    requires NoMachine(db, apartFrom) && i < |db.hosts| == |after.hosts| && after.hosts == db.hosts[i := after.hosts[i]]
    requires after.hosts[i].machineId != apartFrom
    ensures NoMachine(after, apartFrom)
  {
  }

  /** Two visits, or one, take its name away from a single host and from no other. */
  lemma TakeNameFrom(db: Db, i: nat, apartFrom: string) returns (visits: seq<Delivery>, after: Db)
    requires Sound(db) && i < |db.hosts| && NoMachine(db, apartFrom) && apartFrom != "" && Fits(db.hosts)
    requires |db.hosts[i].hostname| <= MAX_HOSTNAME && |db.hosts[i].platform| <= 32
    ensures after == DeliverAll(db, visits) && Sound(after) && NoMachine(after, apartFrom)
    ensures AllStorable(visits) && Fits(after.hosts)
    ensures |after.hosts| == |db.hosts| && after.hosts == db.hosts[i := after.hosts[i]]
    ensures after.hosts[i].hostname != db.hosts[i].hostname
  {
    hide IngestBundle;
    var first, adopted := [], db;
    if db.hosts[i].machineId == "" {
      first, adopted := Adopt(db, i, apartFrom);
    }
    var second;
    second, after := Rename(adopted, i);
    visits := InTurn(db, first, adopted, second, after);
    StillNoMachine(db, after, i, apartFrom);
  }

  /** Other machines' visits can take a name away from every host that has it. */
  lemma TakeNameAway(db: Db, hostname: string, platform: string, apartFrom: string) returns (others: seq<Delivery>)
    requires Sound(db) && NoMachine(db, apartFrom) && apartFrom != "" && Fits(db.hosts)
    requires |hostname| <= MAX_HOSTNAME && |platform| <= 32
    ensures AllStorable(others)
    ensures var after := DeliverAll(db, others);
            && Sound(after) && NoMachine(after, apartFrom)
            && forall i | 0 <= i < |after.hosts| :: !Named(after.hosts[i], hostname, platform)
    decreases NamedHosts(db.hosts, hostname, platform)
  {
    if i: nat :| i < |db.hosts| && Named(db.hosts[i], hostname, platform) {
      var visits, after := TakeNameFrom(db, i, apartFrom);
      assert i in NamedHosts(db.hosts, hostname, platform) && i !in NamedHosts(after.hosts, hostname, platform);
      var rest := TakeNameAway(after, hostname, platform, apartFrom);
      others := InTurn(db, visits, after, rest, DeliverAll(after, rest));
    } else {
      others := [];
    }
  }

  /** After its first delivery, a bundle not filed on its machine is on no machine at all. */
  lemma NotFiledMeansNoMachine(db: Db, d: Delivery, first: Ingested)
    requires Sound(db) && Delivered(db, d, first)
    requires !FiledOnItsMachine(first, d.bundle)
    ensures Strip(d.bundle.host.machineId) != "" ==> NoMachine(first.db, Strip(d.bundle.host.machineId))
  {
  }

  lemma HostsStillFit(db: Db, d: Delivery, first: Ingested)
    requires Delivered(db, d, first) && Fits(db.hosts) && |db.hosts| < MAX_ROWS && Storable(d.bundle)
    ensures Fits(first.db.hosts)
  {
  }

  lemma UnknownHostMeansNewRun(db: Db, again: Delivery)
    requires Sound(db)
    requires Strip(again.bundle.host.machineId) != "" ==> NoMachine(db, Strip(again.bundle.host.machineId))
    requires forall i | 0 <= i < |db.hosts| :: !Named(db.hosts[i], again.bundle.host.hostname, again.bundle.host.platform)
    ensures IngestBundle(db, again).created
  {
    IngestCases(db, again);
    var second := IngestBundle(db, again);
    assert second.db.runs[second.run].host == |db.hosts|;
  }

  /**
   Not filed on its machine, other bundles that fit every column can come between so that the same bundle is filed
   twice.
   */
  lemma RedeliveryCanDuplicate(db: Db, d: Delivery, first: Ingested, again: Delivery) returns (others: seq<Delivery>)
    requires Sound(db) && first == IngestBundle(db, d) && again.bundle == d.bundle
    requires !FiledOnItsMachine(first, d.bundle)
    requires Fits(db.hosts) && |db.hosts| < MAX_ROWS && Storable(d.bundle)
    ensures IngestBundle(DeliverAll(first.db, others), again).created
    ensures AllStorable(others)
  {
    var h := d.bundle.host;
    IngestCases(db, d);
    IngestKeepsSound(db, d);
    NotFiledMeansNoMachine(db, d, first);
    HostsStillFit(db, d, first);
    var apartFrom := Strip(h.machineId);
    if apartFrom == "" {
      apartFrom := FreshMachine(first.db.hosts, "");
    }
    others := TakeNameAway(first.db, h.hostname, h.platform, apartFrom);
    UnknownHostMeansNewRun(DeliverAll(first.db, others), again);
  }

  /**
   Redelivery never adds a second run, whatever bundles the columns accept come between, exactly when the bundle's
   machine-id is known or unclaimed before the first delivery: the one then filed on a host row that carries it.
   */
  lemma IdempotentIffKnownOrUnclaimed(db: Db, d: Delivery, first: Ingested)
    requires Sound(db) && first == IngestBundle(db, d)
    requires Fits(db.hosts) && |db.hosts| < MAX_ROWS && Storable(d.bundle)
    ensures (forall others: seq<Delivery>, again: Delivery | AllStorable(others) && again.bundle == d.bundle ::
               !IngestBundle(DeliverAll(first.db, others), again).created)
            <==> KnownOrUnclaimed(db, d)
  {
    FiledOnItsMachineIffKnownOrUnclaimed(db, d, first);
    if FiledOnItsMachine(first, d.bundle) {
      forall others: seq<Delivery>, again: Delivery | AllStorable(others) && again.bundle == d.bundle
        ensures !IngestBundle(DeliverAll(first.db, others), again).created
      {
        RedeliveryAddsNothing(db, d, first, others, again);
      }
    } else {
      var others := RedeliveryCanDuplicate(db, d, first, d);
      assert IngestBundle(DeliverAll(first.db, others), d).created;
    }
  }

  // ---- When a bundle's evidence is filed at all ---------------------------------------------------

  /** A run of this case, host and stamp is on record. */
  ghost predicate HasCollection(db: Db, c: Investigation, host: nat, stamp: string) {
    exists r | 0 <= r < |db.runs| ::
      && db.runs[r].host == host && db.runs[r].stamp == stamp
      && db.runs[r].investigation < |db.investigations| && db.investigations[db.runs[r].investigation] == c
  }

  /**
   A bundle's evidence is filed exactly when no run of its case, resolved host and stamp is on record; another
   bundle of the same three is taken for a redelivery, whatever it holds.
   */
  lemma FiledIffNewCollection(db: Db, d: Delivery, after: Ingested)
    requires Sound(db) && after == IngestBundle(db, d)
    ensures var b := d.bundle;
            var host := Resolve(db.hosts, db.changes, b.host, b.collectedAt, b.stamp, d.tie).host;
            after.created <==> !HasCollection(db, CaseOf(b), host, b.stamp)
    ensures after.db.findings == db.findings + if after.created then FindingRows(after.run, d.bundle.findings) else []
    ensures after.db.iocs == db.iocs + if after.created then IocRows(after.run, IndicatorsOf(d.bundle)) else []
  {
    IngestCases(db, d);
    hide IngestBundle, Resolve, RollupsExact, IdentitySound, IndicatorsOf, RollUp;
    var b := d.bundle;
    var run := after.db.runs[after.run];
    assert CaseOf(b) in db.investigations ==> after.db.investigations == db.investigations;
    if after.created {
      forall r | 0 <= r < |db.runs| && db.runs[r].host == run.host && db.runs[r].stamp == b.stamp
        ensures db.investigations[db.runs[r].investigation] != CaseOf(b)
      {
        assert !SameCollection(db.runs[r], run.investigation, run.host, run.stamp);
      }
    } else {
      assert db.runs[after.run] == run;
    }
  }
}
