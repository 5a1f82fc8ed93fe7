/** What every sequence of deliveries keeps: identity history, one run per collection, exact rollups. */
module IngestRuns {
  import opened Common
  import opened Ingest

  // ---- Identity ---------------------------------------------------------------------------------

  /** The changes recorded for one field of one host, oldest first. */
  function History(changes: seq<Change>, host: nat, field: Field): (h: seq<Change>)
    ensures forall k | 0 <= k < |h| :: h[k].host == host && h[k].field == field
  {
    if changes == [] then []
    else
      var last := changes[|changes| - 1];
      History(changes[..|changes| - 1], host, field) +
      if last.host == host && last.field == field then [last] else []
  }

  /** Replaying the history ends in `now`, every change starting where the one before it ended. */
  ghost predicate Replays(history: seq<Change>, now: string) {
    && (forall k | 0 <= k < |history| - 1 :: history[k].becomes == history[k + 1].was)
    && (history != [] ==> history[|history| - 1].becomes == now)
  }

  /** The value a field had when its host was created, read back from the history. */
  function Original(changes: seq<Change>, host: nat, field: Field, now: string): string {
    var h := History(changes, host, field);
    if h == [] then now else h[0].was
  }

  /** One host against its history. */
  ghost predicate HostSound(h: Host, changes: seq<Change>, i: nat) {
    && Replays(History(changes, i, HostnameField), h.hostname)
    && Replays(History(changes, i, MachineIdField), h.machineId)
    && |History(changes, i, MachineIdField)| <= 1
    && (h.machineId == "" ==> History(changes, i, MachineIdField) == [])
    && Trimmed(h.machineId)
  }

  ghost predicate MachinesDistinct(hosts: seq<Host>) {
    forall i, j | 0 <= i < j < |hosts| && hosts[i].machineId != "" :: hosts[i].machineId != hosts[j].machineId
  }

  ghost predicate IdentitySound(hosts: seq<Host>, changes: seq<Change>) {
    && (forall k | 0 <= k < |changes| :: changes[k].host < |hosts|)
    && (forall i | 0 <= i < |hosts| :: HostSound(hosts[i], changes, i))
    && MachinesDistinct(hosts)
  }

  /** How one identification may change the hosts: a set machine-id stays, an original name stays, hosts are only added. */
  ghost predicate IdentityKept(hosts: seq<Host>, changes: seq<Change>, hosts': seq<Host>, changes': seq<Change>) {
    && |hosts| <= |hosts'|
    && changes <= changes'
    && (forall i | 0 <= i < |hosts| && hosts[i].machineId != "" :: hosts'[i].machineId == hosts[i].machineId)
    && (forall i | 0 <= i < |hosts| ::
          Original(changes', i, HostnameField, hosts'[i].hostname) == Original(changes, i, HostnameField, hosts[i].hostname))
  }

  lemma NoHistoryOutside(changes: seq<Change>, host: nat, field: Field)
    requires forall k | 0 <= k < |changes| :: changes[k].host != host
    ensures History(changes, host, field) == []
  {
    if changes != [] {
      NoHistoryOutside(changes[..|changes| - 1], host, field);
    }
  }

  lemma HistoryAfter(changes: seq<Change>, c: Change, i: nat, field: Field)
    ensures History(changes + [c], i, field)
         == History(changes, i, field) + if c.host == i && c.field == field then [c] else []
  {
    assert (changes + [c])[..|changes|] == changes;
  }

  lemma HostRenamed(h: Host, changes: seq<Change>, c: Change, i: nat)
    requires HostSound(h, changes, i) && c.field == HostnameField && (c.host == i ==> c.was == h.hostname)
    ensures var h' := if c.host == i then h.(hostname := c.becomes) else h;
            && HostSound(h', changes + [c], i)
            && Original(changes + [c], i, HostnameField, h'.hostname) == Original(changes, i, HostnameField, h.hostname)
  {
    HistoryAfter(changes, c, i, HostnameField);
    HistoryAfter(changes, c, i, MachineIdField);
  }

  lemma HostAdopted(h: Host, changes: seq<Change>, c: Change, i: nat)
    requires HostSound(h, changes, i) && c.field == MachineIdField && c.becomes != "" && Trimmed(c.becomes)
    requires c.host == i ==> c.was == h.machineId == ""
    ensures var h' := if c.host == i then h.(machineId := c.becomes) else h;
            && HostSound(h', changes + [c], i)
            && Original(changes + [c], i, HostnameField, h'.hostname) == Original(changes, i, HostnameField, h.hostname)
  {
    HistoryAfter(changes, c, i, HostnameField);
    HistoryAfter(changes, c, i, MachineIdField);
  }

  lemma RenameKeepsIdentity(hosts: seq<Host>, changes: seq<Change>, c: Change)
    requires IdentitySound(hosts, changes) && c.host < |hosts|
    requires c.field == HostnameField && c.was == hosts[c.host].hostname
    ensures IdentitySound(hosts[c.host := hosts[c.host].(hostname := c.becomes)], changes + [c])
    ensures IdentityKept(hosts, changes, hosts[c.host := hosts[c.host].(hostname := c.becomes)], changes + [c])
  {
    var hosts', changes' := hosts[c.host := hosts[c.host].(hostname := c.becomes)], changes + [c];
    forall i | 0 <= i < |hosts|
      ensures HostSound(hosts'[i], changes', i)
      ensures Original(changes', i, HostnameField, hosts'[i].hostname)
           == Original(changes, i, HostnameField, hosts[i].hostname)
    {
      HostRenamed(hosts[i], changes, c, i);
    }
  }

  lemma AdoptionKeepsIdentity(hosts: seq<Host>, changes: seq<Change>, c: Change)
    requires IdentitySound(hosts, changes) && c.host < |hosts|
    requires c.field == MachineIdField && c.was == hosts[c.host].machineId == ""
    requires c.becomes != "" && Trimmed(c.becomes)
    requires forall i | 0 <= i < |hosts| :: hosts[i].machineId != c.becomes
    ensures IdentitySound(hosts[c.host := hosts[c.host].(machineId := c.becomes)], changes + [c])
    ensures IdentityKept(hosts, changes, hosts[c.host := hosts[c.host].(machineId := c.becomes)], changes + [c])
  {
    var hosts', changes' := hosts[c.host := hosts[c.host].(machineId := c.becomes)], changes + [c];
    forall i | 0 <= i < |hosts|
      ensures HostSound(hosts'[i], changes', i)
      ensures Original(changes', i, HostnameField, hosts'[i].hostname)
           == Original(changes, i, HostnameField, hosts[i].hostname)
    {
      HostAdopted(hosts[i], changes, c, i);
    }
  }

  lemma CreationKeepsIdentity(hosts: seq<Host>, changes: seq<Change>, h: Host)
    requires IdentitySound(hosts, changes)
    requires Trimmed(h.machineId)
    requires h.machineId != "" ==> forall i | 0 <= i < |hosts| :: hosts[i].machineId != h.machineId
    ensures IdentitySound(hosts + [h], changes)
    ensures IdentityKept(hosts, changes, hosts + [h], changes)
    ensures History(changes, |hosts|, HostnameField) == []
  {
    NoHistoryOutside(changes, |hosts|, HostnameField);
    NoHistoryOutside(changes, |hosts|, MachineIdField);
    assert HostSound(h, changes, |hosts|);
    hide History, HostSound, Original;
    forall i | 0 <= i < |hosts + [h]|
      ensures HostSound((hosts + [h])[i], changes, i)
    {
      if i < |hosts| {
        assert HostSound(hosts[i], changes, i);
      }
    }
  }

  lemma ResolveKeepsIdentity(hosts: seq<Host>, changes: seq<Change>, h: HostIn, observedAt: Option<int>,
                             stamp: string, tie: nat)
    requires IdentitySound(hosts, changes)
    ensures var r := Resolve(hosts, changes, h, observedAt, stamp, tie);
            && IdentitySound(r.hosts, r.changes)
            && IdentityKept(hosts, changes, r.hosts, r.changes)
            && |r.hosts| <= |hosts| + 1
            && (|r.hosts| == |hosts| + 1 ==>
                  Original(r.changes, |hosts|, HostnameField, r.hosts[|hosts|].hostname) == h.hostname)
  {
    var machineId := Strip(h.machineId);
    StripTrims(h.machineId);
    var byMachine := if machineId != "" then FindMachine(hosts, machineId) else None;
    match byMachine
    case Some(i) =>
      if hosts[i].hostname != h.hostname && NameTrustworthy(h.hostnameSource) {
        RenameKeepsIdentity(hosts, changes, Change(i, HostnameField, hosts[i].hostname, h.hostname, observedAt, stamp));
      }
    case None =>
      match PickNamed(hosts, h.hostname, h.platform, tie)
      case Some(i) =>
        if machineId != "" && hosts[i].machineId == "" {
          AdoptionKeepsIdentity(hosts, changes, Change(i, MachineIdField, "", machineId, observedAt, stamp));
        }
      case None =>
        CreationKeepsIdentity(hosts, changes, Host(h.hostname, h.platform, machineId));
  }

  /** A name that is not the machine's own never replaces one that is on record. */
  lemma UntrustedNameRenamesNothing(hosts: seq<Host>, changes: seq<Change>, h: HostIn, observedAt: Option<int>,
                                    stamp: string, tie: nat)
    requires h.hostnameSource !in {"host-mount", "override", ""}
    ensures var r := Resolve(hosts, changes, h, observedAt, stamp, tie);
            forall i | 0 <= i < |hosts| :: i < |r.hosts| && r.hosts[i].hostname == hosts[i].hostname
  {
  }

  // ---- Rollups ----------------------------------------------------------------------------------

  /** The collection times of the IOC rows that a rollup key stands for. */
  function Times(iocs: seq<Ioc>, runs: seq<CollectionRun>, key: SightingKey): seq<int>
    requires forall k | 0 <= k < |iocs| :: iocs[k].run < |runs|
  {
    if iocs == [] then []
    else
      var row := iocs[|iocs| - 1];
      var run := runs[row.run];
      Times(iocs[..|iocs| - 1], runs, key) +
      if SightingKey(row.indicator, run.host, run.investigation) == key then [run.collectedAt] else []
  }

  ghost predicate IsMin(m: int, s: seq<int>) {
    m in s && forall t | t in s :: m <= t
  }

  ghost predicate IsMax(m: int, s: seq<int>) {
    m in s && forall t | t in s :: t <= m
  }

  /** A rollup row says what its IOC rows say: how many, first and last. */
  ghost predicate Summarizes(sightings: map<SightingKey, Sighting>, key: SightingKey, times: seq<int>) {
    && (key in sightings <==> times != [])
    && (key in sightings ==>
          && sightings[key].count == |times|
          && IsMin(sightings[key].firstSeen, times)
          && IsMax(sightings[key].lastSeen, times))
  }

  ghost predicate RollupsExact(db: Db) {
    && (forall k | 0 <= k < |db.iocs| :: db.iocs[k].run < |db.runs|)
    && forall key :: Summarizes(db.sightings, key, Times(db.iocs, db.runs, key))
  }

  lemma {:induction false} TimesIgnoresNewRuns(iocs: seq<Ioc>, runs: seq<CollectionRun>, run: CollectionRun, key: SightingKey)
    requires forall k | 0 <= k < |iocs| :: iocs[k].run < |runs|
    ensures Times(iocs, runs + [run], key) == Times(iocs, runs, key)
  {
    if iocs != [] {
      TimesIgnoresNewRuns(iocs[..|iocs| - 1], runs, run, key);
    }
  }

  lemma TickSummarizes(sightings: map<SightingKey, Sighting>, ticked: SightingKey, seen: int, hostname: string,
                       key: SightingKey, times: seq<int>)
    requires Summarizes(sightings, key, times)
    ensures Summarizes(Tick(sightings, ticked, seen, hostname), key, times + if ticked == key then [seen] else [])
  {
    if ticked == key {
      var all := times + [seen];
      assert seen == all[|times|];
      if key in sightings {
        var s := sightings[key];
        assert forall t | t in all :: t in times || t == seen;
      }
    }
  }

  lemma {:induction false} RollUpSummarizes(iocs: seq<Ioc>, runs: seq<CollectionRun>, run: CollectionRun,
                                            sightings: map<SightingKey, Sighting>, indicators: seq<Indicator>,
                                            hostname: string, key: SightingKey)
    requires forall k | 0 <= k < |iocs| :: iocs[k].run < |runs|
    requires Summarizes(sightings, key, Times(iocs, runs, key))
    ensures forall k | 0 <= k < |iocs + IocRows(|runs|, indicators)| ::
              (iocs + IocRows(|runs|, indicators))[k].run < |runs + [run]|
    ensures Summarizes(RollUp(sightings, indicators, run.host, run.investigation, run.collectedAt, hostname),
                       key, Times(iocs + IocRows(|runs|, indicators), runs + [run], key))
    decreases |indicators|
  {
    if indicators == [] {
      assert iocs + IocRows(|runs|, indicators) == iocs;
      TimesIgnoresNewRuns(iocs, runs, run, key);
    } else {
      var n := |indicators| - 1;
      RollUpSummarizes(iocs, runs, run, sightings, indicators[..n], hostname, key);
      var all := iocs + IocRows(|runs|, indicators);
      assert all[..|all| - 1] == iocs + IocRows(|runs|, indicators[..n]);
      hide Summarizes, Tick, IsMin, IsMax;
      TickSummarizes(RollUp(sightings, indicators[..n], run.host, run.investigation, run.collectedAt, hostname),
                     SightingKey(indicators[n], run.host, run.investigation), run.collectedAt, hostname, key,
                     Times(iocs + IocRows(|runs|, indicators[..n]), runs + [run], key));
    }
  }

  // ---- Every delivery ---------------------------------------------------------------------------

  ghost predicate RunsSound(db: Db) {
    && (forall r | 0 <= r < |db.runs| :: db.runs[r].host < |db.hosts| && db.runs[r].investigation < |db.investigations|)
    && (forall r, q | 0 <= r < q < |db.runs| ::
          !SameCollection(db.runs[q], db.runs[r].investigation, db.runs[r].host, db.runs[r].stamp))
    && (forall i, j | 0 <= i < j < |db.investigations| :: db.investigations[i] != db.investigations[j])
  }

  ghost predicate Sound(db: Db) {
    IdentitySound(db.hosts, db.changes) && RunsSound(db) && RollupsExact(db)
  }

  ghost predicate Grows(db: Db, db': Db) {
    && db.investigations <= db'.investigations
    && db.runs <= db'.runs
    && db.findings <= db'.findings
    && db.iocs <= db'.iocs
    && IdentityKept(db.hosts, db.changes, db'.hosts, db'.changes)
  }

  lemma GrowsTransitive(a: Db, b: Db, c: Db)
    requires Grows(a, b) && Grows(b, c)
    ensures Grows(a, c)
  {
    forall i | 0 <= i < |a.hosts|
      ensures Original(c.changes, i, HostnameField, c.hosts[i].hostname)
           == Original(a.changes, i, HostnameField, a.hosts[i].hostname)
    {
      assert i < |b.hosts|;
    }
  }

  /** What a delivery does to each table, by whether its collection was filed before. */
  ghost predicate Delivered(db: Db, d: Delivery, after: Ingested) {
    var b := d.bundle;
    var r := Resolve(db.hosts, db.changes, b.host, b.collectedAt, b.stamp, d.tie);
    && after.db.hosts == r.hosts && after.db.changes == r.changes
    && db.investigations <= after.db.investigations
    && (|after.db.investigations| == |db.investigations|
        || (CaseOf(b) !in db.investigations && after.db.investigations == db.investigations + [CaseOf(b)]))
    && after.run < |after.db.runs|
    && var run := after.db.runs[after.run];
    && run.host == r.host && run.stamp == b.stamp
    && run.investigation < |after.db.investigations| && after.db.investigations[run.investigation] == CaseOf(b)
    && (!after.created ==>
          && after.db.runs == db.runs && after.db.findings == db.findings
          && after.db.iocs == db.iocs && after.db.sightings == db.sightings)
    && (after.created ==>
          && after.run == |db.runs| && after.db.runs == db.runs + [run]
          && (forall i | 0 <= i < |db.runs| :: !SameCollection(db.runs[i], run.investigation, run.host, run.stamp))
          && run.collectedAt == b.collectedAt.GetOr(d.now)
          && after.db.findings == db.findings + FindingRows(after.run, b.findings)
          && after.db.iocs == db.iocs + IocRows(after.run, IndicatorsOf(b))
          && after.db.sightings == RollUp(db.sightings, IndicatorsOf(b), run.host, run.investigation,
                                          run.collectedAt, after.db.hosts[run.host].hostname))
  }

  lemma IngestCases(db: Db, d: Delivery)
    ensures Delivered(db, d, IngestBundle(db, d))
  {
  }

  lemma DeliveredKeepsRollups(db: Db, d: Delivery, after: Ingested)
    requires RollupsExact(db) && Delivered(db, d, after)
    ensures RollupsExact(after.db)
  {
    if after.created {
      var run := after.db.runs[after.run];
      var hostname := after.db.hosts[run.host].hostname;
      assert forall k | 0 <= k < |after.db.iocs| :: after.db.iocs[k].run < |after.db.runs|;
      forall key
        ensures Summarizes(after.db.sightings, key, Times(after.db.iocs, after.db.runs, key))
      {
        RollUpSummarizes(db.iocs, db.runs, run, db.sightings, IndicatorsOf(d.bundle), hostname, key);
      }
    }
  }

  lemma DeliveredKeepsRuns(db: Db, d: Delivery, after: Ingested)
    requires RunsSound(db) && Delivered(db, d, after) && |db.hosts| <= |after.db.hosts|
    ensures RunsSound(after.db)
  {
  }

  lemma DeliveredKeepsSound(db: Db, d: Delivery, after: Ingested)
    requires Sound(db) && Delivered(db, d, after)
    ensures Sound(after.db) && Grows(db, after.db)
    ensures forall i | |db.hosts| <= i < |after.db.hosts| ::
              Original(after.db.changes, i, HostnameField, after.db.hosts[i].hostname) == d.bundle.host.hostname
  {
    var b := d.bundle;
    ResolveKeepsIdentity(db.hosts, db.changes, b.host, b.collectedAt, b.stamp, d.tie);
    hide Resolve, RollUp, IndicatorsOf, History, HostSound, RunsSound, RollupsExact;
    DeliveredKeepsRuns(db, d, after);
    DeliveredKeepsRollups(db, d, after);
  }

  lemma IngestKeepsSound(db: Db, d: Delivery)
    requires Sound(db)
    ensures Sound(IngestBundle(db, d).db)
    ensures Grows(db, IngestBundle(db, d).db)
  {
    IngestCases(db, d);
    DeliveredKeepsSound(db, d, IngestBundle(db, d));
  }

  lemma {:induction false} DeliveriesKeepSound(db: Db, deliveries: seq<Delivery>)
    requires Sound(db)
    ensures Sound(DeliverAll(db, deliveries))
    ensures Grows(db, DeliverAll(db, deliveries))
    decreases |deliveries|
  {
    if deliveries != [] {
      var db' := IngestBundle(db, deliveries[0]).db;
      IngestKeepsSound(db, deliveries[0]);
      DeliveriesKeepSound(db', deliveries[1..]);
      GrowsTransitive(db, db', DeliverAll(db', deliveries[1..]));
    }
  }

  lemma EmptyIsSound()
    ensures Sound(EMPTY)
  {
  }

  /**
   After any sequence of bundles: each host's recorded renames lead from its original name to its current one,
   step by step; at most one machine-id was ever recorded for it and no two hosts share one.
   */
  lemma IdentityIsHistorised(deliveries: seq<Delivery>, host: nat)
    requires host < |DeliverAll(EMPTY, deliveries).hosts|
    ensures var db := DeliverAll(EMPTY, deliveries);
            && Replays(History(db.changes, host, HostnameField), db.hosts[host].hostname)
            && |History(db.changes, host, MachineIdField)| <= 1
            && (forall other | 0 <= other < |db.hosts| && other != host && db.hosts[host].machineId != "" ::
                  db.hosts[other].machineId != db.hosts[host].machineId)
  {
    EmptyIsSound();
    DeliveriesKeepSound(EMPTY, deliveries);
    var db := DeliverAll(EMPTY, deliveries);
    assert HostSound(db.hosts[host], db.changes, host);
  }

  /** After any sequence of bundles, no collection has a second run. */
  lemma NoCollectionHasTwoRuns(deliveries: seq<Delivery>, r: nat, q: nat)
    requires r < q < |DeliverAll(EMPTY, deliveries).runs|
    ensures var runs := DeliverAll(EMPTY, deliveries).runs;
            !(runs[r].investigation == runs[q].investigation && runs[r].host == runs[q].host && runs[r].stamp == runs[q].stamp)
  {
    hide IngestBundle, IdentitySound, RollupsExact;
    EmptyIsSound();
    DeliveriesKeepSound(EMPTY, deliveries);
  }

  /** From the delivery that created a host, its original name and its machine-id, once set, never move. */
  lemma IdentityNeverRewritten(before: Db, d: Delivery, first: Ingested, later: seq<Delivery>, host: nat)
    requires Sound(before) && first == IngestBundle(before, d)
    requires host < |first.db.hosts|
    ensures var after := DeliverAll(first.db, later);
            && host < |after.hosts|
            && (first.db.hosts[host].machineId != "" ==> after.hosts[host].machineId == first.db.hosts[host].machineId)
            && (host >= |before.hosts| ==>
                  Original(after.changes, host, HostnameField, after.hosts[host].hostname) == d.bundle.host.hostname)
  {
    IngestCases(before, d);
    DeliveredKeepsSound(before, d, first);
    DeliveriesKeepSound(first.db, later);
  }

  /**
   Rollup counts and windows are those of the IOC rows, and so two histories that wrote the same IOC rows
   for a key, in whatever order, have the same count and the same window for it.
   */
  lemma RollupsIgnoreArrivalOrder(a: seq<Delivery>, b: seq<Delivery>, key: SightingKey)
    ensures RollupsExact(DeliverAll(EMPTY, a)) && RollupsExact(DeliverAll(EMPTY, b))
    ensures var x, y := DeliverAll(EMPTY, a), DeliverAll(EMPTY, b);
            multiset(Times(x.iocs, x.runs, key)) == multiset(Times(y.iocs, y.runs, key)) ==>
              && (key in x.sightings <==> key in y.sightings)
              && (key in x.sightings ==>
                    && x.sightings[key].count == y.sightings[key].count
                    && x.sightings[key].firstSeen == y.sightings[key].firstSeen
                    && x.sightings[key].lastSeen == y.sightings[key].lastSeen)
  {
    EmptyIsSound();
    DeliveriesKeepSound(EMPTY, a);
    DeliveriesKeepSound(EMPTY, b);
    var x, y := DeliverAll(EMPTY, a), DeliverAll(EMPTY, b);
    var s, t := Times(x.iocs, x.runs, key), Times(y.iocs, y.runs, key);
    if multiset(s) == multiset(t) {
      assert |s| == |multiset(s)| && |t| == |multiset(t)|;
      assert forall v :: v in s <==> v in multiset(s);
      assert forall v :: v in t <==> v in multiset(t);
    }
  }
}
