/**
 Every interleaving of endpoints, receiver, puller and other ingests, with crashes and lost messages at any
 step. A step that cannot happen leaves the world as it is.
 */
module TransportRuns {
  import opened Common
  import Custody
  import Ingest
  import IngestRuns
  import Redelivery
  import opened Transport

  /** A connection's progress: bytes arriving, or stored under an id and not answered yet. */
  datatype Connection = Arriving(upload: Upload, received: nat) | Accepted(id: nat)

  datatype Phase = Idle | Polling(pending: seq<nat>) | Fetched(id: nat, bundle: Held, rest: seq<nat>)
                 | Posted(id: nat, rest: seq<nat>)

  /**
   `stored` is every bundle ever moved into the holding area, by id; `held` the ids there now, and `answered` the
   ids a 202 went out for. `log` is every ingest applied so far, `filed` the place in it of each bundle's latest post.
   */
  datatype World = World(connections: map<nat, Connection>, stored: seq<Held>, held: set<nat>, answered: set<nat>,
                         phase: Phase, log: seq<Ingest.Delivery>, filed: map<nat, nat>)

  datatype Step =
    | Connect(c: nat, upload: Upload, free: int)
    | Receive(c: nat, bytes: nat)
    | HangUp(c: nat)
    | Settle(c: nat)
    | Answer(c: nat)
    | ReceiverCrash
    | Poll(order: seq<nat>)
    | Fetch
    | SkipOne
    | Post(now: int, tie: nat)
    | LoseReply
    | Drop(reached: bool)
    | PullerCrash
    | OtherIngest(delivery: Ingest.Delivery)
    | AskDelete(id: nat, token: string)

  const START := World(map[], [], {}, {}, Idle, [], map[])

  /** A whole upload is unpacked and verified: moved into the holding area under a new id, or dropped. */
  function SettleUpload(w: World, c: nat, cfg: Config): World
    requires c in w.connections && w.connections[c].Arriving?
  {
    var u := w.connections[c].upload;
    if w.connections[c].received != u.declared then w
    else if !u.archive.readable || !Accepts(u.archive, cfg.receiverKeys) || !(0 <= u.declared <= |u.body|) then
      w.(connections := w.connections - {c})
    else
      w.(connections := w.connections[c := Accepted(|w.stored|)],
         stored := w.stored + [Held(u.body[..u.declared], u.declared, u.archive)],
         held := w.held + {|w.stored|})
  }

  function Receiving(w: World, step: Step, cfg: Config): World {
    match step
    case Connect(c, upload, free) =>
      if c in w.connections || CapacityRefusal(upload.declared, free, cfg).Some? then w
      else w.(connections := w.connections[c := Arriving(upload, 0)])
    case Receive(c, bytes) =>
      if c in w.connections && w.connections[c].Arriving? && bytes <= READ_CHUNK then
        var u, received := w.connections[c].upload, w.connections[c].received + bytes;
        if received <= u.declared && received <= |u.body| then
          w.(connections := w.connections[c := Arriving(u, received)])
        else w
      else w
    case HangUp(c) => w.(connections := w.connections - {c})
    case Answer(c) =>
      if c in w.connections && w.connections[c].Accepted? then
        w.(connections := w.connections - {c}, answered := w.answered + {w.connections[c].id})
      else w
    case ReceiverCrash => w.(connections := map[])
    case _ => w
  }

  function Rest(phase: Phase): Phase {
    match phase
    case Idle => Idle
    case Polling(pending) => if pending == [] then Idle else Polling(pending[1..])
    case Fetched(_, _, rest) => Polling(rest)
    case Posted(_, rest) => Polling(rest)
  }

  function Pulling(w: World, step: Step, cfg: Config): World {
    match step
    case Poll(order) =>
      if w.phase == Idle && Authorized(cfg.pullerToken, cfg) && (set id | id in order) == w.held then
        w.(phase := Polling(order))
      else w
    case Fetch =>
      if w.phase.Polling? && w.phase.pending != [] && Authorized(cfg.pullerToken, cfg) then
        var id, rest := w.phase.pending[0], w.phase.pending[1..];
        w.(phase := if id in w.held && id < |w.stored| then Fetched(id, w.stored[id], rest) else Polling(rest))
      else w
    case SkipOne => w.(phase := Rest(w.phase))
    case Post(now, tie) =>
      if w.phase.Fetched? && Accepts(w.phase.bundle.archive, cfg.enclaveKeys) then
        w.(phase := Posted(w.phase.id, w.phase.rest),
           log := w.log + [Ingest.Delivery(w.phase.bundle.archive.bundle, now, tie)],
           filed := w.filed[w.phase.id := |w.log|])
      else w
    case LoseReply => if w.phase.Posted? then w.(phase := Polling(w.phase.rest)) else w
    case Drop(reached) =>
      if w.phase.Posted? then
        w.(phase := Polling(w.phase.rest),
           held := if reached && Authorized(cfg.pullerToken, cfg) then w.held - {w.phase.id} else w.held)
      else w
    case PullerCrash => w.(phase := Idle)
    case _ => w
  }

  function Next(w: World, step: Step, cfg: Config): World {
    match step
    case OtherIngest(delivery) => w.(log := w.log + [delivery])
    case Settle(c) => if c in w.connections && w.connections[c].Arriving? then SettleUpload(w, c, cfg) else w
    case AskDelete(id, token) => if Authorized(token, cfg) then w.(held := w.held - {id}) else w
    case _ =>
      if step.Poll? || step.Fetch? || step.SkipOne? || step.Post? || step.LoseReply? || step.Drop? || step.PullerCrash? then
        Pulling(w, step, cfg)
      else Receiving(w, step, cfg)
  }

  function Run(w: World, steps: seq<Step>, cfg: Config): World
    decreases |steps|
  {
    if steps == [] then w else Run(Next(w, steps[0], cfg), steps[1..], cfg)
  }

  /** Nobody but the puller holds the puller's credential. */
  ghost predicate OnlyPullerDeletes(steps: seq<Step>, cfg: Config) {
    forall s | s in steps && s.AskDelete? :: s.token != cfg.expectedToken || cfg.expectedToken == ""
  }

  // ---- What every run keeps ---------------------------------------------------------------------

  /** Complete, as long as it was declared to be, and passed by the receiver's own verification. */
  ghost predicate Verified(h: Held, cfg: Config) {
    && h.declared > 0 && |h.bytes| == h.declared
    && var outcome := Custody.Judge(h.archive.files, h.archive.manifest, h.archive.record, cfg.receiverKeys);
    && outcome.Verdict? && outcome.ok
  }

  /** The bundle was verified again inside and posted, as the ingest at its place in the log. */
  ghost predicate Filed(w: World, id: nat, cfg: Config) {
    && id < |w.stored| && id in w.filed && w.filed[id] < |w.log|
    && w.log[w.filed[id]].bundle == w.stored[id].archive.bundle
    && var a := w.stored[id].archive;
    && var outcome := Custody.Judge(a.files, a.manifest, a.record, cfg.enclaveKeys);
    && outcome.Verdict? && outcome.ok
  }

  ghost predicate ConnectionSound(w: World, c: Connection) {
    match c
    case Arriving(u, received) => u.declared > 0 && received <= u.declared && received <= |u.body|
    case Accepted(id) => id < |w.stored|
  }

  ghost predicate PhaseSound(w: World, cfg: Config) {
    match w.phase
    case Fetched(id, bundle, _) => id < |w.stored| && w.stored[id] == bundle
    case Posted(id, _) => Filed(w, id, cfg)
    case _ => true
  }

  ghost predicate Sound(w: World, cfg: Config) {
    && (forall c | c in w.connections :: ConnectionSound(w, w.connections[c]))
    && (forall id | 0 <= id < |w.stored| :: Verified(w.stored[id], cfg))
    && (forall id | id in w.held :: id < |w.stored|)
    && (forall id | id in w.answered :: id < |w.stored|)
    && (forall id | id in w.filed :: Filed(w, id, cfg))
    && (forall id | 0 <= id < |w.stored| && id !in w.held :: id in w.filed)
    && PhaseSound(w, cfg)
  }

  lemma SettleKeepsSound(w: World, c: nat, cfg: Config)
    requires Sound(w, cfg) && c in w.connections && w.connections[c].Arriving?
    ensures Sound(SettleUpload(w, c, cfg), cfg)
  {
    var u := w.connections[c].upload;
    assert ConnectionSound(w, w.connections[c]);
    var w' := SettleUpload(w, c, cfg);
    forall d | d in w'.connections ensures ConnectionSound(w', w'.connections[d]) {
      if d != c {
        assert ConnectionSound(w, w.connections[d]);
      }
    }
    forall id | id in w'.filed ensures Filed(w', id, cfg) {
      assert Filed(w, id, cfg);
    }
  }

  /** Connections may come and go, and stored ids be answered, without touching anything else. */
  lemma ConnectionsKeepSound(w: World, connections: map<nat, Connection>, answered: set<nat>, cfg: Config)
    requires Sound(w, cfg)
    requires forall c | c in connections :: ConnectionSound(w, connections[c])
    requires forall id | id in answered :: id < |w.stored|
    ensures Sound(w.(connections := connections, answered := answered), cfg)
  {
    var w' := w.(connections := connections, answered := answered);
    forall c | c in connections ensures ConnectionSound(w', connections[c]) {
      assert ConnectionSound(w, connections[c]);
    }
    forall id | id in w'.filed ensures Filed(w', id, cfg) {
      assert Filed(w, id, cfg);
    }
  }

  lemma ReceivingKeepsSound(w: World, step: Step, cfg: Config)
    requires Sound(w, cfg)
    ensures Sound(Receiving(w, step, cfg), cfg)
  {
    var w' := Receiving(w, step, cfg);
    match step
    case Connect(c, upload, free) => ConnectionsKeepSound(w, w'.connections, w'.answered, cfg);
    case Receive(c, bytes) => ConnectionsKeepSound(w, w'.connections, w'.answered, cfg);
    case HangUp(c) => ConnectionsKeepSound(w, w'.connections, w'.answered, cfg);
    case Answer(c) =>
      if c in w.connections {
        assert ConnectionSound(w, w.connections[c]);
      }
      ConnectionsKeepSound(w, w'.connections, w'.answered, cfg);
    case ReceiverCrash => ConnectionsKeepSound(w, w'.connections, w'.answered, cfg);
    case _ =>
  }

  lemma PostKeepsSound(w: World, now: int, tie: nat, cfg: Config)
    requires Sound(w, cfg)
    ensures Sound(Pulling(w, Post(now, tie), cfg), cfg)
  {
    hide Custody.Judge, Verified, ConnectionSound;
    var w' := Pulling(w, Post(now, tie), cfg);
    forall c | c in w'.connections ensures ConnectionSound(w', w'.connections[c]) {
      StoredIsEnough(w, w', c);
    }
    forall id | id in w'.filed ensures Filed(w', id, cfg) {
      if id in w.filed {
        assert Filed(w, id, cfg);
      }
    }
  }

  lemma StoredIsEnough(w: World, w': World, c: nat)
    requires w'.stored == w.stored && w'.connections == w.connections && c in w.connections
    requires ConnectionSound(w, w.connections[c])
    ensures ConnectionSound(w', w'.connections[c])
  {
  }

  /** The puller may move on, and drop what is filed, without touching anything else. */
  lemma PhaseKeepsSound(w: World, w': World, cfg: Config)
    requires Sound(w, cfg) && w' == w.(phase := w'.phase, held := w'.held) && w'.held <= w.held
    requires forall id | id in w.held && id !in w'.held :: id in w.filed
    requires w'.phase.Fetched? ==> w'.phase.id < |w.stored| && w.stored[w'.phase.id] == w'.phase.bundle
    requires w'.phase.Posted? ==> w'.phase == w.phase
    ensures Sound(w', cfg)
  {
    hide Custody.Judge, Verified, ConnectionSound;
    forall c | c in w'.connections ensures ConnectionSound(w', w'.connections[c]) {
      StoredIsEnough(w, w', c);
    }
    forall id | id in w'.filed ensures Filed(w', id, cfg) {
      assert Filed(w, id, cfg);
    }
  }

  lemma PostedIsFiled(w: World, cfg: Config)
    requires Sound(w, cfg)
    ensures w.phase.Posted? ==> w.phase.id in w.filed
  {
  }

  lemma PullingKeepsSound(w: World, step: Step, cfg: Config)
    requires Sound(w, cfg)
    ensures Sound(Pulling(w, step, cfg), cfg)
  {
    if step.Post? {
      PostKeepsSound(w, step.now, step.tie, cfg);
    } else {
      PostedIsFiled(w, cfg);
      hide Sound, Accepts, Authorized;
      PhaseKeepsSound(w, Pulling(w, step, cfg), cfg);
    }
  }

  lemma NextKeepsSound(w: World, step: Step, cfg: Config)
    requires Sound(w, cfg)
    requires step.AskDelete? ==> step.token != cfg.expectedToken || cfg.expectedToken == ""
    ensures Sound(Next(w, step, cfg), cfg)
  {
    if step.OtherIngest? {
      var w' := Next(w, step, cfg);
      forall id | id in w'.filed ensures Filed(w', id, cfg) {
        assert Filed(w, id, cfg);
      }
    } else if step.Settle? {
      if step.c in w.connections && w.connections[step.c].Arriving? {
        SettleKeepsSound(w, step.c, cfg);
      }
    } else if !step.AskDelete? {
      ReceivingKeepsSound(w, step, cfg);
      PullingKeepsSound(w, step, cfg);
    }
  }

  lemma {:induction false} RunKeepsSound(w: World, steps: seq<Step>, cfg: Config)
    requires Sound(w, cfg) && OnlyPullerDeletes(steps, cfg)
    ensures Sound(Run(w, steps, cfg), cfg)
    decreases |steps|
  {
    if steps != [] {
      NextKeepsSound(w, steps[0], cfg);
      RunKeepsSound(Next(w, steps[0], cfg), steps[1..], cfg);
    }
  }

  /** The platform's tables: every ingest of the log, one after another. */
  function Tables(log: seq<Ingest.Delivery>): Ingest.Db {
    Ingest.DeliverAll(Ingest.EMPTY, log)
  }

  lemma LogSplits(log: seq<Ingest.Delivery>, k: nat)
    requires k < |log|
    ensures Tables(log) == Ingest.DeliverAll(Ingest.IngestBundle(Tables(log[..k]), log[k]).db, log[k + 1..])
  {
    assert log == log[..k] + log[k..];
    Redelivery.DeliverAllConcat(Ingest.EMPTY, log[..k], log[k..]);
    assert log[k..][0] == log[k] && log[k..][1..] == log[k + 1..];
  }

  /** Place k of the log has a collection run: that of its bundle's case and stamp, on the host it resolved to. */
  lemma LoggedHasRun(log: seq<Ingest.Delivery>, k: nat, after: Ingest.Ingested)
    requires k < |log| && after == Ingest.IngestBundle(Tables(log[..k]), log[k])
    ensures IngestRuns.Sound(Tables(log[..k]))
    ensures IngestRuns.Delivered(Tables(log[..k]), log[k], after)
    ensures IngestRuns.Sound(Tables(log)) && IngestRuns.Grows(after.db, Tables(log))
  {
    IngestRuns.EmptyIsSound();
    IngestRuns.DeliveriesKeepSound(Ingest.EMPTY, log[..k]);
    IngestRuns.IngestCases(Tables(log[..k]), log[k]);
    IngestRuns.DeliveredKeepsSound(Tables(log[..k]), log[k], after);
    LogSplits(log, k);
    IngestRuns.DeliveriesKeepSound(after.db, log[k + 1..]);
  }

  /** A post, however it ends, applies one ingest to the platform. */
  lemma PostedTables(log: seq<Ingest.Delivery>, d: Ingest.Delivery)
    ensures Tables(log + [d]) == Ingest.IngestBundle(Tables(log), d).db
  {
    Redelivery.DeliverAllConcat(Ingest.EMPTY, log, [d]);
    var db := Tables(log);
    assert Ingest.DeliverAll(Ingest.IngestBundle(db, d).db, []) == Ingest.IngestBundle(db, d).db;
    assert [d][0] == d && [d][1..] == [];
  }

  /** Each of a bundle's findings and indicators has its row under the run, one after another in the bundle's order. */
  ghost predicate EvidenceFiled(db: Ingest.Db, r: nat, b: Ingest.Bundle) {
    && (exists start: nat, at :: Ingest.FindingsStand(db.findings, start, r, b.findings, at))
    && exists start: nat, indicators ::
         Ingest.IndicatorsStand(db.iocs, start, r, indicators) && Ingest.AreIndicatorsOf(indicators, b)
  }

  /** The run is the one of the bundle's case, of the host and of the stamp. */
  ghost predicate IsRunOf(db: Ingest.Db, r: nat, b: Ingest.Bundle, host: nat) {
    && r < |db.runs| && db.runs[r].stamp == b.stamp && db.runs[r].host == host < |db.hosts|
    && db.runs[r].investigation < |db.investigations|
    && Ingest.IsCaseOf(db.investigations[db.runs[r].investigation], b)
  }

  /** The host that place k of the log resolves to when its turn comes. */
  function HostOf(log: seq<Ingest.Delivery>, k: nat): nat
    requires k < |log|
  {
    var before, d := Tables(log[..k]), log[k];
    Ingest.Resolve(before.hosts, before.changes, d.bundle.host, d.bundle.collectedAt, d.bundle.stamp, d.tie).host
  }

  /** Place j of the log created the run: the one of its bundle's case, of the host it resolved to and of its stamp. */
  ghost predicate Created(log: seq<Ingest.Delivery>, j: nat, r: nat) {
    && j < |log|
    && var after := Ingest.IngestBundle(Tables(log[..j]), log[j]);
    && after.created && after.run == r
    && IsRunOf(Tables(log), r, log[j].bundle, HostOf(log, j))
  }

  lemma EvidenceStays(db: Ingest.Db, later: Ingest.Db, r: nat, b: Ingest.Bundle)
    requires EvidenceFiled(db, r, b) && IngestRuns.Grows(db, later)
    ensures EvidenceFiled(later, r, b)
  {
    hide Ingest.AreIndicatorsOf;
    var start: nat, at :| Ingest.FindingsStand(db.findings, start, r, b.findings, at);
    assert Ingest.FindingsStand(later.findings, start, r, b.findings, at);
    var from: nat, indicators :| Ingest.IndicatorsStand(db.iocs, from, r, indicators) && Ingest.AreIndicatorsOf(indicators, b);
    assert Ingest.IndicatorsStand(later.iocs, from, r, indicators);
  }

  /** A created run is its creator's, and holds its creator's evidence from then on. */
  lemma CreatorFiles(log: seq<Ingest.Delivery>, j: nat, after: Ingest.Ingested)
    requires j < |log| && after == Ingest.IngestBundle(Tables(log[..j]), log[j]) && after.created
    ensures Created(log, j, after.run) && EvidenceFiled(Tables(log), after.run, log[j].bundle)
  {
    LoggedHasRun(log, j, after);
    Ingest.IngestFiles(Tables(log[..j]), log[j], after);
    hide Ingest.IngestBundle, IngestRuns.Sound, Ingest.Resolve, Ingest.RollUp, Ingest.IndicatorsOf;
    hide Ingest.FindingsStand, Ingest.IndicatorsStand, Ingest.AreIndicatorsOf, Ingest.IsCaseOf;
    EvidenceStays(after.db, Tables(log), after.run, log[j].bundle);
  }

  /** A place of the log adds at most one run, the one it creates. */
  lemma OnlyRunAdded(log: seq<Ingest.Delivery>, n: nat, r: nat, after: Ingest.Ingested)
    requires n < |log| && after == Ingest.IngestBundle(Tables(log[..n]), log[n])
    requires |Tables(log[..n]).runs| <= r < |Tables(log[..n + 1]).runs|
    ensures after.created && after.run == r
  {
    hide Ingest.IngestBundle, Ingest.DeliverAll, Ingest.Resolve, Ingest.RollUp, Ingest.IndicatorsOf;
    hide IngestRuns.Sound, Tables;
    LoggedHasRun(log, n, after);
    assert log[..n + 1] == log[..n] + [log[n]];
    PostedTables(log[..n], log[n]);
  }

  lemma NoRunsAtFirst(log: seq<Ingest.Delivery>)
    ensures Tables(log[..0]).runs == []
  {
    assert log[..0] == [];
  }

  /** No run is created twice. */
  lemma CreatedOnce(log: seq<Ingest.Delivery>, i: nat, j: nat, r: nat)
    requires Created(log, i, r) && Created(log, j, r)
    ensures i == j
  {
    if i != j {
      var a, b := Min(i, j), Max(i, j);
      LaterRunIsAnother(log, a, b);
    }
  }

  lemma LaterRunIsAnother(log: seq<Ingest.Delivery>, i: nat, j: nat)
    requires i < j < |log|
    requires Ingest.IngestBundle(Tables(log[..i]), log[i]).created && Ingest.IngestBundle(Tables(log[..j]), log[j]).created
    ensures Ingest.IngestBundle(Tables(log[..i]), log[i]).run < Ingest.IngestBundle(Tables(log[..j]), log[j]).run
  {
    var first, second := Ingest.IngestBundle(Tables(log[..i]), log[i]), Ingest.IngestBundle(Tables(log[..j]), log[j]);
    hide Ingest.IngestBundle, Ingest.DeliverAll, Ingest.Resolve, Ingest.RollUp, Ingest.IndicatorsOf, IngestRuns.Sound;
    assert log[..j][..i] == log[..i];
    LoggedHasRun(log[..j], i, first);
    LoggedHasRun(log, j, second);
  }

  /** Every run goes back to the one place of the log that created it, and holds its evidence. */
  lemma {:induction false} RunWasCreated(log: seq<Ingest.Delivery>, n: nat, r: nat) returns (j: nat)
    requires n <= |log| && r < |Tables(log[..n]).runs|
    ensures j < n && Created(log, j, r) && EvidenceFiled(Tables(log), r, log[j].bundle)
    ensures forall i | 0 <= i < |log| && Created(log, i, r) :: i == j
    decreases n
  {
    NoRunsAtFirst(log);
    hide Ingest.IngestBundle, Ingest.DeliverAll, Created, EvidenceFiled, Tables;
    if r < |Tables(log[..n - 1]).runs| {
      j := RunWasCreated(log, n - 1, r);
    } else {
      j := n - 1;
      var after := Ingest.IngestBundle(Tables(log[..j]), log[j]);
      OnlyRunAdded(log, j, r, after);
      CreatorFiles(log, j, after);
      forall i | 0 <= i < |log| && Created(log, i, r) ensures i == j {
        CreatedOnce(log, i, j, r);
      }
    }
  }

  /** Before place k, the run was created by another bundle of the same case, host and stamp. */
  ghost predicate TakenByAnother(log: seq<Ingest.Delivery>, k: nat, r: nat) {
    exists j | 0 <= j < k < |log| :: Created(log, j, r) && log[j].bundle != log[k].bundle
  }

  /**
   Place k of the log has the run of its bundle's case, of the host it resolved to and of its stamp; and its evidence
   is filed under that run, unless it was another bundle that created it, for the same three.
   */
  lemma LoggedIsFiled(log: seq<Ingest.Delivery>, k: nat) returns (r: nat)
    requires k < |log|
    ensures IsRunOf(Tables(log), r, log[k].bundle, HostOf(log, k))
    ensures EvidenceFiled(Tables(log), r, log[k].bundle) || TakenByAnother(log, k, r)
  {
    var before := Tables(log[..k]);
    var after := Ingest.IngestBundle(before, log[k]);
    LoggedHasRun(log, k, after);
    hide Ingest.IngestBundle, Ingest.Resolve, Ingest.RollUp, Ingest.IndicatorsOf, IngestRuns.RollupsExact;
    r := after.run;
    if after.created {
      CreatorFiles(log, k, after);
    } else {
      var j := RunWasCreated(log, k, r);
    }
  }

  /**
   No loss: in every run in which only the puller can delete, a bundle answered 202 arrived whole and verified, and
   it is still held, or it was verified again inside and has the run of its case, of the host it resolved to and of its
   stamp, with its evidence filed under it unless another bundle had created that run.
   */
  lemma AnsweredIsHeldOrFiled(steps: seq<Step>, cfg: Config, id: nat)
    requires OnlyPullerDeletes(steps, cfg)
    requires id in Run(START, steps, cfg).answered
    ensures var w := Run(START, steps, cfg);
            && id < |w.stored| && Verified(w.stored[id], cfg)
            && var a := w.stored[id].archive;
            && a.manifest.Present? && Custody.Lists(a.manifest.value, a.files)
            && (id !in w.held ==> Filed(w, id, cfg))
    ensures var w := Run(START, steps, cfg);
            id !in w.held ==>
              exists r: nat ::
                && IsRunOf(Tables(w.log), r, w.stored[id].archive.bundle, HostOf(w.log, w.filed[id]))
                && (EvidenceFiled(Tables(w.log), r, w.stored[id].archive.bundle) || TakenByAnother(w.log, w.filed[id], r))
  {
    RunKeepsSound(START, steps, cfg);
    var w := Run(START, steps, cfg);
    var a := w.stored[id].archive;
    assert Verified(w.stored[id], cfg);
    Custody.JudgedByFiles(a.files, a.manifest, a.record, cfg.receiverKeys);
    hide Custody.Lists, Custody.Judge;
    if id !in w.held {
      var r := LoggedIsFiled(w.log, w.filed[id]);
    }
  }

  /**
   Nothing double: once a bundle is filed on a host row with its machine-id, posting it again (its reply lost, its
   drop lost, the puller restarted) adds no run, no finding, no indicator and no sighting.
   */
  lemma RetryFilesNothingTwice(steps: seq<Step>, cfg: Config, id: nat, again: Ingest.Delivery)
    requires OnlyPullerDeletes(steps, cfg)
    requires var w := Run(START, steps, cfg);
             && id in w.filed && id < |w.stored| && w.filed[id] < |w.log|
             && again.bundle == w.stored[id].archive.bundle
             && Redelivery.FiledOnItsMachine(
                  Ingest.IngestBundle(Tables(w.log[..w.filed[id]]), w.log[w.filed[id]]), again.bundle)
    ensures var db := Tables(Run(START, steps, cfg).log);
            var second := Ingest.IngestBundle(db, again);
            && !second.created
            && second.db.runs == db.runs && second.db.findings == db.findings
            && second.db.iocs == db.iocs && second.db.sightings == db.sightings
  {
    RunKeepsSound(START, steps, cfg);
    var w := Run(START, steps, cfg);
    var k := w.filed[id];
    assert Filed(w, id, cfg);
    var before := Tables(w.log[..k]);
    LoggedHasRun(w.log, k, Ingest.IngestBundle(before, w.log[k]));
    LogSplits(w.log, k);
    Redelivery.RedeliveryAddsNothing(before, w.log[k], Ingest.IngestBundle(before, w.log[k]), w.log[k + 1..], again);
  }

  lemma RunConcat(w: World, a: seq<Step>, b: seq<Step>, cfg: Config)
    ensures Run(w, a + b, cfg) == Run(Run(w, a, cfg), b, cfg)
    decreases |a|
  {
    if a == [] {
      assert a + b == b;
    } else {
      assert (a + b)[1..] == a[1..] + b;
      RunConcat(Next(w, a[0], cfg), a[1..], b, cfg);
    }
  }

  // ---- One upload, one delete is a run -------------------------------------------------------------

  lemma RunThree(w: World, a: Step, b: Step, c: Step, cfg: Config)
    ensures Run(w, [a], cfg) == Next(w, a, cfg)
    ensures Run(w, [a, b], cfg) == Next(Next(w, a, cfg), b, cfg)
    ensures Run(w, [a, b, c], cfg) == Next(Next(Next(w, a, cfg), b, cfg), c, cfg)
  {
    var w1 := Next(w, a, cfg);
    var w2 := Next(w1, b, cfg);
    var w3 := Next(w2, c, cfg);
    assert [a][1..] == [] && [a, b][1..] == [b] && [a, b, c][1..] == [b, c];
    assert [b][1..] == [] && [b, c][1..] == [c] && [c][1..] == [];
    assert Run(w1, [], cfg) == w1 && Run(w2, [], cfg) == w2 && Run(w3, [], cfg) == w3;
    assert Run(w1, [b], cfg) == w2 && Run(w2, [c], cfg) == w3;
    assert Run(w1, [b, c], cfg) == w3;
  }

  /** The holding area as the receiver serves it. */
  function Holding(w: World): map<nat, Held> {
    map id | id in w.held && id < |w.stored| :: w.stored[id]
  }

  /** The bytes of a body arriving chunk by chunk. */
  function Receives(c: nat, length: nat): seq<Step> {
    if length == 0 then [] else [Receive(c, Min(READ_CHUNK, length))] + Receives(c, length - Min(READ_CHUNK, length))
  }

  /** The steps one request takes. */
  function RequestSteps(c: nat, upload: Upload, free: int, cfg: Config): seq<Step> {
    [Connect(c, upload, free)] +
    if CapacityRefusal(upload.declared, free, cfg).Some? then [] else UploadSteps(c, upload, cfg)
  }

  /** And once its connection is open. */
  function UploadSteps(c: nat, upload: Upload, cfg: Config): seq<Step> {
    if |upload.body| < upload.declared then Receives(c, |upload.body|) + [HangUp(c)]
    else if upload.declared < 0 then []
    else
      Receives(c, upload.declared) +
      if upload.archive.readable && Accepts(upload.archive, cfg.receiverKeys) then [Settle(c), Answer(c)] else [Settle(c)]
  }

  lemma {:induction false} ReceivesAll(w: World, c: nat, upload: Upload, start: nat, length: nat, cfg: Config)
    requires c in w.connections && w.connections[c] == Arriving(upload, start)
    requires start + length <= upload.declared && start + length <= |upload.body|
    ensures Run(w, Receives(c, length), cfg) ==
              w.(connections := w.connections[c := Arriving(upload, start + length)])
    decreases length
  {
    if length == 0 {
      assert w.connections[c := Arriving(upload, start)] == w.connections;
    } else {
      var n := Min(READ_CHUNK, length);
      var w1 := Next(w, Receive(c, n), cfg);
      assert w1 == w.(connections := w.connections[c := Arriving(upload, start + n)]);
      assert Receives(c, length)[1..] == Receives(c, length - n);
      ReceivesAll(w1, c, upload, start + n, length - n, cfg);
      assert w1.connections[c := Arriving(upload, start + length)] == w.connections[c := Arriving(upload, start + length)];
    }
  }

  lemma SettledUpload(w: World, c: nat, upload: Upload, free: int, cfg: Config)
    requires c !in w.connections && 0 <= upload.declared <= |upload.body|
    requires CapacityRefusal(upload.declared, free, cfg) == None
    ensures var arrived := w.(connections := w.connections[c := Arriving(upload, upload.declared)]);
            var settled := Next(arrived, Settle(c), cfg);
            var after := if upload.archive.readable && Accepts(upload.archive, cfg.receiverKeys)
                         then Next(settled, Answer(c), cfg) else settled;
            var p := Take(Holding(w), |w.stored|, upload, free, cfg);
            && Holding(after) == p.held && |after.stored| == p.nextId && after.connections == w.connections
            && after.answered == w.answered + (if p.response.Taken? then {p.response.id} else {})
            && after.phase == w.phase && after.log == w.log && after.filed == w.filed
  {
    hide Pulling, Verdict;
    assert w.connections[c := Arriving(upload, upload.declared)] - {c} == w.connections;
  }

  /**
   One request to the receiver is a run of the state machine: the same bundles held under the same ids, answered
   exactly when it was taken, and nothing else touched.
   */
  lemma PostIsARun(w: World, c: nat, upload: Upload, free: int, cfg: Config)
    requires c !in w.connections
    ensures var after := Run(w, RequestSteps(c, upload, free, cfg), cfg);
            var p := Take(Holding(w), |w.stored|, upload, free, cfg);
            && Holding(after) == p.held && |after.stored| == p.nextId && after.connections == w.connections
            && after.answered == w.answered + (if p.response.Taken? then {p.response.id} else {})
            && after.phase == w.phase && after.log == w.log && after.filed == w.filed
  {
    RunThree(w, Connect(c, upload, free), SkipOne, SkipOne, cfg);
    var w1 := Next(w, Connect(c, upload, free), cfg);
    if CapacityRefusal(upload.declared, free, cfg) == None {
      assert w1 == w.(connections := w.connections[c := Arriving(upload, 0)]);
      RunConcat(w, [Connect(c, upload, free)], UploadSteps(c, upload, cfg), cfg);
      if |upload.body| < upload.declared {
        AbandonedUpload(w, w1, c, upload, cfg);
      } else {
        WholeUpload(w, w1, c, upload, free, cfg);
      }
    }
  }

  lemma AbandonedUpload(w: World, w1: World, c: nat, upload: Upload, cfg: Config)
    requires c !in w.connections && w1 == w.(connections := w.connections[c := Arriving(upload, 0)])
    requires |upload.body| < upload.declared
    ensures Run(w1, UploadSteps(c, upload, cfg), cfg) == w
  {
    ReceivesAll(w1, c, upload, 0, |upload.body|, cfg);
    var w2 := w1.(connections := w1.connections[c := Arriving(upload, |upload.body|)]);
    RunConcat(w1, Receives(c, |upload.body|), [HangUp(c)], cfg);
    RunThree(w2, HangUp(c), SkipOne, SkipOne, cfg);
    assert w2.connections - {c} == w.connections;
  }

  lemma WholeUpload(w: World, w1: World, c: nat, upload: Upload, free: int, cfg: Config)
    requires c !in w.connections && w1 == w.(connections := w.connections[c := Arriving(upload, 0)])
    requires CapacityRefusal(upload.declared, free, cfg) == None && upload.declared <= |upload.body|
    ensures var after := Run(w1, UploadSteps(c, upload, cfg), cfg);
            var p := Take(Holding(w), |w.stored|, upload, free, cfg);
            && Holding(after) == p.held && |after.stored| == p.nextId && after.connections == w.connections
            && after.answered == w.answered + (if p.response.Taken? then {p.response.id} else {})
            && after.phase == w.phase && after.log == w.log && after.filed == w.filed
  {
    var w2 := w.(connections := w.connections[c := Arriving(upload, upload.declared)]);
    WholeSteps(w, w1, w2, c, upload, cfg);
    SettledUpload(w, c, upload, free, cfg);
    hide Take, Next, Holding, Run;
  }

  lemma WholeSteps(w: World, w1: World, w2: World, c: nat, upload: Upload, cfg: Config)
    requires c !in w.connections && w1 == w.(connections := w.connections[c := Arriving(upload, 0)])
    requires 0 <= upload.declared <= |upload.body|
    requires w2 == w.(connections := w.connections[c := Arriving(upload, upload.declared)])
    ensures Run(w1, UploadSteps(c, upload, cfg), cfg) ==
              if upload.archive.readable && Accepts(upload.archive, cfg.receiverKeys)
              then Next(Next(w2, Settle(c), cfg), Answer(c), cfg) else Next(w2, Settle(c), cfg)
  {
    ReceivesAll(w1, c, upload, 0, upload.declared, cfg);
    assert w1.(connections := w1.connections[c := Arriving(upload, upload.declared)]) == w2;
    hide Next, Receives, Accepts;
    RunThree(w2, Settle(c), Answer(c), SkipOne, cfg);
    hide Run;
    RunConcat(w1, Receives(c, upload.declared), [Settle(c), Answer(c)], cfg);
    RunConcat(w1, Receives(c, upload.declared), [Settle(c)], cfg);
  }

  /** With the credential in other hands one delete loses any bundle that was taken and answered and not filed yet. */
  lemma LeakedCredentialLosesEvidence(upload: Upload, free: int, cfg: Config)
    requires Take(map[], 0, upload, free, cfg).response.Taken? && cfg.expectedToken != ""
    ensures var w := Run(START, RequestSteps(0, upload, free, cfg) + [AskDelete(0, cfg.expectedToken)], cfg);
            0 in w.answered && 0 !in w.held && 0 !in w.filed
  {
    hide UploadSteps, RequestSteps, Verdict, SettleUpload, Receiving, Pulling;
    var steps, delete := RequestSteps(0, upload, free, cfg), AskDelete(0, cfg.expectedToken);
    PostIsARun(START, 0, upload, free, cfg);
    assert Holding(START) == map[];
    var w := Run(START, steps, cfg);
    RunConcat(START, steps, [delete], cfg);
    RunThree(w, delete, delete, delete, cfg);
  }

  /** One delete is one step, whoever asks. */
  lemma DeleteIsAStep(w: World, id: nat, token: string, cfg: Config)
    ensures Holding(Next(w, AskDelete(id, token), cfg)) ==
              if cfg.expectedToken != "" && token == cfg.expectedToken then Holding(w) - {id} else Holding(w)
  {
  }

  // ---- One attempt of the puller is a run ---------------------------------------------------------

  /** The steps one attempt takes, once its bundle is next. */
  function StepsOf(held: map<nat, Held>, id: nat, fate: Fate, cfg: Config): seq<Step> {
    if !Authorized(cfg.pullerToken, cfg) || id !in held || !fate.fetched then [SkipOne]
    else if !Accepts(held[id].archive, cfg.enclaveKeys) || !fate.imageStored then [Fetch, SkipOne]
    else if !fate.replied then [Fetch, Post(fate.now, fate.tie), LoseReply]
    else [Fetch, Post(fate.now, fate.tie), Drop(fate.drop != DropLost)]
  }

  /** What an attempt leaves of the world: the ids held, the log and the bundles still pending. */
  ghost predicate Leaves(w: World, w': World, held: set<nat>, log: seq<Ingest.Delivery>) {
    && w'.held == held && w'.log == log
    && w.phase.Polling? && w.phase.pending != [] && w'.phase == Polling(w.phase.pending[1..])
    && w'.answered == w.answered && w'.stored == w.stored
  }

  lemma PostedAttempt(w: World, id: nat, fate: Fate, cfg: Config, last: Step)
    requires w.phase.Polling? && w.phase.pending != [] && w.phase.pending[0] == id
    requires Authorized(cfg.pullerToken, cfg) && id in w.held && id < |w.stored|
    requires Accepts(w.stored[id].archive, cfg.enclaveKeys)
    requires last == LoseReply || last.Drop?
    ensures Leaves(w, Run(w, [Fetch, Post(fate.now, fate.tie), last], cfg),
                   if last.Drop? && last.reached then w.held - {id} else w.held,
                   w.log + [DeliveryOf(w.stored[id], fate)])
  {
    RunThree(w, Fetch, Post(fate.now, fate.tie), last, cfg);
    var w1 := Next(w, Fetch, cfg);
    assert w1 == w.(phase := Fetched(id, w.stored[id], w.phase.pending[1..]));
    var w2 := Next(w1, Post(fate.now, fate.tie), cfg);
    assert w2.phase == Posted(id, w.phase.pending[1..]);
  }

  lemma UnpostedAttempt(w: World, cfg: Config)
    requires w.phase.Polling? && w.phase.pending != []
    ensures Leaves(w, Run(w, [SkipOne], cfg), w.held, w.log)
    ensures Authorized(cfg.pullerToken, cfg) && w.phase.pending[0] in w.held && w.phase.pending[0] < |w.stored| ==>
              Leaves(w, Run(w, [Fetch, SkipOne], cfg), w.held, w.log)
  {
    RunThree(w, SkipOne, SkipOne, SkipOne, cfg);
    RunThree(w, Fetch, SkipOne, SkipOne, cfg);
  }

  /** Processing one bundle does to the holding area and the platform what its steps do to the world. */
  lemma ProcessIsARun(w: World, id: nat, fate: Fate, cfg: Config, w': World)
    requires w.phase.Polling? && w.phase.pending != [] && w.phase.pending[0] == id
    requires w' == Run(w, StepsOf(Holding(w), id, fate, cfg), cfg)
    ensures Holding(w') == Process(Holding(w), Tables(w.log), id, fate, cfg).held
    ensures Tables(w'.log) == Process(Holding(w), Tables(w.log), id, fate, cfg).db
    ensures w'.phase == Polling(w.phase.pending[1..]) && w'.answered == w.answered && w'.stored == w.stored
  {
    hide Ingest.IngestBundle;
    hide Next;
    UnpostedAttempt(w, cfg);
    if Authorized(cfg.pullerToken, cfg) && id in Holding(w) && fate.fetched
       && Accepts(w.stored[id].archive, cfg.enclaveKeys) && fate.imageStored {
      PostedTables(w.log, DeliveryOf(w.stored[id], fate));
      PostedAttempt(w, id, fate, cfg, LoseReply);
      PostedAttempt(w, id, fate, cfg, Drop(fate.drop != DropLost));
    }
  }

  /** The puller's loop over the first n pending bundles is a run in which nobody else deletes. */
  lemma {:induction false} PollIsARun(w: World, pending: seq<nat>, fates: seq<Fate>, n: nat, cfg: Config)
    returns (steps: seq<Step>)
    requires w.phase == Polling(pending) && |fates| == |pending| && n <= |pending|
    ensures OnlyPullerDeletes(steps, cfg)
    ensures var w' := Run(w, steps, cfg);
            var p := PollAll(Holding(w), Tables(w.log), pending[..n], fates[..n], cfg);
            && Holding(w') == p.held && Tables(w'.log) == p.db
            && w'.phase == Polling(pending[n..]) && w'.answered == w.answered && w'.stored == w.stored
  {
    hide Ingest.IngestBundle;
    hide Next;
    if n == 0 {
      steps := [];
    } else {
      var before := PollIsARun(w, pending, fates, n - 1, cfg);
      var w1 := Run(w, before, cfg);
      var attempt := StepsOf(Holding(w1), pending[n - 1], fates[n - 1], cfg);
      assert pending[..n][..n - 1] == pending[..n - 1] && fates[..n][..n - 1] == fates[..n - 1];
      assert pending[n - 1..][1..] == pending[n..];
      ProcessIsARun(w1, pending[n - 1], fates[n - 1], cfg, Run(w1, attempt, cfg));
      RunConcat(w, before, attempt, cfg);
      steps := before + attempt;
    }
  }

  /** With the credential an idle puller takes up the ids the receiver lists. */
  lemma PollStarts(w: World, order: seq<nat>, cfg: Config)
    requires w.phase == Idle && cfg.expectedToken != "" && cfg.pullerToken == cfg.expectedToken
    requires (set id | id in order) == w.held
    ensures Run(w, [Poll(order)], cfg) == w.(phase := Polling(order))
    ensures Holding(w.(phase := Polling(order))) == Holding(w)
  {
    RunThree(w, Poll(order), SkipOne, SkipOne, cfg);
  }

  lemma PollEnds(w: World, cfg: Config)
    requires w.phase == Polling([])
    ensures Run(w, [SkipOne], cfg) == w.(phase := Idle) && Holding(w.(phase := Idle)) == Holding(w)
  {
    RunThree(w, SkipOne, SkipOne, SkipOne, cfg);
  }

  /**
   A whole poll from an idle puller, whatever order the receiver lists what it holds in: a run in which nobody else
   deletes, with the effect of working through that list; afterwards the puller is idle again.
   */
  lemma WholePollIsARun(w: World, order: seq<nat>, fates: seq<Fate>, cfg: Config) returns (steps: seq<Step>)
    requires w.phase == Idle && cfg.expectedToken != "" && cfg.pullerToken == cfg.expectedToken
    requires (set id | id in order) == w.held && |fates| == |order|
    ensures OnlyPullerDeletes(steps, cfg)
    ensures var w' := Run(w, steps, cfg);
            var p := PollAll(Holding(w), Tables(w.log), order, fates, cfg);
            && Holding(w') == p.held && Tables(w'.log) == p.db
            && w'.phase == Idle && w'.answered == w.answered && w'.stored == w.stored
  {
    hide Next, Run, PollAll, Holding, Tables;
    var w1 := w.(phase := Polling(order));
    PollStarts(w, order, cfg);
    var work := PollIsARun(w1, order, fates, |order|, cfg);
    assert order[..|order|] == order && fates[..|order|] == fates && order[|order|..] == [];
    var w2 := Run(w1, work, cfg);
    PollEnds(w2, cfg);
    steps := [Poll(order)] + work + [SkipOne];
    RunConcat(w, [Poll(order)], work, cfg);
    RunConcat(w, [Poll(order)] + work, [SkipOne], cfg);
  }

  /**
   A crash forgets what was in progress and nothing else: the receiver's connections, the puller's place in its poll.
   Another collector's ingest reaches the tables and nothing else.
   */
  lemma CrashesForgetOnlyProgress(w: World, delivery: Ingest.Delivery, cfg: Config)
    ensures Next(w, ReceiverCrash, cfg) == w.(connections := map[])
    ensures Next(w, PullerCrash, cfg) == w.(phase := Idle)
    ensures var after := Next(w, OtherIngest(delivery), cfg);
            && after == w.(log := after.log)
            && Tables(after.log) == Ingest.IngestBundle(Tables(w.log), delivery).db
  {
    hide Ingest.IngestBundle, Tables;
    PostedTables(w.log, delivery);
  }

  /** An attempt that reports success accepted the bundle again and dropped it; no attempt adds or alters what is held. */
  lemma AttemptOnlyRemoves(held: map<nat, Held>, db: Ingest.Db, id: nat, fate: Fate, cfg: Config, p: Pulled)
    requires p == Process(held, db, id, fate, cfg)
    ensures p.ok ==> id in held && Accepts(held[id].archive, cfg.enclaveKeys) && id !in p.held
    ensures forall other | other in p.held :: other in held && p.held[other] == held[other]
  {
  }

  lemma {:induction false} PollOnlyRemoves(held: map<nat, Held>, db: Ingest.Db, pending: seq<nat>, fates: seq<Fate>,
                                           cfg: Config)
    requires |fates| == |pending|
    ensures var after := PollAll(held, db, pending, fates, cfg).held;
            forall id | id in after :: id in held && after[id] == held[id]
    decreases |pending|
  {
    if pending != [] {
      var n := |pending| - 1;
      PollOnlyRemoves(held, db, pending[..n], fates[..n], cfg);
    }
  }

  /** A poll of several bundles is a poll of all but the last and then one attempt at the last. */
  lemma LastAttempt(held: map<nat, Held>, db: Ingest.Db, pending: seq<nat>, fates: seq<Fate>, cfg: Config)
    returns (before: Polled, last: Pulled)
    requires |fates| == |pending| > 0
    ensures var n := |pending| - 1;
            && before == PollAll(held, db, pending[..n], fates[..n], cfg)
            && last == Process(before.held, before.db, pending[n], fates[n], cfg)
            && PollAll(held, db, pending, fates, cfg) == Polled(last.held, last.db, before.ok + if last.ok then 1 else 0)
  {
    var n := |pending| - 1;
    before := PollAll(held, db, pending[..n], fates[..n], cfg);
    last := Process(before.held, before.db, pending[n], fates[n], cfg);
  }

  /** A poll that reports every pending bundle done has had each one accepted again inside and has emptied their places. */
  lemma {:induction false} CleanPollEmptiesPending(held: map<nat, Held>, db: Ingest.Db, pending: seq<nat>,
                                                   fates: seq<Fate>, cfg: Config, p: Polled)
    requires |fates| == |pending| && p == PollAll(held, db, pending, fates, cfg)
    requires p.ok == |pending|
    ensures forall id | id in pending :: id in held && Accepts(held[id].archive, cfg.enclaveKeys) && id !in p.held
    decreases |pending|
  {
    hide PollAll, Process, Accepts;
    if pending != [] {
      var n := |pending| - 1;
      var before, last := LastAttempt(held, db, pending, fates, cfg);
      AttemptOnlyRemoves(before.held, before.db, pending[n], fates[n], cfg, last);
      PollOnlyRemoves(held, db, pending[..n], fates[..n], cfg);
      CleanPollEmptiesPending(held, db, pending[..n], fates[..n], cfg, before);
      assert pending == pending[..n] + [pending[n]];
    }
  }
}
