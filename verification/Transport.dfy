/**
 Evidence transport: endpoints upload to the receiver, which verifies and holds; the puller fetches each held
 bundle, the broker verifies it again and posts it, and only then is it dropped. Any side may crash or lose a
 message at any step.
 */
module Transport {
  import opened Common
  import Custody
  import Ingest

  const READ_CHUNK := 8 * 1024 * 1024

  /** What an archive unpacks to: the evidence folder, and the payload the broker builds from it. */
  datatype Archive = Archive(readable: bool, files: Custody.Files, manifest: Custody.Doc<Custody.Manifest>,
                             record: Custody.Doc<Custody.Record>, bundle: Ingest.Bundle)

  /** One request body: the length it declares, the bytes the client gets round to sending, what they unpack to. */
  datatype Upload = Upload(declared: int, body: Custody.Bytes, archive: Archive)

  datatype Held = Held(bytes: Custody.Bytes, declared: int, archive: Archive)

  datatype Config = Config(maxBytes: nat, headroom: nat, receiverKeys: Custody.Config, enclaveKeys: Custody.Config,
                           expectedToken: string, pullerToken: string)

  function Verdict(a: Archive, keys: Custody.Config): Custody.Outcome {
    Custody.Judge(a.files, a.manifest, a.record, keys)
  }

  predicate Accepts(a: Archive, keys: Custody.Config) {
    Verdict(a, keys).Verdict? && Verdict(a, keys).ok
  }

  /** An unset credential refuses everyone. */
  predicate Authorized(offered: string, cfg: Config) {
    cfg.expectedToken != "" && offered == cfg.expectedToken
  }

  datatype Refusal = BadLength | ExceedsLimit | NoSpace

  function CapacityRefusal(length: int, free: int, cfg: Config): Option<Refusal> {
    if length <= 0 then Some(BadLength)
    else if cfg.maxBytes != 0 && length > cfg.maxBytes then Some(ExceedsLimit)
    else if length + cfg.headroom > free then Some(NoSpace)
    else None
  }

  // ---- The receiver -----------------------------------------------------------------------------

  datatype Response = Taken(id: nat, verified: bool) | Refused(why: Refusal) | Incomplete | Unreadable
                    | Quarantined(reason: Custody.Reason) | NoResponse

  /** Copy exactly `length` bytes; a short body is never mistaken for a whole one. */
  method StreamToFile(body: Custody.Bytes, length: int) returns (complete: bool, file: Custody.Bytes)
    ensures complete <==> length <= |body| && length >= 0
    ensures length >= 0 ==> file == body[..Min(length, |body|)]
  {
    var remaining := length;
    file := [];
    while remaining > 0
      invariant |file| <= |body|
      invariant length >= 0 ==> remaining >= 0 && |file| == length - remaining
      invariant length < 0 ==> remaining == length
      invariant file == body[..|file|]
      decreases remaining
    {
      var n := Min(Min(READ_CHUNK, remaining), |body| - |file|);
      if n == 0 {
        break;
      }
      file := body[..|file| + n];
      remaining := remaining - n;
    }
    complete := remaining == 0;
  }

  datatype PostOutcome = PostOutcome(held: map<nat, Held>, nextId: nat, response: Response)

  /** What becomes of one upload, by the first thing wrong with it. */
  function Take(held: map<nat, Held>, nextId: nat, upload: Upload, free: int, cfg: Config): PostOutcome {
    var verdict := Verdict(upload.archive, cfg.receiverKeys);
    match CapacityRefusal(upload.declared, free, cfg)
    case Some(why) => PostOutcome(held, nextId, Refused(why))
    case None =>
      if |upload.body| < upload.declared then PostOutcome(held, nextId, Incomplete)
      else if !upload.archive.readable then PostOutcome(held, nextId, Unreadable)
      else if verdict.Raised? then PostOutcome(held, nextId, NoResponse)
      else if !verdict.ok then PostOutcome(held, nextId, Quarantined(verdict.reason))
      else
        PostOutcome(held[nextId := Held(upload.body[..upload.declared], upload.declared, upload.archive)], nextId + 1,
                    Taken(nextId, Custody.Attributable(verdict.reason)))
  }

  class Receiver {
    var held: map<nat, Held>
    var quarantined: nat
    var nextId: nat
    const cfg: Config

    ghost predicate Valid() reads this {
      forall id | id in held :: id < nextId
    }

    constructor (cfg: Config)
      ensures Valid() && held == map[] && quarantined == 0 && this.cfg == cfg
    {
      this.cfg, held, quarantined, nextId := cfg, map[], 0, 0;
    }

    /** Take an upload. A bundle is held exactly when it is answered with an id: complete, readable and accepted. */
    method Post(upload: Upload, free: int) returns (response: Response)
      requires Valid()
      modifies this
      ensures Valid()
      ensures response.Taken? <==>
                && upload.declared > 0
                && (cfg.maxBytes == 0 || upload.declared <= cfg.maxBytes)
                && upload.declared + cfg.headroom <= free
                && |upload.body| >= upload.declared
                && upload.archive.readable
                && var a := upload.archive;
                   var outcome := Custody.Judge(a.files, a.manifest, a.record, cfg.receiverKeys);
                   outcome.Verdict? && outcome.ok
      ensures response.Refused? <==>
                upload.declared <= 0 || (cfg.maxBytes != 0 && upload.declared > cfg.maxBytes)
                || upload.declared + cfg.headroom > free
      ensures response.Taken? ==>
                && response.id !in old(held)
                && held == old(held)[response.id := Held(upload.body[..upload.declared], upload.declared, upload.archive)]
                && var reason := Verdict(upload.archive, cfg.receiverKeys).reason;
                   response.verified <==> reason.Verified? || reason.SupersededKey?
      ensures !response.Taken? ==> held == old(held)
      ensures PostOutcome(held, nextId, response) == Take(old(held), old(nextId), upload, free, cfg)
      ensures quarantined == old(quarantined) + if response.Unreadable? || response.Quarantined? then 1 else 0
    {
      var refusal := CapacityRefusal(upload.declared, free, cfg);
      if refusal.Some? {
        return Refused(refusal.value);
      }
      var complete, file := StreamToFile(upload.body, upload.declared);
      if !complete {
        return Incomplete;
      }
      if !upload.archive.readable {
        quarantined := quarantined + 1;
        return Unreadable;
      }
      var outcome := Verdict(upload.archive, cfg.receiverKeys);
      if outcome.Raised? {
        return NoResponse;
      }
      if !outcome.ok {
        quarantined := quarantined + 1;
        return Quarantined(outcome.reason);
      }
      response := Taken(nextId, Custody.Attributable(outcome.reason));
      held := held[nextId := Held(file, upload.declared, upload.archive)];
      nextId := nextId + 1;
    }

    method Fetch(id: nat, token: string) returns (bundle: Option<Held>)
      ensures cfg.expectedToken == "" || token != cfg.expectedToken ==> bundle == None
      ensures cfg.expectedToken != "" && token == cfg.expectedToken ==>
                bundle == if id in held then Some(held[id]) else None
    {
      if !Authorized(token, cfg) || id !in held {
        return None;
      }
      return Some(held[id]);
    }

    method Delete(id: nat, token: string) returns (deleted: bool)
      requires Valid()
      modifies this`held
      ensures Valid()
      ensures cfg.expectedToken == "" || token != cfg.expectedToken ==> !deleted && held == old(held)
      ensures cfg.expectedToken != "" && token == cfg.expectedToken ==> deleted && held == old(held) - {id}
    {
      deleted := Authorized(token, cfg);
      if deleted {
        held := held - {id};
      }
    }
  }

  // ---- The puller -------------------------------------------------------------------------------

  datatype Drop = Dropped | DropReplyLost | DropLost

  /** How far one attempt gets before something outside fails, and what the database sees when it is posted. */
  datatype Fate = Fate(fetched: bool, imageStored: bool, now: int, tie: nat, replied: bool, drop: Drop)

  datatype Pulled = Pulled(held: map<nat, Held>, db: Ingest.Db, ok: bool)

  function DeliveryOf(h: Held, fate: Fate): Ingest.Delivery {
    Ingest.Delivery(h.archive.bundle, fate.now, fate.tie)
  }

  /** Fetch, verify again, post, drop: the outcome of one attempt at one bundle. */
  function Process(held: map<nat, Held>, db: Ingest.Db, id: nat, fate: Fate, cfg: Config): Pulled {
    if !Authorized(cfg.pullerToken, cfg) || id !in held || !fate.fetched then Pulled(held, db, false)
    else if !Accepts(held[id].archive, cfg.enclaveKeys) || !fate.imageStored then Pulled(held, db, false)
    else
      var db' := Ingest.IngestBundle(db, DeliveryOf(held[id], fate)).db;
      if !fate.replied || fate.drop == DropLost then Pulled(held, db', false)
      else Pulled(held - {id}, db', fate.drop == Dropped)
  }

  datatype Polled = Polled(held: map<nat, Held>, db: Ingest.Db, ok: nat)

  /** One poll works through the ids pending when it started, each with its own fate. */
  function PollAll(held: map<nat, Held>, db: Ingest.Db, pending: seq<nat>, fates: seq<Fate>, cfg: Config): (p: Polled)
    requires |fates| == |pending|
    ensures p.ok <= |pending|
    decreases |pending|
  {
    if pending == [] then Polled(held, db, 0)
    else
      var n := |pending| - 1;
      var before := PollAll(held, db, pending[..n], fates[..n], cfg);
      var last := Process(before.held, before.db, pending[n], fates[n], cfg);
      Polled(last.held, last.db, before.ok + if last.ok then 1 else 0)
  }

  datatype Exit = Done | QuarantinedExit | Crashed

  class Puller {
    const receiver: Receiver
    const store: Ingest.Store

    constructor (receiver: Receiver, store: Ingest.Store)
      ensures this.receiver == receiver && this.store == store
    {
      this.receiver, this.store := receiver, store;
    }

    /** The broker: custody first, then the image, then the post; anything else leaves the platform untouched. */
    method Broker(h: Held, fate: Fate) returns (exit: Exit)
      modifies store
      ensures var outcome := Custody.Judge(h.archive.files, h.archive.manifest, h.archive.record, receiver.cfg.enclaveKeys);
              && (exit == Done <==> outcome.Verdict? && outcome.ok && fate.imageStored && fate.replied)
              && (exit == QuarantinedExit <==> outcome.Verdict? && !outcome.ok)
              && store.Tables() ==
                   if outcome.Verdict? && outcome.ok && fate.imageStored
                   then Ingest.IngestBundle(old(store.Tables()), Ingest.Delivery(h.archive.bundle, fate.now, fate.tie)).db
                   else old(store.Tables())
    {
      var outcome := Verdict(h.archive, receiver.cfg.enclaveKeys);
      if outcome.Raised? {
        return Crashed;
      }
      if !outcome.ok {
        return QuarantinedExit;
      }
      if !fate.imageStored {
        return Crashed;
      }
      var _, _ := store.Ingest(DeliveryOf(h, fate));
      return if fate.replied then Done else Crashed;
    }

    method ProcessOne(id: nat, fate: Fate) returns (ok: bool)
      requires receiver.Valid()
      modifies receiver`held, store
      ensures receiver.Valid()
      ensures Pulled(receiver.held, store.Tables(), ok) ==
                Process(old(receiver.held), old(store.Tables()), id, fate, receiver.cfg)
    {
      var fetched := receiver.Fetch(id, receiver.cfg.pullerToken);
      if fetched.None? || !fate.fetched {
        return false;
      }
      var exit := Broker(fetched.value, fate);
      if exit != Done || fate.drop == DropLost {
        return false;
      }
      var _ := receiver.Delete(id, receiver.cfg.pullerToken);
      return fate.drop == Dropped;
    }

    method PollOnce(pending: seq<nat>, fates: seq<Fate>) returns (ok: nat, total: nat)
      requires receiver.Valid() && |fates| == |pending|
      modifies receiver`held, store
      ensures receiver.Valid() && total == |pending|
      ensures Polled(receiver.held, store.Tables(), ok) ==
                PollAll(old(receiver.held), old(store.Tables()), pending, fates, receiver.cfg)
    {
      ok, total := 0, |pending|;
      for i := 0 to |pending|
        invariant receiver.Valid()
        invariant Polled(receiver.held, store.Tables(), ok) ==
                    PollAll(old(receiver.held), old(store.Tables()), pending[..i], fates[..i], receiver.cfg)
      {
        assert pending[..i + 1][..i] == pending[..i] && fates[..i + 1][..i] == fates[..i];
        var done := ProcessOne(pending[i], fates[i]);
        if done {
          ok := ok + 1;
        }
      }
      assert pending[..|pending|] == pending && fates[..|pending|] == fates;
    }
  }
}
