/**
 Acknowledged gaps of the audit ledger: an operator signs each break the walk finds, and the verifier then
 resumes behind it.
 */
module AcknowledgedGaps {
  import opened Common
  import opened Ledger
  import opened Numerals

  /** A break as the walk sees it: the hashes on both sides of the gap. */
  datatype Break = Break(id: nat, observed: Hash, declared: Hash)

  function BreakAt(rows: seq<Row>, i: nat): Break
    requires i < |rows|
  {
    Break(rows[i].id, PrevOf(rows, i), rows[i].prevHash)
  }

  function Acknowledge(b: Break, reason: string, actor: string, key: string): Checkpoint {
    Checkpoint(b.observed, b.declared, reason, actor,
               CheckpointSignature(key, b.id, b.observed, b.declared, reason))
  }

  /** Every gap that some checkpoint already names is covered by it. */
  ghost predicate AcknowledgedInOrder(rows: seq<Row>, checkpoints: Checkpoints, key: string) {
    forall i | 0 <= i < |rows| && !Linked(rows, i) && rows[i].id in checkpoints ::
      Covered(rows, i, checkpoints, key)
  }

  /** The unacknowledged breaks among the first n rows, in id order. */
  function Breaks(rows: seq<Row>, n: nat, checkpoints: Checkpoints): (breaks: seq<Break>)
    requires n <= |rows|
  {
    if n == 0 then []
    else
      Breaks(rows, n - 1, checkpoints) +
      if !Linked(rows, n - 1) && rows[n - 1].id !in checkpoints then [BreakAt(rows, n - 1)] else []
  }

  lemma {:induction false} BreakListed(rows: seq<Row>, n: nat, checkpoints: Checkpoints, i: nat)
    requires i < n <= |rows| && !Linked(rows, i) && rows[i].id !in checkpoints
    ensures Break(rows[i].id, if i == 0 then Blank else rows[i - 1].entryHash, rows[i].prevHash)
              in Breaks(rows, n, checkpoints)
  {
    if i < n - 1 {
      BreakListed(rows, n - 1, checkpoints, i);
    }
  }

  lemma {:induction false} BreaksInIdOrder(rows: seq<Row>, n: nat, checkpoints: Checkpoints, k: nat)
    requires n <= |rows| && IdsAscend(rows) && k < |Breaks(rows, n, checkpoints)|
    ensures var breaks := Breaks(rows, n, checkpoints);
            && breaks[k].id !in checkpoints
            && (n < |rows| ==> breaks[k].id < rows[n].id)
            && (k + 1 < |breaks| ==> breaks[k].id < breaks[k + 1].id)
  {
    if k < |Breaks(rows, n - 1, checkpoints)| {
      BreaksInIdOrder(rows, n - 1, checkpoints, k);
    }
  }

  lemma {:induction false} BreakIdsAscend(rows: seq<Row>, checkpoints: Checkpoints, k: nat, l: nat)
    requires IdsAscend(rows) && k < l < |Breaks(rows, |rows|, checkpoints)|
    ensures Breaks(rows, |rows|, checkpoints)[k].id < Breaks(rows, |rows|, checkpoints)[l].id
    decreases l
  {
    BreaksInIdOrder(rows, |rows|, checkpoints, l - 1);
    if k < l - 1 {
      BreakIdsAscend(rows, checkpoints, k, l - 1);
    }
  }

  lemma NotYetRecorded(rows: seq<Row>, checkpoints: Checkpoints, breaks: seq<Break>, k: nat)
    requires IdsAscend(rows) && breaks == Breaks(rows, |rows|, checkpoints) && k < |breaks|
    ensures breaks[k].id !in checkpoints && forall d | d in breaks[..k] :: d.id != breaks[k].id
  {
    BreaksInIdOrder(rows, |rows|, checkpoints, k);
    forall d | d in breaks[..k] ensures d.id != breaks[k].id {
      var j :| 0 <= j < k && breaks[j] == d;
      BreakIdsAscend(rows, checkpoints, j, k);
    }
  }

  /** The walk carries on past a break, unlike the verifier. */
  method WalkBreaks(rows: seq<Row>, checkpoints: Checkpoints) returns (breaks: seq<Break>)
    ensures breaks == Breaks(rows, |rows|, checkpoints)
  {
    var prevHash := Blank;
    breaks := [];
    for n := 0 to |rows|
      invariant prevHash == PrevOf(rows, n)
      invariant breaks == Breaks(rows, n, checkpoints)
    {
      var row := rows[n];
      if (Digest(prevHash, row.payload) != row.entryHash || row.prevHash != prevHash) && row.id !in checkpoints {
        breaks := breaks + [Break(row.id, prevHash, row.prevHash)];
      }
      prevHash := row.entryHash;
    }
  }

  /** What the audit trail says of one acknowledgement. */
  function EntryFor(b: Break, reason: string, actor: string): (entry: Payload)
    ensures entry.AuditEntry?
  {
    AuditEntry(actor, "admin", "audit.checkpoint", "", "", "AuditLog", Decimal(b.id),
               GapDetails(reason, b.observed, b.declared))
  }

  /**
   Halfway through recording: old rows and old checkpoints untouched, exactly `done` acknowledged, and one linked
   row for each, in order.
   */
  ghost predicate Recording(was: seq<Row>, known: Checkpoints, rows: seq<Row>, checkpoints: Checkpoints,
                            done: seq<Break>, reason: string, actor: string, key: string)
  {
    && |rows| == |was| + |done| && rows[..|was|] == was
    && (forall k | 0 <= k < |done| :: rows[|was| + k].payload == EntryFor(done[k], reason, actor))
    && (forall i | |was| <= i < |rows| :: Linked(rows, i))
    && checkpoints.Keys == known.Keys + (set b | b in done :: b.id)
    && (forall id | id in known :: checkpoints[id] == known[id])
    && (forall b | b in done :: checkpoints[b.id] == Acknowledge(b, reason, actor, key))
  }

  /** One acknowledgement on its columns: the checkpoint that records the break, and the audit row that records it. */
  ghost predicate Acknowledges(cp: Checkpoint, entry: Payload, b: Break, reason: string, actor: string, key: string) {
    && cp.observed == b.observed && cp.declared == b.declared && cp.reason == reason && cp.recordedBy == actor
    && cp.signature == (if key == "" then NoTag else CheckpointTag(key, b.id, b.observed, b.declared, reason))
    && entry.AuditEntry? && entry.actor == actor && entry.role == "admin" && entry.action == "audit.checkpoint"
    && entry.httpMethod == "" && entry.path == "" && entry.objectType == "AuditLog" && entry.objectId == Decimal(b.id)
    && entry.detail.GapDetails? && entry.detail.reason == reason
    && entry.detail.observed == b.observed && entry.detail.declared == b.declared
  }

  lemma RecordedByColumns(was: seq<Row>, known: Checkpoints, rows: seq<Row>, checkpoints: Checkpoints,
                          done: seq<Break>, reason: string, actor: string, key: string)
    requires Recording(was, known, rows, checkpoints, done, reason, actor, key)
    ensures |rows| == |was| + |done|
    ensures forall k | 0 <= k < |done| ::
              done[k].id in checkpoints
              && Acknowledges(checkpoints[done[k].id], rows[|was| + k].payload, done[k], reason, actor, key)
  {
    forall k | 0 <= k < |done|
      ensures done[k].id in checkpoints
      ensures Acknowledges(checkpoints[done[k].id], rows[|was| + k].payload, done[k], reason, actor, key)
    {
      assert done[k] in done;
      assert checkpoints[done[k].id] == Acknowledge(done[k], reason, actor, key);
    }
  }

  lemma RecordingStarts(was: seq<Row>, known: Checkpoints, reason: string, actor: string, key: string)
    ensures Recording(was, known, was, known, [], reason, actor, key)
  {
  }

  lemma LinkedStays(rows: seq<Row>, n: nat, row: Row)
    requires forall i | n <= i < |rows| :: Linked(rows, i)
    requires Linked(rows + [row], |rows|)
    ensures forall i | n <= i < |rows + [row]| :: Linked(rows + [row], i)
  {
    var all := rows + [row];
    forall i | n <= i < |rows| ensures Linked(all, i) {
      assert Linked(rows, i);
    }
  }

  lemma EntriesStay(was: seq<Row>, rows: seq<Row>, done: seq<Break>, b: Break, row: Row, reason: string, actor: string)
    requires |rows| == |was| + |done| && rows[..|was|] == was && row.payload == EntryFor(b, reason, actor)
    requires forall k | 0 <= k < |done| :: rows[|was| + k].payload == EntryFor(done[k], reason, actor)
    ensures (rows + [row])[..|was|] == was
    ensures forall k | 0 <= k < |done + [b]| ::
              (rows + [row])[|was| + k].payload == EntryFor((done + [b])[k], reason, actor)
  {
  }

  lemma RecordingStep(was: seq<Row>, known: Checkpoints, rows: seq<Row>, checkpoints: Checkpoints,
                      done: seq<Break>, b: Break, row: Row, reason: string, actor: string, key: string)
    requires Recording(was, known, rows, checkpoints, done, reason, actor, key)
    requires Linked(rows + [row], |rows|) && row.payload == EntryFor(b, reason, actor)
    requires b.id !in known && forall d | d in done :: d.id != b.id
    ensures Recording(was, known, rows + [row], checkpoints[b.id := Acknowledge(b, reason, actor, key)],
                      done + [b], reason, actor, key)
  {
    hide EntryFor, Acknowledge, Linked;
    LinkedStays(rows, |was|, row);
    EntriesStay(was, rows, done, b, row, reason, actor);
    assert (set d | d in done + [b] :: d.id) == (set d | d in done :: d.id) + {b.id};
  }

  lemma RecordingCoversTheBreaks(was: seq<Row>, known: Checkpoints, rows: seq<Row>, checkpoints: Checkpoints,
                                 breaks: seq<Break>, reason: string, actor: string, key: string)
    requires breaks == Breaks(was, |was|, known)
    requires Recording(was, known, rows, checkpoints, breaks, reason, actor, key)
    ensures forall i | 0 <= i < |was| && !Linked(was, i) && was[i].id !in known :: Covered(rows, i, checkpoints, key)
  {
    forall i | 0 <= i < |was| && !Linked(was, i) && was[i].id !in known
      ensures Covered(rows, i, checkpoints, key)
    {
      BreakListed(was, |was|, known, i);
      assert BreakAt(was, i) in breaks;
      assert rows[i] == was[i] && PrevOf(rows, i) == PrevOf(was, i);
    }
  }

  lemma RecordingSettlesTheRest(was: seq<Row>, known: Checkpoints, rows: seq<Row>, checkpoints: Checkpoints,
                                breaks: seq<Break>, reason: string, actor: string, key: string)
    requires Recording(was, known, rows, checkpoints, breaks, reason, actor, key)
    requires forall i | 0 <= i < |was| && !Linked(was, i) && was[i].id !in known :: Covered(rows, i, checkpoints, key)
    ensures ChainOk(rows, checkpoints, key) <==> AcknowledgedInOrder(was, known, key)
  {
    assert forall i | 0 <= i < |was| :: rows[i] == was[i];
    if ChainOk(rows, checkpoints, key) {
      forall i | 0 <= i < |was| && !Linked(was, i) && was[i].id in known
        ensures Covered(was, i, known, key)
      {
        assert Accepted(rows, i, checkpoints, key);
      }
    }
    if AcknowledgedInOrder(was, known, key) {
      forall i | 0 <= i < |rows|
        ensures Accepted(rows, i, checkpoints, key)
      {
        if i < |was| && !Linked(was, i) && was[i].id in known {
          assert Covered(was, i, known, key);
        }
      }
    }
  }

  /**
   Acknowledge every break that no checkpoint names yet, and audit each acknowledgement; without a reason or an actor,
   refuse. Afterwards the ledger verifies exactly when the checkpoints it already had were in order.
   */
  method RecordAll(table: AuditTable, givenReason: string, givenActor: string) returns (refused: bool, recorded: nat)
    requires table.Valid()
    modifies table
    ensures table.Valid() && table.key == old(table.key)
    ensures refused <==> Strip(givenReason) == "" || Strip(givenActor) == ""
    ensures refused ==> unchanged(table)
    ensures !refused ==>
              var breaks := Breaks(old(table.rows), |old(table.rows)|, old(table.checkpoints));
              && recorded == |breaks|
              && Recording(old(table.rows), old(table.checkpoints), table.rows, table.checkpoints, breaks,
                           Strip(givenReason), Strip(givenActor), table.key)
              && |table.rows| == |old(table.rows)| + recorded
              && forall k | 0 <= k < recorded ::
                   breaks[k].id in table.checkpoints
                   && Acknowledges(table.checkpoints[breaks[k].id], table.rows[|old(table.rows)| + k].payload, breaks[k],
                                   Strip(givenReason), Strip(givenActor), table.key)
    ensures !refused ==>
              forall i | 0 <= i < |old(table.rows)| && !Linked(old(table.rows), i)
                         && old(table.rows)[i].id !in old(table.checkpoints) ::
                Covered(table.rows, i, table.checkpoints, table.key)
    ensures !refused ==>
              (ChainOk(table.rows, table.checkpoints, table.key) <==>
                 AcknowledgedInOrder(old(table.rows), old(table.checkpoints), table.key))
  {
    hide Covered, ChainOk, AcknowledgedInOrder, Breaks, EntryFor, Recording, Acknowledges;
    var reason, actor := Strip(givenReason), Strip(givenActor);
    refused, recorded := reason == "" || actor == "", 0;
    if refused {
      return;
    }
    var targets := WalkBreaks(table.rows, table.checkpoints);
    ghost var was, known := table.rows, table.checkpoints;
    RecordingStarts(was, known, reason, actor, table.key);
    while recorded < |targets|
      invariant 0 <= recorded <= |targets|
      invariant table.Valid() && table.key == old(table.key)
      invariant Recording(was, known, table.rows, table.checkpoints, targets[..recorded], reason, actor, table.key)
    {
      var b := targets[recorded];
      assert targets[..recorded + 1] == targets[..recorded] + [b];
      NotYetRecorded(was, known, targets, recorded);
      ghost var rowsBefore, before := table.rows, table.checkpoints;
      table.checkpoints := table.checkpoints[b.id := Acknowledge(b, reason, actor, table.key)];
      var entry := EntryFor(b, reason, actor);
      var row := table.Audit(entry.actor, entry.action, entry.role, entry.httpMethod, entry.path,
                             entry.objectType, entry.objectId, entry.detail);
      RecordingStep(was, known, rowsBefore, before, targets[..recorded], b, row, reason, actor, table.key);
      recorded := recorded + 1;
    }
    assert targets[..recorded] == targets;
    RecordedByColumns(was, known, table.rows, table.checkpoints, targets, reason, actor, table.key);
    RecordingCoversTheBreaks(was, known, table.rows, table.checkpoints, targets, reason, actor, table.key);
    RecordingSettlesTheRest(was, known, table.rows, table.checkpoints, targets, reason, actor, table.key);
  }

  /** Every gap was acknowledged by a checkpoint signed under the one key. */
  ghost predicate AcknowledgedUnder(rows: seq<Row>, checkpoints: Checkpoints, key: string) {
    && ChainOk(rows, checkpoints, key)
    && forall i | 0 <= i < |rows| && !Linked(rows, i) && rows[i].id in checkpoints ::
         var cp := checkpoints[rows[i].id];
         cp.signature == CheckpointSignature(key, rows[i].id, cp.observed, cp.declared, cp.reason)
  }

  /**
   A walk during which the key may change accepts a ledger acknowledged under one key exactly when, at every gap it
   comes to, the key in force is that one or none.
   */
  lemma AcknowledgedWalkIff(rows: seq<Row>, checkpoints: Checkpoints, key: string, keys: seq<string>)
    requires AcknowledgedUnder(rows, checkpoints, key) && |keys| == |rows|
    ensures AcceptedUpTo(rows, |rows|, checkpoints, keys) <==>
              forall i | 0 <= i < |rows| && !Linked(rows, i) :: keys[i] == "" || keys[i] == key
  {
    forall i | 0 <= i < |rows|
      ensures Accepted(rows, i, checkpoints, keys[i]) <==> Linked(rows, i) || keys[i] == "" || keys[i] == key
    {
      assert Accepted(rows, i, checkpoints, key);
    }
  }

  /**
   A ledger acknowledged under one key keeps its verdict under another exactly when the keys agree, or none is
   configured now, or there was no gap to acknowledge.
   */
  lemma RotationKeepsAcknowledgedChainIff(rows: seq<Row>, checkpoints: Checkpoints, key: string, newKey: string)
    requires AcknowledgedUnder(rows, checkpoints, key)
    ensures ChainOk(rows, checkpoints, newKey) <==> newKey == "" || newKey == key || Verifies(rows)
  {
    var keys := seq(|rows|, _ => newKey);
    AcknowledgedWalkIff(rows, checkpoints, key, keys);
    SteadyWalk(rows, checkpoints, newKey, keys);
  }

  /** A rotation alone turns this acknowledged ledger's verdict from good to broken. */
  lemma RotationCanVoidACheckpoint(payload: Payload)
    ensures var rows := [Row(1, payload, OtherText("lost"), Digest(OtherText("lost"), payload), NoTag, NoKeyId)];
            var cps: Checkpoints := map[1 := Acknowledge(BreakAt(rows, 0), "restored", "admin", "old")];
            ChainOk(rows, cps, "old") && !ChainOk(rows, cps, "new")
  {
    var rows := [Row(1, payload, OtherText("lost"), Digest(OtherText("lost"), payload), NoTag, NoKeyId)];
    var cps: Checkpoints := map[1 := Acknowledge(BreakAt(rows, 0), "restored", "admin", "old")];
    assert Covered(rows, 0, cps, "old");
    assert !Accepted(rows, 0, cps, "new");
  }
}
