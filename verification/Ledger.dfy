/**
 The tamper-evident audit ledger: rows chained by hash, a verifier that walks them, signed
 checkpoints that acknowledge a gap, and signatures sorted by the key that made them.

 The hash is collision-free and the MAC ideal: both are free constructors, so a digest can be
 equal only to a digest of the same two inputs, and a tag only to a tag of the same key and message.
 */
module Ledger {
  import opened Common

  /** JSON details: those of an acknowledged gap by their fields, any other by their canonical text. */
  datatype Detail = Details(text: string) | GapDetails(reason: string, observed: Hash, declared: Hash)

  /** What is hashed into a row. */
  datatype Payload =
    | AuditEntry(actor: string, role: string, action: string, httpMethod: string, path: string,
                 objectType: string, objectId: string, detail: Detail)
    | CustodyEntry(event: string, facts: string)

  /** Contents of a hash column: empty, a digest, or any other text. */
  datatype Hash = Blank | Digest(prev: Hash, payload: Payload) | OtherText(text: string)

  /** Contents of a signature column. */
  datatype Tag =
    | NoTag
    | RowTag(key: string, hash: Hash)
    | CheckpointTag(key: string, at: nat, observed: Hash, declared: Hash, reason: string)
    | OtherTag(text: string)

  /** Contents of a key-identifier column: a digest of a key, never the key. */
  datatype KeyId = NoKeyId | IdOf(key: string) | OtherId(text: string)

  datatype Row = Row(id: nat, payload: Payload, prevHash: Hash, entryHash: Hash,
                     signature: Tag, sigKeyId: KeyId)

  datatype Checkpoint = Checkpoint(observed: Hash, declared: Hash, reason: string,
                                   recordedBy: string, signature: Tag)

  /** Checkpoints by the id of the row where the chain restarts. */
  type Checkpoints = map<nat, Checkpoint>

  function Sign(key: string, hash: Hash): Tag {
    if key == "" then NoTag else RowTag(key, hash)
  }

  function CheckpointSignature(key: string, at: nat, observed: Hash, declared: Hash, reason: string): Tag {
    if key == "" then NoTag else CheckpointTag(key, at, observed, declared, reason)
  }

  function KeyIdOf(key: string): KeyId {
    if key == "" then NoKeyId else IdOf(key)
  }

  /** The hash a row at position i has to chain to: that of the row before it. */
  function PrevOf(rows: seq<Row>, i: nat): Hash
    requires i <= |rows|
  {
    if i == 0 then Blank else rows[i - 1].entryHash
  }

  /** The key is read twice, for the signature and then for its identifier. */
  function MakeRow(id: nat, payload: Payload, prev: Hash, signedUnder: string, namedUnder: string): Row {
    var entry := Digest(prev, payload);
    Row(id, payload, prev, entry, Sign(signedUnder, entry), KeyIdOf(namedUnder))
  }

  /** Row i hashes to what it recorded and names its predecessor. */
  predicate Linked(rows: seq<Row>, i: nat)
    requires i < |rows|
  {
    && rows[i].entryHash == Digest(PrevOf(rows, i), rows[i].payload)
    && rows[i].prevHash == PrevOf(rows, i)
  }

  /** A checkpoint names exactly the gap at row i and is signed by the key in force, if there is one. */
  predicate Covered(rows: seq<Row>, i: nat, checkpoints: Checkpoints, key: string)
    requires i < |rows|
  {
    && rows[i].id in checkpoints
    && var cp := checkpoints[rows[i].id];
    && cp.observed == PrevOf(rows, i)
    && cp.declared == rows[i].prevHash
    && (key == "" || cp.signature == CheckpointSignature(key, rows[i].id, cp.observed, cp.declared, cp.reason))
  }

  predicate Accepted(rows: seq<Row>, i: nat, checkpoints: Checkpoints, key: string)
    requires i < |rows|
  {
    Linked(rows, i) || Covered(rows, i, checkpoints, key)
  }

  ghost predicate ChainOk(rows: seq<Row>, checkpoints: Checkpoints, key: string) {
    forall i | 0 <= i < |rows| :: Accepted(rows, i, checkpoints, key)
  }

  /** The checkpoint-free verdict. It mentions no key. */
  ghost predicate Verifies(rows: seq<Row>) {
    forall i | 0 <= i < |rows| :: Linked(rows, i)
  }

  ghost predicate IdsAscend(rows: seq<Row>) {
    forall i, j | 0 <= i < j < |rows| :: rows[i].id < rows[j].id
  }

  // ---- The verifier -----------------------------------------------------------------------

  datatype Standing = Gap | Discontinuity | Unsigned | Current | Invalid | Superseded

  /**
   What a single row counts as, read off its position, the key whose identifier the walk took at its start and
   the key in force when the walk comes to the row.
   */
  function StandingAt(rows: seq<Row>, i: nat, checkpoints: Checkpoints, current: string, key: string): Standing
    requires i < |rows|
  {
    var row := rows[i];
    if !Linked(rows, i) then
      if Covered(rows, i, checkpoints, key) then Discontinuity else Gap
    else if row.signature == NoTag then Unsigned
    else if row.sigKeyId == NoKeyId || row.sigKeyId != KeyIdOf(current) then Superseded
    else if row.signature == Sign(key, row.entryHash) then Current
    else Invalid
  }

  /** What it counts as where the key does not change during the walk. */
  function StandingOf(rows: seq<Row>, i: nat, checkpoints: Checkpoints, key: string): Standing
    requires i < |rows|
  {
    StandingAt(rows, i, checkpoints, key, key)
  }

  /** The ids of the first n rows that have the given standing, in order. */
  function IdsWith(rows: seq<Row>, n: nat, checkpoints: Checkpoints, current: string, keys: seq<string>, s: Standing)
    : (ids: seq<nat>)
    requires n <= |rows| == |keys|
  {
    if n == 0 then []
    else
      IdsWith(rows, n - 1, checkpoints, current, keys, s) +
      if StandingAt(rows, n - 1, checkpoints, current, keys[n - 1]) == s then [rows[n - 1].id] else []
  }

  datatype Acknowledged = Acknowledged(at: nat, reason: string, recordedBy: string)

  datatype Signatures = Signatures(current: nat, superseded: nat, unsigned: nat,
                                   invalid: seq<nat>, discontinuities: seq<Acknowledged>)

  function Counted(sigs: Signatures): nat {
    sigs.current + sigs.superseded + sigs.unsigned + |sigs.invalid| + |sigs.discontinuities|
  }

  /** The report over the first n rows agrees, standing by standing, with their positions. */
  ghost predicate Tallies(sigs: Signatures, rows: seq<Row>, n: nat, checkpoints: Checkpoints, current: string,
                          keys: seq<string>)
    requires n <= |rows| == |keys|
  {
    && sigs.current == |IdsWith(rows, n, checkpoints, current, keys, Current)|
    && sigs.superseded == |IdsWith(rows, n, checkpoints, current, keys, Superseded)|
    && sigs.unsigned == |IdsWith(rows, n, checkpoints, current, keys, Unsigned)|
    && sigs.invalid == IdsWith(rows, n, checkpoints, current, keys, Invalid)
    && var gaps := IdsWith(rows, n, checkpoints, current, keys, Discontinuity);
    && |sigs.discontinuities| == |gaps|
    && forall k | 0 <= k < |gaps| ::
         && var d := sigs.discontinuities[k];
         && d.at == gaps[k] && d.at in checkpoints
         && d.reason == checkpoints[d.at].reason
         && d.recordedBy == checkpoints[d.at].recordedBy
  }

  /** The report with one more row in it. */
  function Noting(sigs: Signatures, row: Row, checkpoints: Checkpoints, standing: Standing): Signatures
    requires standing == Discontinuity ==> row.id in checkpoints
  {
    match standing
    case Gap => sigs
    case Discontinuity =>
      var cp := checkpoints[row.id];
      sigs.(discontinuities := sigs.discontinuities + [Acknowledged(row.id, cp.reason, cp.recordedBy)])
    case Unsigned => sigs.(unsigned := sigs.unsigned + 1)
    case Current => sigs.(current := sigs.current + 1)
    case Invalid => sigs.(invalid := sigs.invalid + [row.id])
    case Superseded => sigs.(superseded := sigs.superseded + 1)
  }

  lemma TallyOneMore(sigs: Signatures, rows: seq<Row>, i: nat, checkpoints: Checkpoints, current: string, keys: seq<string>)
    requires i < |rows| == |keys| && Tallies(sigs, rows, i, checkpoints, current, keys)
    requires Accepted(rows, i, checkpoints, keys[i])
    ensures var more := Noting(sigs, rows[i], checkpoints, StandingAt(rows, i, checkpoints, current, keys[i]));
            Tallies(more, rows, i + 1, checkpoints, current, keys) && Counted(more) == Counted(sigs) + 1
  {
    hide Linked;
  }

  /** Every one of the first n rows is accepted under the key in force when the walk comes to it. */
  ghost predicate AcceptedUpTo(rows: seq<Row>, n: nat, checkpoints: Checkpoints, keys: seq<string>)
    requires n <= |rows| == |keys|
  {
    forall i | 0 <= i < n :: Accepted(rows, i, checkpoints, keys[i])
  }

  /** The key is the same whenever it is read. */
  ghost predicate Steady(keys: seq<string>, key: string) {
    forall i | 0 <= i < |keys| :: keys[i] == key
  }

  lemma TallyNone(rows: seq<Row>, checkpoints: Checkpoints, current: string, keys: seq<string>)
    requires |keys| == |rows|
    ensures var none := Signatures(0, 0, 0, [], []);
            Tallies(none, rows, 0, checkpoints, current, keys) && Counted(none) == 0
  {
  }

  /**
   What a walk asks of a row, on its columns alone: the hash over the hash before it and its payload, or a checkpoint
   that names exactly the two hashes at this place and, where there is a key, carries that key's tag over them.
   */
  ghost predicate InOrder(rows: seq<Row>, i: nat, checkpoints: Checkpoints, key: string)
    requires i < |rows|
  {
    var prev := if i == 0 then Blank else rows[i - 1].entryHash;
    || (rows[i].entryHash == Digest(prev, rows[i].payload) && rows[i].prevHash == prev)
    || (&& rows[i].id in checkpoints
        && var cp := checkpoints[rows[i].id];
        && cp.observed == prev && cp.declared == rows[i].prevHash
        && (key != "" ==> cp.signature == CheckpointTag(key, rows[i].id, prev, rows[i].prevHash, cp.reason)))
  }

  /** A row the walk does not refuse links, or its checkpoint matches the gap on both sides and in its tag. */
  lemma AcceptedByColumns(rows: seq<Row>, i: nat, checkpoints: Checkpoints, key: string)
    requires i < |rows|
    ensures Accepted(rows, i, checkpoints, key) <==> InOrder(rows, i, checkpoints, key)
    ensures var prev := if i == 0 then Blank else rows[i - 1].entryHash;
            var linked := rows[i].entryHash == Digest(prev, rows[i].payload) && rows[i].prevHash == prev;
            Accepted(rows, i, checkpoints, key) && !linked ==>
              && rows[i].id in checkpoints
              && var cp := checkpoints[rows[i].id];
              && cp.observed == prev && cp.declared == rows[i].prevHash
              && (key != "" ==> cp.signature == CheckpointTag(key, rows[i].id, prev, rows[i].prevHash, cp.reason))
  {
  }

  lemma WalkByColumns(rows: seq<Row>, checkpoints: Checkpoints, keys: seq<string>)
    requires |keys| == |rows|
    ensures AcceptedUpTo(rows, |rows|, checkpoints, keys) <==>
              forall i | 0 <= i < |rows| :: InOrder(rows, i, checkpoints, keys[i])
  {
    forall i | 0 <= i < |rows|
      ensures Accepted(rows, i, checkpoints, keys[i]) <==> InOrder(rows, i, checkpoints, keys[i])
    {
      AcceptedByColumns(rows, i, checkpoints, keys[i]);
    }
  }

  method GapIsCovered(rows: seq<Row>, i: nat, prevHash: Hash, checkpoints: Checkpoints, key: string)
    returns (covered: bool)
    requires i < |rows| && prevHash == PrevOf(rows, i)
    ensures covered == Covered(rows, i, checkpoints, key)
  {
    var row := rows[i];
    if row.id !in checkpoints {
      return false;
    }
    var cp := checkpoints[row.id];
    var expectedSig := CheckpointSignature(key, row.id, cp.observed, cp.declared, cp.reason);
    return cp.observed == prevHash && cp.declared == row.prevHash && (expectedSig == NoTag || expectedSig == cp.signature);
  }

  /** Count a linked row by its signature and the identifier of the key that is said to have made it. */
  method CountSignature(sigs: Signatures, rows: seq<Row>, i: nat, checkpoints: Checkpoints, ghost current: string,
                        currentId: KeyId, key: string)
    returns (more: Signatures)
    requires i < |rows| && Linked(rows, i) && currentId == KeyIdOf(current)
    ensures more == Noting(sigs, rows[i], checkpoints, StandingAt(rows, i, checkpoints, current, key))
  {
    var row := rows[i];
    if row.signature == NoTag {
      return sigs.(unsigned := sigs.unsigned + 1);
    }
    if row.sigKeyId != NoKeyId && row.sigKeyId == currentId {
      if Sign(key, row.entryHash) == row.signature {
        return sigs.(current := sigs.current + 1);
      }
      return sigs.(invalid := sigs.invalid + [row.id]);
    }
    return sigs.(superseded := sigs.superseded + 1);
  }

  lemma SteadyWalk(rows: seq<Row>, checkpoints: Checkpoints, key: string, keys: seq<string>)
    requires |keys| == |rows|
    ensures Steady(keys, key) ==> (AcceptedUpTo(rows, |rows|, checkpoints, keys) <==> ChainOk(rows, checkpoints, key))
  {
    if Steady(keys, key) {
      assert forall i | 0 <= i < |rows| :: Accepted(rows, i, checkpoints, keys[i]) == Accepted(rows, i, checkpoints, key);
    }
  }

  /**
   The walk. The key's identifier is taken once, from `current`, and the key itself is read again at each row:
   `keys[i]` is what a read at row i gives. The walk accepts exactly when every row is linked or covered, names the
   first row that is neither, and counts each row it passed exactly once.
   */
  method VerifyAuditDetail(rows: seq<Row>, checkpoints: Checkpoints, current: string, keys: seq<string>)
    returns (ok: bool, firstBroken: Option<nat>, sigs: Signatures)
    requires |keys| == |rows|
    ensures ok <==> AcceptedUpTo(rows, |rows|, checkpoints, keys)
    ensures ok <==> forall i | 0 <= i < |rows| :: InOrder(rows, i, checkpoints, keys[i])
    ensures Steady(keys, current) ==> (ok <==> ChainOk(rows, checkpoints, current))
    ensures ok <==> firstBroken == None
    ensures ok ==> Tallies(sigs, rows, |rows|, checkpoints, current, keys) && Counted(sigs) == |rows|
    ensures !ok ==> exists stop | 0 <= stop < |rows| ::
              && !Accepted(rows, stop, checkpoints, keys[stop])
              && AcceptedUpTo(rows, stop, checkpoints, keys)
              && firstBroken == Some(rows[stop].id)
              && Tallies(sigs, rows, stop, checkpoints, current, keys) && Counted(sigs) == stop
  {
    SteadyWalk(rows, checkpoints, current, keys);
    WalkByColumns(rows, checkpoints, keys);
    TallyNone(rows, checkpoints, current, keys);
    hide Tallies, Counted, ChainOk, Steady, CheckpointSignature, InOrder, Covered, Sign, KeyIdOf;
    var prevHash := Blank;
    sigs := Signatures(0, 0, 0, [], []);
    var currentId := KeyIdOf(current);
    var i := 0;
    while i < |rows|
      invariant 0 <= i <= |rows|
      invariant prevHash == PrevOf(rows, i)
      invariant AcceptedUpTo(rows, i, checkpoints, keys)
      invariant Tallies(sigs, rows, i, checkpoints, current, keys) && Counted(sigs) == i
    {
      ghost var before := sigs;
      var row := rows[i];
      var expected := Digest(prevHash, row.payload);
      if expected != row.entryHash || row.prevHash != prevHash {
        var covered := GapIsCovered(rows, i, prevHash, checkpoints, keys[i]);
        if covered {
          var cp := checkpoints[row.id];
          sigs := sigs.(discontinuities := sigs.discontinuities + [Acknowledged(row.id, cp.reason, cp.recordedBy)]);
          assert sigs == Noting(before, row, checkpoints, StandingAt(rows, i, checkpoints, current, keys[i]));
          TallyOneMore(before, rows, i, checkpoints, current, keys);
          prevHash := row.entryHash;
          i := i + 1;
          continue;
        }
        assert !Accepted(rows, i, checkpoints, keys[i]);
        return false, Some(row.id), sigs;
      }
      sigs := CountSignature(sigs, rows, i, checkpoints, current, currentId, keys[i]);
      TallyOneMore(before, rows, i, checkpoints, current, keys);
      prevHash := row.entryHash;
      i := i + 1;
    }
    return true, None, sigs;
  }

  /** What each standing says of a row's own columns, of the hash before it and of the two reads of the key. */
  lemma StandingByColumns(rows: seq<Row>, i: nat, checkpoints: Checkpoints, current: string, key: string)
    requires i < |rows|
    ensures var row, prev := rows[i], if i == 0 then Blank else rows[i - 1].entryHash;
            var linked := row.entryHash == Digest(prev, row.payload) && row.prevHash == prev;
            var named := current != "" && row.sigKeyId == IdOf(current);
            var standing := StandingAt(rows, i, checkpoints, current, key);
            && (standing in {Gap, Discontinuity} <==> !linked)
            && (standing == Discontinuity ==> row.id in checkpoints && checkpoints[row.id].observed == prev
                                              && checkpoints[row.id].declared == row.prevHash)
            && (standing == Unsigned <==> linked && row.signature == NoTag)
            && (standing == Superseded <==> linked && row.signature != NoTag && !named)
            && (standing == Current <==> linked && named && key != "" && row.signature == RowTag(key, row.entryHash))
            && (standing == Invalid <==>
                  linked && named && row.signature != NoTag && (key == "" || row.signature != RowTag(key, row.entryHash)))
  {
  }

  /**
   A checkpoint explains one gap only: take away rows right before an acknowledged gap, so that another hash comes
   before it, and the walk refuses the row behind the gap, under any keys, unless that row now links by itself.
   */
  lemma RemovalBeforeAGapIsRefused(rows: seq<Row>, k: nat, m: nat, checkpoints: Checkpoints, keys: seq<string>)
    requires k < m < |rows| && |keys| == |rows| - (m - k)
    requires rows[m].id in checkpoints && checkpoints[rows[m].id].observed == rows[m - 1].entryHash
    requires var before := if k == 0 then Blank else rows[k - 1].entryHash; before != rows[m - 1].entryHash
    ensures var before := if k == 0 then Blank else rows[k - 1].entryHash;
            var rest := rows[..k] + rows[m..];
            && (Accepted(rest, k, checkpoints, keys[k]) <==>
                  rows[m].entryHash == Digest(before, rows[m].payload) && rows[m].prevHash == before)
            && (AcceptedUpTo(rest, |rest|, checkpoints, keys) ==>
                  rows[m].entryHash == Digest(before, rows[m].payload) && rows[m].prevHash == before)
  {
    var rest := rows[..k] + rows[m..];
    assert rest[k] == rows[m];
    assert AcceptedUpTo(rest, |rest|, checkpoints, keys) ==> Accepted(rest, k, checkpoints, keys[k]);
  }

  /** Without checkpoints no key decides anything about the chain, not even one that changes from row to row. */
  lemma VerdictIgnoresKey(rows: seq<Row>, i: nat, key: string, keys: seq<string>)
    requires i < |rows| == |keys|
    ensures Accepted(rows, i, map[], key) <==> Linked(rows, i)
    ensures ChainOk(rows, map[], key) <==> Verifies(rows)
    ensures AcceptedUpTo(rows, |rows|, map[], keys) <==> Verifies(rows)
  {
    forall k | 0 <= k < |rows|
      ensures Accepted(rows, k, map[], key) <==> Linked(rows, k)
      ensures Accepted(rows, k, map[], keys[k]) <==> Linked(rows, k)
    {
    }
    if ChainOk(rows, map[], key) {
      forall k | 0 <= k < |rows| ensures Linked(rows, k) {
        assert Accepted(rows, k, map[], key);
      }
    }
    if AcceptedUpTo(rows, |rows|, map[], keys) {
      forall k | 0 <= k < |rows| ensures Linked(rows, k) {
        assert Accepted(rows, k, map[], keys[k]);
      }
    }
  }

  // ---- The keys behind a row --------------------------------------------------------------------

  /** The two reads of the key behind a row: one when it is signed, one when the key's identifier is noted. */
  datatype KeyReads = KeyReads(signedUnder: string, namedUnder: string)

  ghost predicate WrittenUnder(row: Row, under: KeyReads) {
    row.signature == Sign(under.signedUnder, row.entryHash) && row.sigKeyId == KeyIdOf(under.namedUnder)
  }

  /** What a linked row counts as, by the four reads of the key: two when it was written, two when it is walked. */
  function StandingByReads(under: KeyReads, current: string, key: string): Standing {
    if under.signedUnder == "" then Unsigned
    else if under.namedUnder == "" || under.namedUnder != current then Superseded
    else if under.signedUnder == key then Current
    else Invalid
  }

  /**
   A linked row counts as invalid exactly when it was signed, its identifier is that of a key that was in force when
   the walk began, and the key it was signed under is not the one in force when the walk comes to it.
   */
  lemma StandingComesFromReads(rows: seq<Row>, i: nat, under: KeyReads, checkpoints: Checkpoints, current: string,
                               key: string)
    requires i < |rows| && Linked(rows, i) && WrittenUnder(rows[i], under)
    ensures StandingAt(rows, i, checkpoints, current, key) == StandingByReads(under, current, key)
    ensures StandingAt(rows, i, checkpoints, current, key) == Invalid <==>
              under.signedUnder != "" && under.namedUnder == current != "" && under.signedUnder != key
    ensures current == key ==>
              (StandingAt(rows, i, checkpoints, current, key) == Invalid <==>
                 under.signedUnder != "" && key != "" && under.namedUnder == key && under.signedUnder != under.namedUnder)
  {
  }

  /**
   A walk whose key changes from one to another at row m reports as invalid exactly the honestly signed rows from
   m on that the first key signed, and the chain verdict is as if nothing had changed.
   */
  lemma RotationDuringTheWalk(rows: seq<Row>, i: nat, m: nat, first: string, second: string, keys: seq<string>)
    requires Verifies(rows) && i < |rows| == |keys| && HonestlySigned(rows[i])
    requires forall k | 0 <= k < |keys| :: keys[k] == if k < m then first else second
    ensures AcceptedUpTo(rows, |rows|, map[], keys)
    ensures StandingAt(rows, i, map[], first, keys[i]) == Invalid <==>
              m <= i && first != second && SignerOf(rows[i]) == first != ""
    ensures StandingAt(rows, i, map[], first, keys[i]) != Invalid ==>
              StandingAt(rows, i, map[], first, keys[i]) == StandingOf(rows, i, map[], first)
  {
    VerdictIgnoresKey(rows, i, first, keys);
    assert Linked(rows, i);
    StandingComesFromReads(rows, i, KeyReads(SignerOf(rows[i]), SignerOf(rows[i])), map[], first, keys[i]);
  }

  /** The key a row claims to be signed with. */
  function SignerOf(row: Row): string {
    if row.sigKeyId.IdOf? then row.sigKeyId.key else ""
  }

  /** Both reads of the key gave the same. */
  ghost predicate HonestlySigned(row: Row) {
    WrittenUnder(row, KeyReads(SignerOf(row), SignerOf(row)))
  }

  // ---- What a verifying chain proves ----------------------------------------------------------

  lemma PrefixVerifies(rows: seq<Row>, n: nat)
    requires n <= |rows| && Verifies(rows)
    ensures Verifies(rows[..n])
  {
    forall i | 0 <= i < n ensures Linked(rows[..n], i) {
      assert Linked(rows, i);
    }
  }

  lemma HeadBlankIffEmpty(rows: seq<Row>)
    requires Verifies(rows)
    ensures PrevOf(rows, |rows|) == Blank <==> rows == []
  {
    if rows != [] {
      assert Linked(rows, |rows| - 1);
    }
  }

  /** Two verifying ledgers that end in the same hash recorded the same history, whatever their lengths. */
  lemma {:induction false} SameHeadSameHistory(a: seq<Row>, b: seq<Row>)
    requires Verifies(a) && Verifies(b)
    requires PrevOf(a, |a|) == PrevOf(b, |b|)
    ensures |a| == |b|
    ensures forall i | 0 <= i < |a| ::
              && a[i].payload == b[i].payload
              && a[i].prevHash == b[i].prevHash
              && a[i].entryHash == b[i].entryHash
    decreases |a|
  {
    if a == [] || b == [] {
      HeadBlankIffEmpty(a);
      HeadBlankIffEmpty(b);
    } else {
      var m, n := |a| - 1, |b| - 1;
      assert Linked(a, m) && Linked(b, n);
      PrefixVerifies(a, m);
      PrefixVerifies(b, n);
      SameHeadSameHistory(a[..m], b[..n]);
      assert forall i | 0 <= i < m :: a[i] == a[..m][i] && b[i] == b[..n][i];
    }
  }

  lemma EntryHashesDistinct(rows: seq<Row>, i: nat, j: nat)
    requires Verifies(rows) && i < j <= |rows|
    ensures PrevOf(rows, i) != PrevOf(rows, j)
  {
    if PrevOf(rows, i) == PrevOf(rows, j) {
      PrefixVerifies(rows, i);
      PrefixVerifies(rows, j);
      SameHeadSameHistory(rows[..i], rows[..j]);
      assert false;
    }
  }

  /** No two rows of a verifying ledger follow the same row: the chain has no fork. */
  lemma NoTwoRowsShareAPredecessor(rows: seq<Row>, i: nat, j: nat)
    requires Verifies(rows) && i < j < |rows|
    ensures rows[i].prevHash != rows[j].prevHash
    ensures rows[i].entryHash != rows[j].entryHash
  {
    assert Linked(rows, i) && Linked(rows, j);
    EntryHashesDistinct(rows, i, j);
  }

  // ---- What an append makes, and what its columns give back ---------------------------------------

  /** Every row names its predecessor, and its hash was taken over that and some payload. */
  ghost predicate Chained(rows: seq<Row>) {
    forall i | 0 <= i < |rows| ::
      && rows[i].prevHash == PrevOf(rows, i)
      && rows[i].entryHash.Digest? && rows[i].entryHash.prev == PrevOf(rows, i)
  }

  /** The columns give back the payload that was hashed. A JSON column may give back another text for a value. */
  predicate Survived(row: Row) {
    row.entryHash.Digest? && row.payload == row.entryHash.payload
  }

  /** The rows as they were when they were hashed. */
  function AsHashed(rows: seq<Row>): (hashed: seq<Row>)
    ensures |hashed| == |rows|
    ensures forall i | 0 <= i < |rows| ::
              hashed[i] == if rows[i].entryHash.Digest? then rows[i].(payload := rows[i].entryHash.payload) else rows[i]
  {
    seq(|rows|, i requires 0 <= i < |rows| =>
      if rows[i].entryHash.Digest? then rows[i].(payload := rows[i].entryHash.payload) else rows[i])
  }

  /** Row by row, what appends made links exactly where the columns give back what was hashed. */
  lemma ChainedLinksIffSurvived(rows: seq<Row>)
    requires Chained(rows)
    ensures forall i | 0 <= i < |rows| :: Linked(rows, i) <==> Survived(rows[i])
    ensures Verifies(rows) <==> forall i | 0 <= i < |rows| :: Survived(rows[i])
  {
    forall i | 0 <= i < |rows|
      ensures Linked(rows, i) <==> Survived(rows[i])
    {
      assert rows[i].prevHash == PrevOf(rows, i);
    }
    if Verifies(rows) {
      forall i | 0 <= i < |rows| ensures Survived(rows[i]) {
        assert Linked(rows, i);
      }
    }
  }

  /** Whatever the columns give back, what appends made has no fork. */
  lemma ChainedHasNoFork(rows: seq<Row>, i: nat, j: nat)
    requires Chained(rows) && i < j < |rows|
    ensures rows[i].prevHash != rows[j].prevHash && rows[i].entryHash != rows[j].entryHash
  {
    var hashed := AsHashed(rows);
    forall k | 0 <= k < |hashed| ensures Linked(hashed, k) {
      assert rows[k].prevHash == PrevOf(rows, k) == PrevOf(hashed, k);
    }
    NoTwoRowsShareAPredecessor(hashed, i, j);
  }

  lemma PrefixChained(rows: seq<Row>, n: nat)
    requires n <= |rows| && Chained(rows)
    ensures Chained(rows[..n])
  {
    forall i | 0 <= i < n
      ensures rows[i].prevHash == PrevOf(rows[..n], i) && rows[i].entryHash.Digest?
              && rows[i].entryHash.prev == PrevOf(rows[..n], i)
    {
      assert PrevOf(rows[..n], i) == PrevOf(rows, i);
    }
  }

  lemma AppendKeepsChained(rows: seq<Row>, row: Row)
    requires Chained(rows) && row.prevHash == PrevOf(rows, |rows|)
    requires row.entryHash.Digest? && row.entryHash.prev == row.prevHash
    ensures Chained(rows + [row])
  {
    var all := rows + [row];
    forall i | 0 <= i < |all|
      ensures all[i].prevHash == PrevOf(all, i) && all[i].entryHash.Digest? && all[i].entryHash.prev == PrevOf(all, i)
    {
      if i < |rows| {
        assert PrevOf(all, i) == PrevOf(rows, i);
      }
    }
  }

  ghost predicate Picks(idx: seq<nat>, n: nat) {
    && (forall k | 0 <= k < |idx| :: idx[k] < n)
    && forall k, l | 0 <= k < l < |idx| :: idx[k] < idx[l]
  }

  function Select(rows: seq<Row>, idx: seq<nat>): (kept: seq<Row>)
    requires forall k | 0 <= k < |idx| :: idx[k] < |rows|
  {
    seq(|idx|, k requires 0 <= k < |idx| => rows[idx[k]])
  }

  /** Removing rows from a verifying ledger goes unnoticed exactly when what was removed is its tail. */
  lemma RemovalUndetectedIffTail(rows: seq<Row>, idx: seq<nat>)
    requires Verifies(rows) && Picks(idx, |rows|)
    ensures Verifies(Select(rows, idx)) <==> |idx| <= |rows| && Select(rows, idx) == rows[..|idx|]
    ensures Verifies(Select(rows, idx)) <==> forall k | 0 <= k < |idx| :: idx[k] == k
  {
    var kept := Select(rows, idx);
    if Verifies(kept) {
      for n := 0 to |idx|
        invariant forall k | 0 <= k < n :: idx[k] == k
      {
        PickInPlace(rows, idx, n);
      }
      PicksFit(idx, |rows|);
      assert kept == rows[..|idx|];
    }
    PicksFit(idx, |rows|);
    if forall k | 0 <= k < |idx| :: idx[k] == k {
      assert kept == rows[..|idx|];
    }
    if kept == rows[..|idx|] {
      PrefixVerifies(rows, |idx|);
    }
  }

  lemma PicksFit(idx: seq<nat>, n: nat)
    requires Picks(idx, n)
    ensures |idx| <= n
  {
    if idx != [] {
      var last := |idx| - 1;
      PicksFit(idx[..last], idx[last]);
    }
  }

  lemma PickInPlace(rows: seq<Row>, idx: seq<nat>, n: nat)
    requires Verifies(rows) && Picks(idx, |rows|) && n < |idx|
    requires Verifies(Select(rows, idx))
    requires forall k | 0 <= k < n :: idx[k] == k
    ensures idx[n] == n
  {
    var kept := Select(rows, idx);
    var m := idx[n];
    assert n <= m by { if n > 0 { assert idx[n - 1] < idx[n]; } }
    assert Linked(kept, n) && Linked(rows, m);
    assert PrevOf(kept, n) == PrevOf(rows, n);
    if n < m {
      EntryHashesDistinct(rows, n, m);
      assert false;
    }
  }

  // ---- Appends and key rotations --------------------------------------------------------------

  datatype Event = Append(payload: Payload) | Rotate(newKey: string)

  datatype Trail = Trail(rows: seq<Row>, nextId: nat, key: string)

  function Apply(t: Trail, e: Event): Trail {
    match e
    case Append(p) => Trail(t.rows + [MakeRow(t.nextId, p, PrevOf(t.rows, |t.rows|), t.key, t.key)], t.nextId + 1, t.key)
    case Rotate(k) => t.(key := k)
  }

  function RunTrail(t: Trail, events: seq<Event>): Trail
    decreases |events|
  {
    if events == [] then t else RunTrail(Apply(t, events[0]), events[1..])
  }

  ghost predicate SoundTrail(t: Trail) {
    && Verifies(t.rows)
    && IdsAscend(t.rows)
    && (forall i | 0 <= i < |t.rows| :: t.rows[i].id < t.nextId && HonestlySigned(t.rows[i]))
  }

  lemma AppendKeepsLinks(rows: seq<Row>, row: Row)
    requires Verifies(rows)
    requires row.prevHash == PrevOf(rows, |rows|) && row.entryHash == Digest(row.prevHash, row.payload)
    ensures Verifies(rows + [row])
  {
    var all := rows + [row];
    forall i | 0 <= i < |all| ensures Linked(all, i) {
      if i < |rows| {
        assert Linked(rows, i);
      }
    }
  }

  lemma ApplyKeepsSound(t: Trail, e: Event)
    requires SoundTrail(t)
    ensures SoundTrail(Apply(t, e))
  {
    if e.Append? {
      AppendKeepsLinks(t.rows, MakeRow(t.nextId, e.payload, PrevOf(t.rows, |t.rows|), t.key, t.key));
    }
  }

  /**
   Any run of appends, with rotations between them, leaves a chain that verifies, and under whatever key is in force
   each row's standing is decided by the key that signed it: unsigned, current or superseded, never invalid.
   */
  lemma {:induction false} RotationOnlyMovesStandings(t: Trail, events: seq<Event>, key: string)
    requires SoundTrail(t)
    ensures SoundTrail(RunTrail(t, events))
    ensures ChainOk(RunTrail(t, events).rows, map[], key)
    ensures var rows := RunTrail(t, events).rows;
            forall i | 0 <= i < |rows| ::
              StandingOf(rows, i, map[], key) ==
                if SignerOf(rows[i]) == "" then Unsigned
                else if SignerOf(rows[i]) == key then Current
                else Superseded
    decreases |events|
  {
    if events == [] {
      forall i | 0 <= i < |t.rows|
        ensures Accepted(t.rows, i, map[], key)
        ensures StandingOf(t.rows, i, map[], key) ==
                if SignerOf(t.rows[i]) == "" then Unsigned
                else if SignerOf(t.rows[i]) == key then Current
                else Superseded
      {
        assert Linked(t.rows, i) && HonestlySigned(t.rows[i]);
      }
    } else {
      ApplyKeepsSound(t, events[0]);
      RotationOnlyMovesStandings(Apply(t, events[0]), events[1..], key);
    }
  }

  /** The audit table as the application holds it, with its acknowledged gaps and the key in force. */
  class AuditTable {
    var rows: seq<Row>
    var nextId: nat
    var key: string
    var checkpoints: Checkpoints

    /** The primary key: ids ascend and come off a sequence. It says nothing about the chain. */
    ghost predicate Valid() reads this {
      && IdsAscend(rows)
      && forall i | 0 <= i < |rows| :: rows[i].id < nextId
    }

    ghost function Contents(): Trail reads this { Trail(rows, nextId, key) }

    constructor (key: string)
      ensures Valid() && SoundTrail(Contents())
      ensures Contents() == Trail([], 1, key) && checkpoints == map[]
    {
      this.rows, this.nextId, this.key, this.checkpoints := [], 1, key, map[];
    }

    /** Append one entry under the head read at the call, whatever state the earlier rows are in. */
    method Audit(actor: string, action: string, role: string, httpMethod: string, path: string,
                 objectType: string, objectId: string, detail: Detail)
      returns (row: Row)
      requires Valid()
      modifies this`rows, this`nextId
      ensures Valid()
      ensures row.payload == AuditEntry(actor, role, action, httpMethod, path, objectType, objectId, detail)
      ensures Contents() == Apply(old(Contents()), Append(row.payload))
      ensures rows == old(rows) + [row] && Linked(rows, |rows| - 1) && HonestlySigned(row)
      ensures SoundTrail(old(Contents())) ==> SoundTrail(Contents())
    {
      var prevHash := if |rows| > 0 then rows[|rows| - 1].entryHash else Blank;
      var payload := AuditEntry(actor, role, action, httpMethod, path, objectType, objectId, detail);
      if SoundTrail(Contents()) {
        ApplyKeepsSound(Contents(), Append(payload));
      }
      hide SoundTrail, Verifies;
      row := MakeRow(nextId, payload, prevHash, key, key);
      rows := rows + [row];
      nextId := nextId + 1;
    }

    method RotateKey(newKey: string)
      requires Valid()
      modifies this`key
      ensures Valid() && Contents() == Apply(old(Contents()), Rotate(newKey))
      ensures SoundTrail(old(Contents())) ==> SoundTrail(Contents())
    {
      key := newKey;
    }
  }
}
