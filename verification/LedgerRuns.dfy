/**
 Concurrent appenders of the audit ledger as a state machine. A transaction takes the advisory lock, reads the head,
 signs, notes the key's identifier as it inserts (any number of times), and then commits or rolls back. Only committed
 rows are seen by others, and the key may be rotated between any two steps. A step that cannot run yet leaves the
 state as it is, so every sequence of steps is an interleaving.
 */
module LedgerRuns {
  import opened Common
  import opened Ledger

  type TxId = nat

  /** Whether the head is read under the advisory lock, or with no lock on the chain's name. */
  datatype Discipline = Advisory | RowLocksOnly

  datatype Step =
    | Acquire(t: TxId)
    | ReadHead(t: TxId)
    | Sign(t: TxId, payload: Payload)
    | Insert(t: TxId, stored: Payload)
    | Commit(t: TxId)
    | Rollback(t: TxId)
    | RollbackTo(t: TxId, keep: nat, lockAfterSavepoint: bool)
    | RotateTo(key: string)

  /** A row signed and not inserted yet. */
  datatype Draft = Draft(payload: Payload, prev: Hash, signedUnder: string)

  /**
   `own` holds each open transaction's uncommitted rows, `heads` the head it has read and not used yet, `drafts` the
   row it has signed under that head. `key` is what a read of the key gives now. An insert's `stored` is what its
   columns will give back, whatever was hashed.
   */
  datatype State = State(committed: seq<Row>, nextId: nat, key: string, holder: Option<TxId>,
                         own: map<TxId, seq<Row>>, heads: map<TxId, Hash>, drafts: map<TxId, Draft>)

  function Initial(key: string): State {
    State([], 1, key, None, map[], map[], map[])
  }

  function Own(s: State, t: TxId): seq<Row> {
    if t in s.own then s.own[t] else []
  }

  /** Two tables in id order read as one, in id order. */
  function MergeById(a: seq<Row>, b: seq<Row>): seq<Row>
    decreases |a| + |b|
  {
    if a == [] then b
    else if b == [] then a
    else if a[0].id <= b[0].id then [a[0]] + MergeById(a[1..], b)
    else [b[0]] + MergeById(a, b[1..])
  }

  /** What a transaction sees: committed rows and its own. */
  function Visible(s: State, t: TxId): seq<Row> {
    MergeById(s.committed, Own(s, t))
  }

  function Release(s: State, t: TxId): State {
    State(s.committed, s.nextId, s.key, if s.holder == Some(t) then None else s.holder,
          s.own - {t}, s.heads - {t}, s.drafts - {t})
  }

  function Truncate(s: State, t: TxId, keep: nat): State
    requires keep <= |Own(s, t)|
  {
    s.(own := s.own[t := Own(s, t)[..keep]], heads := s.heads - {t}, drafts := s.drafts - {t})
  }

  function RowOf(id: nat, draft: Draft, namedUnder: string, stored: Payload): Row {
    MakeRow(id, draft.payload, draft.prev, draft.signedUnder, namedUnder).(payload := stored)
  }

  function Next(d: Discipline, s: State, step: Step): State {
    match step
    case Acquire(t) => if s.holder == None then s.(holder := Some(t)) else s
    case ReadHead(t) =>
      if t in s.drafts || (d == Advisory && s.holder != Some(t)) then s
      else s.(heads := s.heads[t := PrevOf(Visible(s, t), |Visible(s, t)|)])
    case Sign(t, p) =>
      if t !in s.heads then s
      else s.(heads := s.heads - {t}, drafts := s.drafts[t := Draft(p, s.heads[t], s.key)])
    case Insert(t, stored) =>
      if t !in s.drafts then s
      else
        s.(own := s.own[t := Own(s, t) + [RowOf(s.nextId, s.drafts[t], s.key, stored)]],
           nextId := s.nextId + 1,
           drafts := s.drafts - {t})
    case Commit(t) => Release(s.(committed := Visible(s, t)), t)
    case Rollback(t) => Release(s, t)
    case RollbackTo(t, keep, lockAfter) =>
      if keep == 0 && lockAfter then Release(s, t)
      else if keep <= |Own(s, t)| then Truncate(s, t, keep)
      else s
    case RotateTo(k) => s.(key := k)
  }

  function Run(d: Discipline, s: State, steps: seq<Step>): State
    decreases |steps|
  {
    if steps == [] then s else Run(d, Next(d, s, steps[0]), steps[1..])
  }

  // ---- Under the advisory lock ------------------------------------------------------------------

  /** The committed chain extended by the lock holder's rows. */
  function Ahead(s: State): seq<Row> {
    s.committed + if s.holder.Some? then Own(s, s.holder.value) else []
  }

  ghost predicate Sound(s: State) {
    && Chained(Ahead(s))
    && IdsAscend(Ahead(s))
    && (forall i | 0 <= i < |Ahead(s)| :: Ahead(s)[i].id < s.nextId)
    && (forall t | t in s.own && s.own[t] != [] :: s.holder == Some(t))
    && (forall t | t in s.heads :: s.holder == Some(t) && s.heads[t] == PrevOf(Ahead(s), |Ahead(s)|) && t !in s.drafts)
    && (forall t | t in s.drafts :: s.holder == Some(t) && s.drafts[t].prev == PrevOf(Ahead(s), |Ahead(s)|))
  }

  lemma {:induction false} MergeOfLaterIds(a: seq<Row>, b: seq<Row>)
    requires forall i, j | 0 <= i < |a| && 0 <= j < |b| :: a[i].id < b[j].id
    ensures MergeById(a, b) == a + b
    decreases |a|
  {
    if a != [] && b != [] {
      MergeOfLaterIds(a[1..], b);
    }
  }

  lemma VisibleIsAhead(s: State, t: TxId)
    requires Sound(s)
    ensures Visible(s, t) == s.committed + Own(s, t)
    ensures s.holder == Some(t) ==> Visible(s, t) == Ahead(s)
  {
    if Own(s, t) == [] {
    } else {
      assert s.holder == Some(t);
      var c, o, all := s.committed, Own(s, t), Ahead(s);
      forall i, j | 0 <= i < |c| && 0 <= j < |o|
        ensures c[i].id < o[j].id
      {
        assert all[i] == c[i] && all[|c| + j] == o[j];
      }
      MergeOfLaterIds(c, o);
    }
  }

  lemma CommittedIsPrefixOfAhead(s: State)
    requires Sound(s)
    ensures Chained(s.committed) && IdsAscend(s.committed)
  {
    assert Ahead(s)[..|s.committed|] == s.committed;
    PrefixChained(Ahead(s), |s.committed|);
  }

  lemma InsertKeepsSound(s: State, t: TxId, stored: Payload)
    requires Sound(s)
    ensures Sound(Next(Advisory, s, Insert(t, stored)))
  {
    if t in s.drafts {
      var row := RowOf(s.nextId, s.drafts[t], s.key, stored);
      AppendKeepsChained(Ahead(s), row);
      assert Ahead(Next(Advisory, s, Insert(t, stored))) == Ahead(s) + [row];
    }
  }

  lemma CommitKeepsSound(s: State, t: TxId)
    requires Sound(s)
    ensures Sound(Next(Advisory, s, Commit(t))) && s.committed <= Next(Advisory, s, Commit(t)).committed
  {
    VisibleIsAhead(s, t);
    CommittedIsPrefixOfAhead(s);
    assert s.holder != Some(t) ==> Own(s, t) == [];
    assert Ahead(Next(Advisory, s, Commit(t))) == Ahead(s);
  }

  lemma AcquireKeepsSound(s: State, t: TxId)
    requires Sound(s)
    ensures Sound(Next(Advisory, s, Acquire(t)))
  {
    hide Chained, IdsAscend, MergeById, RowOf;
    if s.holder == None {
      assert Own(s, t) == [];
      assert Ahead(s.(holder := Some(t))) == Ahead(s);
    }
  }

  lemma ReadHeadKeepsSound(s: State, t: TxId)
    requires Sound(s)
    ensures Sound(Next(Advisory, s, ReadHead(t)))
  {
    VisibleIsAhead(s, t);
    hide Chained, IdsAscend, MergeById, RowOf;
    assert Ahead(Next(Advisory, s, ReadHead(t))) == Ahead(s);
  }

  lemma SignKeepsSound(s: State, t: TxId, p: Payload)
    requires Sound(s)
    ensures Sound(Next(Advisory, s, Sign(t, p)))
  {
    hide Chained, IdsAscend, MergeById, RowOf;
    assert Ahead(Next(Advisory, s, Sign(t, p))) == Ahead(s);
  }

  lemma RotateKeepsSound(s: State, key: string)
    requires Sound(s)
    ensures Sound(s.(key := key))
  {
    hide Chained, IdsAscend, MergeById, RowOf;
    assert Ahead(s.(key := key)) == Ahead(s);
  }

  lemma StepKeepsSound(s: State, step: Step)
    requires Sound(s)
    ensures Sound(Next(Advisory, s, step))
    ensures s.committed <= Next(Advisory, s, step).committed
  {
    hide Sound, RowOf, MergeById;
    match step
    case Acquire(t) => AcquireKeepsSound(s, t);
    case ReadHead(t) => ReadHeadKeepsSound(s, t);
    case Sign(t, p) => SignKeepsSound(s, t, p);
    case Insert(t, stored) => InsertKeepsSound(s, t, stored);
    case Commit(t) => CommitKeepsSound(s, t);
    case Rollback(t) => ReleaseKeepsSound(s, t);
    case RollbackTo(t, keep, lockAfter) =>
      if keep == 0 && lockAfter {
        ReleaseKeepsSound(s, t);
      } else if keep <= |Own(s, t)| {
        TruncateKeepsSound(s, t, keep);
      }
    case RotateTo(k) => RotateKeepsSound(s, k);
  }

  lemma ReleaseKeepsSound(s: State, t: TxId)
    requires Sound(s)
    ensures Sound(Release(s, t))
  {
    CommittedIsPrefixOfAhead(s);
    var s' := Release(s, t);
    if s.holder == Some(t) {
      assert Ahead(s') == s.committed;
      assert forall i | 0 <= i < |s.committed| :: Ahead(s)[i] == s.committed[i];
    } else {
      assert Ahead(s') == Ahead(s);
    }
  }

  lemma TruncateKeepsSound(s: State, t: TxId, keep: nat)
    requires Sound(s) && keep <= |Own(s, t)|
    ensures Sound(Truncate(s, t, keep))
  {
    var s' := Truncate(s, t, keep);
    if s.holder == Some(t) {
      var n := |s.committed| + keep;
      assert Ahead(s') == Ahead(s)[..n];
      PrefixChained(Ahead(s), n);
    } else {
      assert Own(s, t) == [];
      assert Ahead(s') == Ahead(s);
    }
  }

  /**
   Whatever transactions do and however they interleave, the committed rows in id order form one chain, no committed
   row is ever taken back or changed, and the verifier accepts them exactly when every payload survived its columns.
   */
  lemma {:induction false} EveryInterleavingIsOneChain(s: State, steps: seq<Step>)
    requires Sound(s)
    ensures var s' := Run(Advisory, s, steps);
            && Sound(s')
            && Chained(s'.committed) && IdsAscend(s'.committed)
            && (Verifies(s'.committed) <==> forall i | 0 <= i < |s'.committed| :: Survived(s'.committed[i]))
            && s.committed <= s'.committed
    decreases |steps|
  {
    if steps == [] {
      CommittedIsPrefixOfAhead(s);
      ChainedLinksIffSurvived(s.committed);
    } else {
      StepKeepsSound(s, steps[0]);
      EveryInterleavingIsOneChain(Next(Advisory, s, steps[0]), steps[1..]);
    }
  }

  /**
   From an empty table the verdict under any key is good exactly when every payload survived its columns, and
   whatever they give back no two committed rows follow the same one.
   */
  lemma EveryRunVerifies(signingKey: string, steps: seq<Step>, key: string)
    ensures var rows := Run(Advisory, Initial(signingKey), steps).committed;
            && (ChainOk(rows, map[], key) <==> forall i | 0 <= i < |rows| :: Survived(rows[i]))
            && (forall i, j | 0 <= i < j < |rows| :: rows[i].prevHash != rows[j].prevHash)
  {
    EveryInterleavingIsOneChain(Initial(signingKey), steps);
    var rows := Run(Advisory, Initial(signingKey), steps).committed;
    if rows != [] {
      VerdictIgnoresKey(rows, 0, key, seq(|rows|, _ => key));
    }
    forall i, j | 0 <= i < j < |rows|
      ensures rows[i].prevHash != rows[j].prevHash
    {
      ChainedHasNoFork(rows, i, j);
    }
  }

  lemma RunFive(d: Discipline, s: State, steps: seq<Step>)
    requires |steps| == 5
    ensures Run(d, s, steps)
         == Next(d, Next(d, Next(d, Next(d, Next(d, s, steps[0]), steps[1]), steps[2]), steps[3]), steps[4])
  {
    hide Next;
    TwoSteps(d, s, steps);
    var s2 := Next(d, Next(d, s, steps[0]), steps[1]);
    TwoSteps(d, s2, steps[2..]);
    assert steps[2..][2..] == [steps[4]];
    OneStep(d, Next(d, Next(d, s2, steps[2]), steps[3]), steps[4]);
  }

  /** One uncontended call: lock, read, sign, insert, commit appends exactly the row the head calls for. */
  lemma CallAppendsOneRow(s: State, t: TxId, payload: Payload)
    requires Sound(s) && s.holder == None && Own(s, t) == []
    ensures Run(Advisory, s, [Acquire(t), ReadHead(t), Sign(t, payload), Insert(t, payload), Commit(t)]).committed
         == Apply(Trail(s.committed, s.nextId, s.key), Append(payload)).rows
  {
    var steps := [Acquire(t), ReadHead(t), Sign(t, payload), Insert(t, payload), Commit(t)];
    var s3 := SignsUnderTheHead(s, t, payload);
    StepKeepsSound(s3, steps[3]);
    var s4 := Next(Advisory, s3, steps[3]);
    assert s4.holder == Some(t) && s4.committed == s.committed;
    VisibleIsAhead(s4, t);
    hide Sound, Ahead, MergeById, Run;
    assert Own(s4, t) == [MakeRow(s.nextId, payload, PrevOf(s.committed, |s.committed|), s.key, s.key)];
    RunFive(Advisory, s, steps);
  }

  lemma SignsUnderTheHead(s: State, t: TxId, payload: Payload) returns (s3: State)
    requires Sound(s) && s.holder == None && Own(s, t) == []
    ensures s3 == Next(Advisory, Next(Advisory, Next(Advisory, s, Acquire(t)), ReadHead(t)), Sign(t, payload))
    ensures Sound(s3) && Own(s3, t) == [] && s3.holder == Some(t)
    ensures s3.committed == s.committed && s3.nextId == s.nextId && s3.key == s.key
    ensures t in s3.drafts && s3.drafts[t] == Draft(payload, PrevOf(s.committed, |s.committed|), s.key)
  {
    assert t !in s.drafts;
    var s1 := Next(Advisory, s, Acquire(t));
    StepKeepsSound(s, Acquire(t));
    VisibleIsAhead(s1, t);
    var s2 := Next(Advisory, s1, ReadHead(t));
    StepKeepsSound(s1, ReadHead(t));
    hide Sound;
    s3 := Next(Advisory, s2, Sign(t, payload));
    StepKeepsSound(s2, Sign(t, payload));
  }

  // ---- Keys and standings -----------------------------------------------------------------------

  /** The key in force after the steps. */
  function KeyAfter(key: string, steps: seq<Step>): string {
    if steps == [] then key
    else
      var last := steps[|steps| - 1];
      if last.RotateTo? then last.key else KeyAfter(key, steps[..|steps| - 1])
  }

  lemma {:induction false} KeyUnchanged(key: string, steps: seq<Step>, a: nat, b: nat)
    requires a <= b <= |steps| && forall k | a <= k < b :: !steps[k].RotateTo?
    ensures KeyAfter(key, steps[..a]) == KeyAfter(key, steps[..b])
    decreases b
  {
    if a < b {
      assert steps[..b][..b - 1] == steps[..b - 1];
      KeyUnchanged(key, steps, a, b - 1);
    }
  }

  lemma {:induction false} RunSplit(d: Discipline, s: State, steps: seq<Step>)
    requires steps != []
    ensures Run(d, s, steps) == Next(d, Run(d, s, steps[..|steps| - 1]), steps[|steps| - 1])
    decreases |steps|
  {
    hide Next;
    if |steps| == 1 {
      OneStep(d, s, steps[0]);
      assert steps == [steps[0]] && steps[..0] == [];
    } else {
      var before := steps[..|steps| - 1];
      RunSplit(d, Next(d, s, steps[0]), steps[1..]);
      assert before[1..] == steps[1..][..|steps| - 2] && before[0] == steps[0];
    }
  }

  lemma {:induction false} RunKey(d: Discipline, key: string, steps: seq<Step>)
    ensures Run(d, Initial(key), steps).key == KeyAfter(key, steps)
    decreases |steps|
  {
    if steps != [] {
      RunSplit(d, Initial(key), steps);
      RunKey(d, key, steps[..|steps| - 1]);
    }
  }

  /** A row is somewhere in the table, committed or not. */
  ghost predicate Holds(s: State, row: Row) {
    row in s.committed || exists t | t in s.own :: row in s.own[t]
  }

  lemma {:induction false} MergeOnlyMerges(a: seq<Row>, b: seq<Row>, row: Row)
    ensures row in MergeById(a, b) ==> row in a || row in b
    decreases |a| + |b|
  {
    if a != [] && b != [] {
      if a[0].id <= b[0].id {
        MergeOnlyMerges(a[1..], b, row);
      } else {
        MergeOnlyMerges(a, b[1..], row);
      }
    }
  }

  lemma OneRowMore(row: Row, x: seq<Row>, y: seq<Row>, merged: seq<Row>)
    requires multiset(merged) == multiset(x) + multiset(y)
    ensures multiset([row] + merged) == multiset([row] + x) + multiset(y)
  {
  }

  /** Reading two tables as one loses no row and repeats none. */
  lemma {:induction false} MergeKeepsRows(a: seq<Row>, b: seq<Row>)
    ensures multiset(MergeById(a, b)) == multiset(a) + multiset(b)
    decreases |a| + |b|
  {
    if a != [] && b != [] {
      if a[0].id <= b[0].id {
        MergeKeepsRows(a[1..], b);
        OneRowMore(a[0], a[1..], b, MergeById(a[1..], b));
        assert a == [a[0]] + a[1..];
      } else {
        MergeKeepsRows(a, b[1..]);
        OneRowMore(b[0], b[1..], a, MergeById(a, b[1..]));
        assert b == [b[0]] + b[1..];
      }
    }
  }

  ghost predicate InIdOrder(rows: seq<Row>) {
    forall i, j | 0 <= i < j < |rows| :: rows[i].id <= rows[j].id
  }

  lemma InIdOrderBehind(first: Row, rest: seq<Row>)
    requires InIdOrder(rest) && forall x | x in rest :: first.id <= x.id
    ensures InIdOrder([first] + rest)
  {
  }

  /** And it keeps the order of ids. */
  lemma {:induction false} MergeKeepsOrder(a: seq<Row>, b: seq<Row>)
    requires InIdOrder(a) && InIdOrder(b)
    ensures InIdOrder(MergeById(a, b))
    decreases |a| + |b|
  {
    if a != [] && b != [] {
      var first, rest;
      if a[0].id <= b[0].id {
        MergeKeepsOrder(a[1..], b);
        first, rest := a[0], MergeById(a[1..], b);
        forall x | x in rest ensures first.id <= x.id { MergeOnlyMerges(a[1..], b, x); }
      } else {
        MergeKeepsOrder(a, b[1..]);
        first, rest := b[0], MergeById(a, b[1..]);
        forall x | x in rest ensures first.id <= x.id { MergeOnlyMerges(a, b[1..], x); }
      }
      InIdOrderBehind(first, rest);
    }
  }

  /**
   A savepoint takes back the rows inserted after it and the head read or signed since, and nothing of anyone else's;
   the lock goes with it when it was taken after the savepoint.
   */
  lemma SavepointTakesBack(d: Discipline, s: State, t: TxId, keep: nat, lockAfter: bool)
    requires keep <= |Own(s, t)| && (lockAfter ==> keep == 0)
    ensures var after := Next(d, s, RollbackTo(t, keep, lockAfter));
            && Own(after, t) == Own(s, t)[..keep] && t !in after.heads && t !in after.drafts
            && after.committed == s.committed && after.nextId == s.nextId && after.key == s.key
            && after.holder == (if lockAfter && s.holder == Some(t) then None else s.holder)
            && forall u | u != t ::
                 && Own(after, u) == Own(s, u)
                 && (u in after.heads <==> u in s.heads) && (u in s.heads ==> after.heads[u] == s.heads[u])
                 && (u in after.drafts <==> u in s.drafts) && (u in s.drafts ==> after.drafts[u] == s.drafts[u])
  {
  }

  /** A step adds no row but the one it inserts. */
  lemma StepAddsOnlyItsRow(d: Discipline, s: State, step: Step, row: Row)
    requires Holds(Next(d, s, step), row) && !Holds(s, row)
    ensures step.Insert? && step.t in s.drafts
    ensures row == RowOf(s.nextId, s.drafts[step.t], s.key, step.stored)
  {
    if step.Commit? {
      MergeOnlyMerges(s.committed, Own(s, step.t), row);
    }
  }

  /** A draft goes back to the step that signed it, under the key then in force. */
  lemma {:induction false} DraftWasSigned(d: Discipline, key: string, steps: seq<Step>, t: TxId) returns (signed: nat)
    requires t in Run(d, Initial(key), steps).drafts
    ensures var draft := Run(d, Initial(key), steps).drafts[t];
            && signed < |steps| && steps[signed] == Sign(t, draft.payload)
            && draft.signedUnder == KeyAfter(key, steps[..signed])
    decreases |steps|
  {
    var n := |steps| - 1;
    var before := Run(d, Initial(key), steps[..n]);
    RunSplit(d, Initial(key), steps);
    RunKey(d, key, steps[..n]);
    if t in before.drafts && Run(d, Initial(key), steps).drafts[t] == before.drafts[t] {
      signed := DraftWasSigned(d, key, steps[..n], t);
      assert steps[..n][..signed] == steps[..signed];
    } else {
      signed := n;
    }
  }

  /** Every row goes back to one call: the step that signed it and the later one that noted the key's identifier. */
  lemma {:induction false} RowWasWritten(d: Discipline, key: string, steps: seq<Step>, row: Row)
    returns (t: TxId, signed: nat, named: nat)
    requires Holds(Run(d, Initial(key), steps), row)
    ensures signed < named < |steps| && row.entryHash.Digest?
    ensures steps[signed] == Sign(t, row.entryHash.payload) && steps[named] == Insert(t, row.payload)
    ensures Run(d, Initial(key), steps[..named]).nextId == row.id
    ensures WrittenUnder(row, KeyReads(KeyAfter(key, steps[..signed]), KeyAfter(key, steps[..named])))
    decreases |steps|
  {
    var n := |steps| - 1;
    var before := Run(d, Initial(key), steps[..n]);
    RunSplit(d, Initial(key), steps);
    if Holds(before, row) {
      t, signed, named := RowWasWritten(d, key, steps[..n], row);
      assert steps[..n][..signed] == steps[..signed] && steps[..n][..named] == steps[..named];
    } else {
      StepAddsOnlyItsRow(d, before, steps[n], row);
      RunKey(d, key, steps[..n]);
      t, named := steps[n].t, n;
      signed := DraftWasSigned(d, key, steps[..n], t);
      assert steps[..n][..signed] == steps[..signed];
    }
  }

  /** The row is among the transaction's uncommitted ones after each of the steps from one to another. */
  ghost predicate Pending(d: Discipline, key: string, steps: seq<Step>, t: TxId, row: Row, from: nat, to: nat)
    requires to <= |steps|
  {
    forall k | from < k <= to :: row in Own(Run(d, Initial(key), steps[..k]), t)
  }

  lemma PendingInLonger(d: Discipline, key: string, steps: seq<Step>, n: nat, t: TxId, row: Row, from: nat, to: nat)
    requires to <= n <= |steps| && Pending(d, key, steps[..n], t, row, from, to)
    ensures Pending(d, key, steps, t, row, from, to)
  {
    forall k | from < k <= to ensures row in Own(Run(d, Initial(key), steps[..k]), t) {
      assert steps[..n][..k] == steps[..k];
    }
  }

  /** An uncommitted row has been its transaction's ever since that transaction inserted it. */
  lemma {:induction false} OwnRowWasInserted(d: Discipline, key: string, steps: seq<Step>, t: TxId, row: Row)
    returns (named: nat)
    requires row in Own(Run(d, Initial(key), steps), t)
    ensures named < |steps| && steps[named] == Insert(t, row.payload)
    ensures Run(d, Initial(key), steps[..named]).nextId == row.id
    ensures Pending(d, key, steps, t, row, named, |steps|)
    decreases |steps|
  {
    var n := |steps| - 1;
    var before := Run(d, Initial(key), steps[..n]);
    RunSplit(d, Initial(key), steps);
    assert steps[..|steps|] == steps;
    if row in Own(before, t) {
      named := OwnRowWasInserted(d, key, steps[..n], t, row);
      assert steps[..n][..named] == steps[..named];
      PendingInLonger(d, key, steps, n, t, row, named, n);
    } else {
      named := n;
    }
  }

  /** Taking back everything, or committing, leaves a transaction no uncommitted row. */
  lemma NothingLeftAfter(d: Discipline, s: State, step: Step, t: TxId)
    requires step == Rollback(t) || step == Commit(t) || (step.RollbackTo? && step.t == t && step.keep == 0)
    ensures Own(Next(d, s, step), t) == []
  {
  }

  /**
   A committed row was inserted by a transaction that went on to commit, and in between neither committed nor was
   rolled back: not as a whole, and not to a savepoint before the insert, since the row was there after every step.
   */
  lemma {:induction false} CommittedRowWasCommitted(d: Discipline, key: string, steps: seq<Step>, row: Row)
    returns (t: TxId, named: nat, committed: nat)
    requires row in Run(d, Initial(key), steps).committed
    ensures named < committed < |steps| && steps[named] == Insert(t, row.payload) && steps[committed] == Commit(t)
    ensures Run(d, Initial(key), steps[..named]).nextId == row.id
    ensures Pending(d, key, steps, t, row, named, committed)
    ensures forall k | named < k < committed ::
              && steps[k] != Rollback(t) && steps[k] != Commit(t)
              && !(steps[k].RollbackTo? && steps[k].t == t && steps[k].keep == 0)
    decreases |steps|
  {
    var n := |steps| - 1;
    var before := Run(d, Initial(key), steps[..n]);
    RunSplit(d, Initial(key), steps);
    if row in before.committed {
      t, named, committed := CommittedRowWasCommitted(d, key, steps[..n], row);
      assert steps[..n][..named] == steps[..named];
      PendingInLonger(d, key, steps, n, t, row, named, committed);
    } else {
      t, committed := steps[n].t, n;
      MergeOnlyMerges(before.committed, Own(before, t), row);
      named := OwnRowWasInserted(d, key, steps[..n], t, row);
      assert steps[..n][..named] == steps[..named];
      PendingInLonger(d, key, steps, n, t, row, named, n);
      forall k | named < k < n
        ensures steps[k] != Rollback(t) && steps[k] != Commit(t)
        ensures !(steps[k].RollbackTo? && steps[k].t == t && steps[k].keep == 0)
      {
        PendingSurvives(d, key, steps, t, row, named, n, k);
      }
    }
  }

  lemma PendingSurvives(d: Discipline, key: string, steps: seq<Step>, t: TxId, row: Row, from: nat, to: nat, k: nat)
    requires from < k < to <= |steps| && Pending(d, key, steps, t, row, from, to)
    ensures steps[k] != Rollback(t) && steps[k] != Commit(t)
    ensures !(steps[k].RollbackTo? && steps[k].t == t && steps[k].keep == 0)
  {
    var before := Run(d, Initial(key), steps[..k]);
    assert steps[..k + 1][..k] == steps[..k];
    RunSplit(d, Initial(key), steps[..k + 1]);
    assert row in Own(Run(d, Initial(key), steps[..k + 1]), t);
    hide Next;
    if steps[k] == Rollback(t) || steps[k] == Commit(t) || (steps[k].RollbackTo? && steps[k].t == t && steps[k].keep == 0) {
      NothingLeftAfter(d, before, steps[k], t);
    }
  }

  /**
   What a committed row counts as, for any run and any walk: a gap where its columns gave back another payload than
   was hashed; otherwise decided by the key read when the row was signed, the key read when its identifier was noted,
   and the two reads of the walk. Under one key it is then invalid exactly when it was signed under another key than
   that one and the rotation to it came between the row's two reads.
   */
  lemma CommittedRowStanding(signingKey: string, steps: seq<Step>, i: nat, current: string, key: string)
    returns (t: TxId, signed: nat, named: nat)
    requires i < |Run(Advisory, Initial(signingKey), steps).committed|
    ensures var row := Run(Advisory, Initial(signingKey), steps).committed[i];
            && signed < named < |steps| && row.entryHash.Digest?
            && steps[signed] == Sign(t, row.entryHash.payload) && steps[named] == Insert(t, row.payload)
            && Run(Advisory, Initial(signingKey), steps[..named]).nextId == row.id
    ensures var rows := Run(Advisory, Initial(signingKey), steps).committed;
            var under := KeyReads(KeyAfter(signingKey, steps[..signed]), KeyAfter(signingKey, steps[..named]));
            && StandingAt(rows, i, map[], current, key) ==
                 (if steps[signed].payload == steps[named].stored then StandingByReads(under, current, key) else Gap)
            && (StandingOf(rows, i, map[], key) == Invalid <==>
                  && steps[signed].payload == steps[named].stored
                  && under.signedUnder != "" && key != "" && under.namedUnder == key
                  && under.signedUnder != under.namedUnder)
            && (under.signedUnder != under.namedUnder ==> exists k | signed < k < named :: steps[k].RotateTo?)
  {
    EveryInterleavingIsOneChain(Initial(signingKey), steps);
    var rows := Run(Advisory, Initial(signingKey), steps).committed;
    ChainedLinksIffSurvived(rows);
    t, signed, named := RowWasWritten(Advisory, signingKey, steps, rows[i]);
    var under := KeyReads(KeyAfter(signingKey, steps[..signed]), KeyAfter(signingKey, steps[..named]));
    if Survived(rows[i]) {
      StandingComesFromReads(rows, i, under, map[], current, key);
      StandingComesFromReads(rows, i, under, map[], key, key);
    }
    if forall k | signed < k < named :: !steps[k].RotateTo? {
      KeyUnchanged(signingKey, steps, signed, named);
    }
  }

  function OneCall(signed: Payload, stored: Payload, key: string): seq<Step> {
    [Acquire(1), ReadHead(1), Sign(1, signed), RotateTo(key), Insert(1, stored), Commit(1)]
  }

  /** One call from an empty table, whatever the key is rotated to inside it and whatever its columns give back. */
  lemma OneCallCommits(signed: Payload, stored: Payload, before: string, after: string)
    ensures Run(Advisory, Initial(before), OneCall(signed, stored, after)).committed
         == [RowOf(1, Draft(signed, Blank, before), after, stored)]
  {
    var steps := OneCall(signed, stored, after);
    var s2 := Next(Advisory, Next(Advisory, Initial(before), steps[0]), steps[1]);
    var s4 := Next(Advisory, Next(Advisory, s2, steps[2]), steps[3]);
    var s6 := Next(Advisory, Next(Advisory, s4, steps[4]), steps[5]);
    TwoSteps(Advisory, Initial(before), steps);
    TwoSteps(Advisory, s2, steps[2..]);
    TwoSteps(Advisory, s4, steps[4..]);
    assert steps[2..][2..] == steps[4..] && steps[4..][2..] == [];
    assert s2.heads == map[1 := Blank];
    assert s4.drafts == map[1 := Draft(signed, Blank, before)] && s4.key == after;
    hide MakeRow;
    assert s6.committed == [RowOf(1, Draft(signed, Blank, before), after, stored)];
  }

  /** A rotation between the two reads of one call commits a row that links and that the verifier calls invalid. */
  lemma RotationInsideACallReadsAsForgery(payload: Payload, before: string, after: string)
    requires before != "" && after != "" && before != after
    ensures var rows := Run(Advisory, Initial(before), OneCall(payload, payload, after)).committed;
            |rows| == 1 && Linked(rows, 0) && StandingOf(rows, 0, map[], after) == Invalid
  {
    hide Run;
    OneCallCommits(payload, payload, before, after);
  }

  /** Columns that give back another text for what was hashed commit an honest row that the verifier calls broken. */
  lemma RewordedPayloadReadsAsBreak(hashed: Payload, stored: Payload, key: string)
    requires hashed != stored
    ensures var rows := Run(Advisory, Initial(key), OneCall(hashed, stored, key)).committed;
            |rows| == 1 && HonestlySigned(rows[0]) && !Accepted(rows, 0, map[], key)
  {
    hide Run;
    OneCallCommits(hashed, stored, key, key);
  }

  // ---- Without it -------------------------------------------------------------------------------

  /** Two appenders that read the same head before either inserts. */
  function ForkingSteps(a: Payload, b: Payload): seq<Step> {
    [ReadHead(1), ReadHead(2), Sign(1, a), Sign(2, b), Insert(1, a), Insert(2, b), Commit(1), Commit(2)]
  }

  lemma OneStep(d: Discipline, s: State, step: Step)
    ensures Run(d, s, [step]) == Next(d, s, step)
  {
    hide Next;
    assert [step][1..] == [];
  }

  lemma TwoSteps(d: Discipline, s: State, steps: seq<Step>)
    requires |steps| >= 2
    ensures Run(d, s, steps) == Run(d, Next(d, Next(d, s, steps[0]), steps[1]), steps[2..])
  {
    hide Next;
    assert steps[1..][0] == steps[1] && steps[1..][1..] == steps[2..];
  }

  /** Both have read the head of the empty table and signed under it. */
  lemma BothSignUnderTheSameHead(a: Payload, b: Payload, key: string) returns (s4: State)
    ensures s4 == State([], 1, key, None, map[], map[], map[1 := Draft(a, Blank, key), 2 := Draft(b, Blank, key)])
    ensures Run(RowLocksOnly, Initial(key), ForkingSteps(a, b)) == Run(RowLocksOnly, s4, ForkingSteps(a, b)[4..])
  {
    var steps := ForkingSteps(a, b);
    var s2 := Next(RowLocksOnly, Next(RowLocksOnly, Initial(key), steps[0]), steps[1]);
    s4 := Next(RowLocksOnly, Next(RowLocksOnly, s2, steps[2]), steps[3]);
    TwoSteps(RowLocksOnly, Initial(key), steps);
    TwoSteps(RowLocksOnly, s2, steps[2..]);
    assert steps[2..][2..] == steps[4..];
    assert s2.heads == map[1 := Blank, 2 := Blank];
  }

  /** Without the lock the same two calls can fork the chain, and the verifier then names the second row. */
  lemma RowLocksAloneFork(a: Payload, b: Payload, key: string)
    ensures var rows := Run(RowLocksOnly, Initial(key), ForkingSteps(a, b)).committed;
            && |rows| == 2 && rows[0].prevHash == rows[1].prevHash
            && Linked(rows, 0) && !Accepted(rows, 1, map[], key)
  {
    var rest := ForkingSteps(a, b)[4..];
    var s4 := BothSignUnderTheSameHead(a, b, key);
    var s6 := Next(RowLocksOnly, Next(RowLocksOnly, s4, rest[0]), rest[1]);
    var s7 := Next(RowLocksOnly, s6, rest[2]);
    var s8 := Next(RowLocksOnly, s7, rest[3]);
    TwoSteps(RowLocksOnly, s4, rest);
    TwoSteps(RowLocksOnly, s6, rest[2..]);
    assert rest[2..][2..] == [];
    var x, y := MakeRow(1, a, Blank, key, key), MakeRow(2, b, Blank, key, key);
    assert Own(s6, 1) == [x] && Own(s6, 2) == [y];
    assert s7.committed == [x] && Own(s7, 2) == [y];
    assert MergeById([x], [y]) == [x] + MergeById([], [y]);
    assert s8.committed == [x, y];
  }
}
