/**
 Concurrent appenders of custody events as a state machine: one table, one chain and one advisory lock per collection
 run. A transaction may hold several locks and append to several chains before it commits or rolls back. Entries are
 in id order, each with the transaction that has not committed it yet, if there is one.
 */
module CustodyRuns {
  import opened Common
  import opened Ledger
  import opened CustodyChain

  type TxId = nat

  datatype Entry = Entry(event: CustodyEvent, owner: Option<TxId>)

  /** The head of a run's chain as a transaction has read it and not used it yet. */
  datatype Read = Read(run: nat, head: Hash)

  datatype State = State(entries: seq<Entry>, nextId: nat, locks: map<nat, TxId>, heads: map<TxId, Read>)

  /** An insert's `stored` is what its columns will give back; `released` are the runs locked after the savepoint. */
  datatype Step =
    | Acquire(t: TxId, run: nat)
    | ReadHead(t: TxId, run: nat)
    | Insert(t: TxId, actor: string, hashed: Payload, stored: Payload, key: string)
    | Commit(t: TxId)
    | Rollback(t: TxId)
    | RollbackTo(t: TxId, savepoint: nat, released: set<nat>)

  function Initial(): State {
    State([], 1, map[], map[])
  }

  function Keeping(entries: seq<Entry>, keep: Entry -> bool): (kept: seq<Entry>)
    ensures forall e | e in kept :: e in entries && keep(e)
  {
    if entries == [] then []
    else
      var n := |entries| - 1;
      Keeping(entries[..n], keep) + if keep(entries[n]) then [entries[n]] else []
  }

  /** The rows of one run's chain, in id order. */
  function RowsOf(entries: seq<Entry>, run: nat): seq<Row> {
    if entries == [] then []
    else
      var n := |entries| - 1;
      RowsOf(entries[..n], run) + if entries[n].event.run == run then [entries[n].event.row] else []
  }

  function IsCommitted(): Entry -> bool {
    (e: Entry) => e.owner == None
  }

  function SeenBy(t: TxId): Entry -> bool {
    (e: Entry) => e.owner == None || e.owner == Some(t)
  }

  /** What is left when a transaction takes back what it inserted from a savepoint on. */
  function LeftBy(t: TxId, savepoint: nat): Entry -> bool {
    (e: Entry) => !(e.owner == Some(t) && e.event.row.id >= savepoint)
  }

  function Settle(entries: seq<Entry>, t: TxId): (settled: seq<Entry>)
    ensures |settled| == |entries|
    ensures forall i | 0 <= i < |entries| ::
              settled[i] == if entries[i].owner == Some(t) then entries[i].(owner := None) else entries[i]
  {
    seq(|entries|, i requires 0 <= i < |entries| =>
      if entries[i].owner == Some(t) then entries[i].(owner := None) else entries[i])
  }

  function Unlock(locks: map<nat, TxId>, t: TxId): map<nat, TxId> {
    map run | run in locks && locks[run] != t :: locks[run]
  }

  function Holds(s: State, t: TxId, run: nat): bool {
    run in s.locks && s.locks[run] == t
  }

  function Head(rows: seq<Row>): Hash {
    PrevOf(rows, |rows|)
  }

  function EventOf(id: nat, read: Read, actor: string, hashed: Payload, stored: Payload, key: string): CustodyEvent {
    CustodyEvent(read.run, actor, Row(id, stored, read.head, Digest(read.head, hashed), NoTag, KeyIdOf(key)))
  }

  /** Nothing of the transaction's is left in the run once the savepoint is rolled back to. */
  predicate NothingLeft(entries: seq<Entry>, t: TxId, savepoint: nat, run: nat) {
    forall i | 0 <= i < |entries| :: entries[i].owner == Some(t) && entries[i].event.run == run ==>
                                       entries[i].event.row.id >= savepoint
  }

  function Next(s: State, step: Step): State {
    match step
    case Acquire(t, run) => if run in s.locks then s else s.(locks := s.locks[run := t])
    case ReadHead(t, run) =>
      if !Holds(s, t, run) then s
      else s.(heads := s.heads[t := Read(run, Head(RowsOf(Keeping(s.entries, SeenBy(t)), run)))])
    case Insert(t, actor, hashed, stored, key) =>
      if t !in s.heads then s
      else
        s.(entries := s.entries + [Entry(EventOf(s.nextId, s.heads[t], actor, hashed, stored, key), Some(t))],
           nextId := s.nextId + 1, heads := s.heads - {t})
    case Commit(t) => State(Settle(s.entries, t), s.nextId, Unlock(s.locks, t), s.heads - {t})
    case Rollback(t) => State(Keeping(s.entries, LeftBy(t, 0)), s.nextId, Unlock(s.locks, t), s.heads - {t})
    case RollbackTo(t, savepoint, released) =>
      if forall run | run in released :: Holds(s, t, run) && NothingLeft(s.entries, t, savepoint, run) then
        State(Keeping(s.entries, LeftBy(t, savepoint)), s.nextId, s.locks - released, s.heads - {t})
      else s
  }

  function Run(s: State, steps: seq<Step>): State
    decreases |steps|
  {
    if steps == [] then s else Run(Next(s, steps[0]), steps[1..])
  }

  function ChainAmong(entries: seq<Entry>, run: nat): seq<Row> {
    RowsOf(Keeping(entries, IsCommitted()), run)
  }

  /** The committed chain of one run. */
  function ChainIn(s: State, run: nat): seq<Row> {
    ChainAmong(s.entries, run)
  }

  // ---- Filtering and chains -----------------------------------------------------------------------

  lemma {:induction false} KeepAll(entries: seq<Entry>, keep: Entry -> bool, run: nat)
    requires forall e | e in entries && e.event.run == run :: keep(e)
    ensures RowsOf(Keeping(entries, keep), run) == RowsOf(entries, run)
  {
    if entries != [] {
      var n := |entries| - 1;
      KeepAll(entries[..n], keep, run);
      KeepStep(entries, keep, run);
    }
  }

  lemma RowsStep(before: seq<Entry>, e: Entry, run: nat)
    ensures RowsOf(before + [e], run) == RowsOf(before, run) + if e.event.run == run then [e.event.row] else []
  {
    assert (before + [e])[..|before|] == before;
  }

  lemma KeepingStep(before: seq<Entry>, e: Entry, keep: Entry -> bool)
    ensures Keeping(before + [e], keep) == Keeping(before, keep) + if keep(e) then [e] else []
  {
    assert (before + [e])[..|before|] == before;
  }

  lemma KeepStep(entries: seq<Entry>, keep: Entry -> bool, run: nat)
    requires entries != []
    ensures var n := |entries| - 1;
            && entries[n] in entries
            && RowsOf(Keeping(entries, keep), run) ==
                 RowsOf(Keeping(entries[..n], keep), run) +
                 if keep(entries[n]) && entries[n].event.run == run then [entries[n].event.row] else []
  {
    var n := |entries| - 1;
    var before := Keeping(entries[..n], keep);
    if keep(entries[n]) {
      RowsStep(before, entries[n], run);
    } else {
      assert Keeping(entries, keep) == before;
    }
  }

  /** Once an entry of a run is dropped, so is every later one of that run. */
  ghost predicate DropsATail(entries: seq<Entry>, keep: Entry -> bool, run: nat) {
    forall i, j | 0 <= i < j < |entries| && entries[i].event.run == run == entries[j].event.run ::
      !keep(entries[i]) ==> !keep(entries[j])
  }

  lemma {:induction false} KeepPrefix(entries: seq<Entry>, keep: Entry -> bool, run: nat)
    requires DropsATail(entries, keep, run)
    ensures RowsOf(Keeping(entries, keep), run) <= RowsOf(entries, run)
  {
    if entries != [] {
      var n := |entries| - 1;
      KeepStep(entries, keep, run);
      if keep(entries[n]) && entries[n].event.run == run {
        KeepAll(entries[..n], keep, run);
      } else {
        KeepPrefix(entries[..n], keep, run);
      }
    }
  }

  lemma {:induction false} KeepFewer(entries: seq<Entry>, fewer: Entry -> bool, more: Entry -> bool, run: nat)
    requires forall e | e in entries :: fewer(e) ==> more(e)
    ensures |RowsOf(Keeping(entries, fewer), run)| <= |RowsOf(Keeping(entries, more), run)|
  {
    if entries != [] {
      KeepFewer(entries[..|entries| - 1], fewer, more, run);
      KeepStep(entries, fewer, run);
      KeepStep(entries, more, run);
    }
  }

  lemma {:induction false} KeepTwice(entries: seq<Entry>, first: Entry -> bool, second: Entry -> bool)
    requires forall e | e in entries :: second(e) ==> first(e)
    ensures Keeping(Keeping(entries, first), second) == Keeping(entries, second)
  {
    if entries != [] {
      var n := |entries| - 1;
      var before, e := entries[..n], entries[n];
      KeepTwice(before, first, second);
      assert entries == before + [e] && e in entries;
      KeepingStep(before, e, first);
      KeepingStep(before, e, second);
      hide Keeping;
      if first(e) {
        KeepingStep(Keeping(before, first), e, second);
      } else {
        assert Keeping(before, first) + [] == Keeping(before, first);
        assert Keeping(before, second) + [] == Keeping(before, second);
      }
    }
  }

  /** Owners make no difference to a chain. */
  lemma {:induction false} SettleKeepsRows(entries: seq<Entry>, t: TxId, run: nat)
    ensures RowsOf(Settle(entries, t), run) == RowsOf(entries, run)
    ensures RowsOf(Keeping(Settle(entries, t), IsCommitted()), run) == RowsOf(Keeping(entries, SeenBy(t)), run)
  {
    if entries != [] {
      var n := |entries| - 1;
      SettleKeepsRows(entries[..n], t, run);
      assert Settle(entries, t)[..n] == Settle(entries[..n], t);
      KeepStep(entries, SeenBy(t), run);
      KeepStep(Settle(entries, t), IsCommitted(), run);
    }
  }

  // ---- What every step keeps ----------------------------------------------------------------------

  ghost predicate IdsInOrder(entries: seq<Entry>, nextId: nat) {
    && (forall i, j | 0 <= i < j < |entries| :: entries[i].event.row.id < entries[j].event.row.id)
    && forall e | e in entries :: e.event.row.id < nextId
  }

  /** What is not committed belongs to the holder of its run's lock, and nothing committed comes after it in its chain. */
  ghost predicate Guarded(entries: seq<Entry>, locks: map<nat, TxId>) {
    && (forall e | e in entries && e.owner.Some? :: e.event.run in locks && locks[e.event.run] == e.owner.value)
    && forall i, j | 0 <= i < j < |entries| && entries[i].event.run == entries[j].event.run ::
         entries[i].owner.Some? ==> entries[j].owner.Some?
  }

  ghost predicate HeadsFit(s: State) {
    forall t | t in s.heads ::
      Holds(s, t, s.heads[t].run) && s.heads[t].head == Head(RowsOf(s.entries, s.heads[t].run))
  }

  ghost predicate Sound(s: State) {
    && (forall run: nat :: Chained(RowsOf(s.entries, run)))
    && IdsInOrder(s.entries, s.nextId) && Guarded(s.entries, s.locks) && HeadsFit(s)
  }

  lemma HolderSeesItsChain(s: State, t: TxId, run: nat)
    requires Sound(s) && Holds(s, t, run)
    ensures RowsOf(Keeping(s.entries, SeenBy(t)), run) == RowsOf(s.entries, run)
  {
    KeepAll(s.entries, SeenBy(t), run);
  }

  lemma CommittedIsAPrefix(s: State, run: nat)
    requires Sound(s)
    ensures ChainIn(s, run) <= RowsOf(s.entries, run) && Chained(ChainIn(s, run))
  {
    KeepPrefix(s.entries, IsCommitted(), run);
    var all, committed := RowsOf(s.entries, run), ChainIn(s, run);
    PrefixChained(all, |committed|);
    assert all[..|committed|] == committed;
  }

  lemma InsertKeepsGuarded(s: State, e: Entry)
    requires Sound(s) && e.owner.Some? && Holds(s, e.owner.value, e.event.run) && e.event.row.id == s.nextId
    ensures Guarded(s.entries + [e], s.locks) && IdsInOrder(s.entries + [e], s.nextId + 1)
  {
    hide Chained, RowsOf;
  }

  lemma InsertKeepsChains(s: State, e: Entry, run: nat)
    requires Sound(s) && e.owner.Some?
    requires e.event.row.prevHash == Head(RowsOf(s.entries, e.event.run))
    requires e.event.row.entryHash.Digest? && e.event.row.entryHash.prev == e.event.row.prevHash
    ensures RowsOf(s.entries + [e], run) == RowsOf(s.entries, run) + if run == e.event.run then [e.event.row] else []
    ensures Chained(RowsOf(s.entries + [e], run))
    ensures ChainAmong(s.entries + [e], run) == ChainAmong(s.entries, run)
  {
    RowsStep(s.entries, e, run);
    KeepingStep(s.entries, e, IsCommitted());
    assert Keeping(s.entries + [e], IsCommitted()) == Keeping(s.entries, IsCommitted());
    hide RowsOf, Keeping, IdsInOrder, Guarded, HeadsFit;
    if run == e.event.run {
      AppendKeepsChained(RowsOf(s.entries, run), e.event.row);
    }
  }

  lemma InsertKeepsSound(s: State, t: TxId, actor: string, hashed: Payload, stored: Payload, key: string)
    requires Sound(s)
    ensures Sound(Next(s, Insert(t, actor, hashed, stored, key)))
    ensures forall run: nat :: ChainIn(s, run) == ChainIn(Next(s, Insert(t, actor, hashed, stored, key)), run)
  {
    if t in s.heads {
      var e := Entry(EventOf(s.nextId, s.heads[t], actor, hashed, stored, key), Some(t));
      InsertKeepsGuarded(s, e);
      InsertKeepsHeads(s, t, e);
      hide Chained, RowsOf, Keeping, IdsInOrder, Guarded, ChainAmong, HeadsFit;
      forall run: nat
        ensures Chained(RowsOf(s.entries + [e], run))
        ensures ChainAmong(s.entries + [e], run) == ChainAmong(s.entries, run)
      {
        InsertKeepsChains(s, e, run);
      }
    }
  }

  lemma InsertKeepsHeads(s: State, t: TxId, e: Entry)
    requires Sound(s) && t in s.heads && e.event.run == s.heads[t].run
    ensures HeadsFit(State(s.entries + [e], s.nextId + 1, s.locks, s.heads - {t}))
  {
    OneHeadARun(s, t);
    hide Chained, RowsOf, Keeping, IdsInOrder, Guarded;
    forall u | u in s.heads && u != t
      ensures RowsOf(s.entries + [e], s.heads[u].run) == RowsOf(s.entries, s.heads[u].run)
    {
      RowsStep(s.entries, e, s.heads[u].run);
    }
  }

  /** Two transactions never have the head of one run at the same time. */
  lemma OneHeadARun(s: State, t: TxId)
    requires HeadsFit(s) && t in s.heads
    ensures forall u | u in s.heads && u != t :: s.heads[u].run != s.heads[t].run
  {
  }

  lemma PrefixOfChained(all: seq<Row>, rows: seq<Row>)
    requires Chained(all) && rows <= all
    ensures Chained(rows)
  {
    PrefixChained(all, |rows|);
    assert all[..|rows|] == rows;
  }

  lemma TakingBackKeepsChains(s: State, t: TxId, savepoint: nat, run: nat)
    requires Sound(s)
    ensures Chained(RowsOf(Keeping(s.entries, LeftBy(t, savepoint)), run))
    ensures ChainAmong(Keeping(s.entries, LeftBy(t, savepoint)), run) == ChainAmong(s.entries, run)
  {
    TailIsDropped(s, t, savepoint, run);
    TakingBackKeepsCommitted(s.entries, t, savepoint);
    hide LeftBy, RowsOf, Keeping, Chained, IdsInOrder, Guarded, HeadsFit, DropsATail;
    KeepPrefix(s.entries, LeftBy(t, savepoint), run);
    PrefixOfChained(RowsOf(s.entries, run), RowsOf(Keeping(s.entries, LeftBy(t, savepoint)), run));
  }

  lemma TakingBackKeepsCommitted(entries: seq<Entry>, t: TxId, savepoint: nat)
    ensures Keeping(Keeping(entries, LeftBy(t, savepoint)), IsCommitted()) == Keeping(entries, IsCommitted())
  {
    hide Keeping;
    KeepTwice(entries, LeftBy(t, savepoint), IsCommitted());
  }

  lemma TakingBackKeepsHead(s: State, t: TxId, savepoint: nat, u: TxId)
    requires Sound(s) && u in s.heads && u != t
    ensures RowsOf(Keeping(s.entries, LeftBy(t, savepoint)), s.heads[u].run) == RowsOf(s.entries, s.heads[u].run)
  {
    hide RowsOf, Keeping, Chained, IdsInOrder;
    KeepAll(s.entries, LeftBy(t, savepoint), s.heads[u].run);
  }

  lemma TakingBackKeepsGuarded(s: State, t: TxId, savepoint: nat, locks: map<nat, TxId>)
    requires Sound(s)
    requires forall run | run in locks :: run in s.locks && locks[run] == s.locks[run]
    requires forall run | run in s.locks && run !in locks :: s.locks[run] == t && NothingLeft(s.entries, t, savepoint, run)
    ensures Guarded(Keeping(s.entries, LeftBy(t, savepoint)), locks)
  {
    var left := Keeping(s.entries, LeftBy(t, savepoint));
    KeptGuarded(s.entries, LeftBy(t, savepoint), s.locks);
    hide Keeping, RowsOf, Chained, IdsInOrder, HeadsFit;
    forall e | e in left && e.owner.Some?
      ensures e.event.run in locks && locks[e.event.run] == e.owner.value
    {
      var i :| 0 <= i < |s.entries| && s.entries[i] == e;
    }
  }

  lemma TakingBackKeepsSound(s: State, t: TxId, savepoint: nat, locks: map<nat, TxId>, heads: map<TxId, Read>)
    requires Sound(s)
    requires forall run | run in locks :: run in s.locks && locks[run] == s.locks[run]
    requires forall run | run in s.locks && run !in locks :: s.locks[run] == t && NothingLeft(s.entries, t, savepoint, run)
    requires heads == s.heads - {t}
    ensures Sound(State(Keeping(s.entries, LeftBy(t, savepoint)), s.nextId, locks, heads))
    ensures forall run: nat ::
              ChainIn(State(Keeping(s.entries, LeftBy(t, savepoint)), s.nextId, locks, heads), run) == ChainIn(s, run)
  {
    var left := Keeping(s.entries, LeftBy(t, savepoint));
    KeptInOrder(s.entries, LeftBy(t, savepoint), s.nextId);
    TakingBackKeepsGuarded(s, t, savepoint, locks);
    hide Keeping, RowsOf, Chained, IdsInOrder, Guarded, NothingLeft, ChainAmong;
    forall run: nat
      ensures Chained(RowsOf(left, run))
      ensures ChainAmong(left, run) == ChainAmong(s.entries, run)
    {
      TakingBackKeepsChains(s, t, savepoint, run);
    }
    forall u | u in heads
      ensures RowsOf(left, heads[u].run) == RowsOf(s.entries, heads[u].run)
    {
      TakingBackKeepsHead(s, t, savepoint, u);
    }
  }

  lemma TailIsDropped(s: State, t: TxId, savepoint: nat, run: nat)
    requires Sound(s)
    ensures DropsATail(s.entries, LeftBy(t, savepoint), run)
  {
    var es := s.entries;
    forall i, j | 0 <= i < j < |es| && es[i].event.run == run == es[j].event.run && !LeftBy(t, savepoint)(es[i])
      ensures !LeftBy(t, savepoint)(es[j])
    {
      assert es[i] in es && es[j] in es;
    }
  }

  lemma {:induction false} KeptInOrder(entries: seq<Entry>, keep: Entry -> bool, nextId: nat)
    requires IdsInOrder(entries, nextId)
    ensures IdsInOrder(Keeping(entries, keep), nextId)
  {
    if entries != [] {
      var n := |entries| - 1;
      assert entries[n] in entries;
      KeptInOrder(entries[..n], keep, nextId);
      forall e | e in Keeping(entries[..n], keep)
        ensures e.event.row.id < entries[n].event.row.id
      {
        var i :| 0 <= i < n && entries[..n][i] == e;
      }
    }
  }

  lemma {:induction false} KeptGuarded(entries: seq<Entry>, keep: Entry -> bool, locks: map<nat, TxId>)
    requires Guarded(entries, locks)
    ensures Guarded(Keeping(entries, keep), locks)
  {
    if entries != [] {
      var n := |entries| - 1;
      assert entries[n] in entries;
      assert Guarded(entries[..n], locks);
      KeptGuarded(entries[..n], keep, locks);
      forall e | e in Keeping(entries[..n], keep) && e.event.run == entries[n].event.run && e.owner.Some?
        ensures entries[n].owner.Some?
      {
        var i :| 0 <= i < n && entries[..n][i] == e;
      }
    }
  }

  lemma CommitExtends(s: State, t: TxId, run: nat)
    requires Sound(s)
    ensures RowsOf(Settle(s.entries, t), run) == RowsOf(s.entries, run)
    ensures ChainAmong(s.entries, run) <= ChainAmong(Settle(s.entries, t), run)
  {
    SettleKeepsRows(s.entries, t, run);
    SeenDropsATail(s, t, run);
    KeepPrefix(s.entries, SeenBy(t), run);
    KeepPrefix(s.entries, IsCommitted(), run);
    KeepFewer(s.entries, IsCommitted(), SeenBy(t), run);
    hide RowsOf, Keeping, Settle, Chained, IdsInOrder, Guarded, HeadsFit;
  }

  lemma SettledInOrder(entries: seq<Entry>, t: TxId, nextId: nat)
    requires IdsInOrder(entries, nextId)
    ensures IdsInOrder(Settle(entries, t), nextId)
  {
    var settled := Settle(entries, t);
    forall e | e in settled ensures e.event.row.id < nextId {
      var i :| 0 <= i < |settled| && settled[i] == e;
      assert entries[i] in entries;
    }
  }

  lemma CommitKeepsSound(s: State, t: TxId)
    requires Sound(s)
    ensures Sound(Next(s, Commit(t)))
    ensures forall run: nat :: ChainIn(s, run) <= ChainIn(Next(s, Commit(t)), run)
  {
    SettledIsGuarded(s, t);
    SettledInOrder(s.entries, t, s.nextId);
    SettledHeadsFit(s, t);
    hide RowsOf, Keeping, Settle, Chained, IdsInOrder, Guarded, HeadsFit, ChainAmong, Unlock;
    forall run: nat
      ensures RowsOf(Settle(s.entries, t), run) == RowsOf(s.entries, run)
      ensures ChainAmong(s.entries, run) <= ChainAmong(Settle(s.entries, t), run)
    {
      CommitExtends(s, t, run);
    }
  }

  lemma SettledHeadsFit(s: State, t: TxId)
    requires Sound(s)
    ensures HeadsFit(State(Settle(s.entries, t), s.nextId, Unlock(s.locks, t), s.heads - {t}))
  {
    hide RowsOf, Keeping, Settle, Chained, IdsInOrder, Guarded;
    forall u | u in s.heads && u != t
      ensures RowsOf(Settle(s.entries, t), s.heads[u].run) == RowsOf(s.entries, s.heads[u].run)
    {
      SettleKeepsRows(s.entries, t, s.heads[u].run);
    }
  }

  lemma SeenDropsATail(s: State, t: TxId, run: nat)
    requires Sound(s)
    ensures DropsATail(s.entries, SeenBy(t), run) && DropsATail(s.entries, IsCommitted(), run)
  {
    var es := s.entries;
    forall i, j | 0 <= i < j < |es| && es[i].event.run == run == es[j].event.run && es[i].owner.Some?
      ensures es[j].owner == es[i].owner
    {
      assert es[i] in es && es[j] in es;
    }
  }

  lemma SettledIsGuarded(s: State, t: TxId)
    requires Sound(s)
    ensures Guarded(Settle(s.entries, t), Unlock(s.locks, t))
  {
    var es, settled := s.entries, Settle(s.entries, t);
    forall e | e in settled && e.owner.Some?
      ensures e.event.run in Unlock(s.locks, t) && Unlock(s.locks, t)[e.event.run] == e.owner.value
    {
      var i :| 0 <= i < |settled| && settled[i] == e;
      assert es[i] in es;
    }
    forall i, j | 0 <= i < j < |settled| && settled[i].event.run == settled[j].event.run && settled[i].owner.Some?
      ensures settled[j].owner.Some?
    {
      assert es[i] in es && es[j] in es;
    }
  }

  lemma LockingKeepsSound(s: State, step: Step)
    requires Sound(s) && (step.Acquire? || step.ReadHead?)
    ensures Sound(Next(s, step)) && Next(s, step).entries == s.entries
  {
    hide RowsOf, Keeping, Chained, IdsInOrder;
    if step.ReadHead? && Holds(s, step.t, step.run) {
      HolderSeesItsChain(s, step.t, step.run);
    }
  }

  lemma StepKeepsSound(s: State, step: Step)
    requires Sound(s)
    ensures Sound(Next(s, step))
    ensures forall run: nat :: ChainIn(s, run) <= ChainIn(Next(s, step), run)
  {
    if step.Acquire? || step.ReadHead? {
      LockingKeepsSound(s, step);
      hide Sound, ChainAmong;
    } else {
      hide Sound, ChainAmong, Keeping, RowsOf;
      match step
      case Insert(t, actor, hashed, stored, key) => InsertKeepsSound(s, t, actor, hashed, stored, key);
      case Commit(t) => CommitKeepsSound(s, t);
      case Rollback(t) => TakingBackKeepsSound(s, t, 0, Unlock(s.locks, t), s.heads - {t});
      case RollbackTo(t, savepoint, released) =>
        if forall run | run in released :: Holds(s, t, run) && NothingLeft(s.entries, t, savepoint, run) {
          TakingBackKeepsSound(s, t, savepoint, s.locks - released, s.heads - {t});
        }
    }
  }

  // ---- Every interleaving -------------------------------------------------------------------------

  /**
   Whatever transactions do and however they interleave, over any number of runs in one table: each run's committed
   events in id order form one chain that is only ever extended, and it verifies exactly when every payload survived
   its columns.
   */
  lemma {:induction false} EveryInterleavingKeepsEveryChain(s: State, steps: seq<Step>, run: nat)
    requires Sound(s)
    ensures var s' := Run(s, steps);
            && Sound(s') && ChainIn(s, run) <= ChainIn(s', run) && Chained(ChainIn(s', run))
            && (Verifies(ChainIn(s', run)) <==> forall i | 0 <= i < |ChainIn(s', run)| :: Survived(ChainIn(s', run)[i]))
    decreases |steps|
  {
    if steps == [] {
      CommittedIsAPrefix(s, run);
      ChainedLinksIffSurvived(ChainIn(s, run));
    } else {
      StepKeepsSound(s, steps[0]);
      EveryInterleavingKeepsEveryChain(Next(s, steps[0]), steps[1..], run);
    }
  }

  /** The committed events as the table holds them. */
  function CommittedEvents(s: State): seq<CustodyEvent> {
    var committed := Keeping(s.entries, IsCommitted());
    seq(|committed|, i requires 0 <= i < |committed| => committed[i].event)
  }

  lemma {:induction false} ChainOfEvents(entries: seq<Entry>, events: seq<CustodyEvent>, run: nat)
    requires |events| == |entries| && forall i | 0 <= i < |entries| :: events[i] == entries[i].event
    ensures ChainOf(events, run) == RowsOf(entries, run)
  {
    if entries != [] {
      ChainOfEvents(entries[..|entries| - 1], events[..|entries| - 1], run);
    }
  }

  /** From an empty table, no two committed events of a run follow the same one, whatever the columns give back. */
  lemma NoRunForks(steps: seq<Step>, run: nat, i: nat, j: nat)
    requires i < j < |ChainOf(CommittedEvents(Run(Initial(), steps)), run)|
    ensures var chain := ChainOf(CommittedEvents(Run(Initial(), steps)), run);
            chain[i].prevHash != chain[j].prevHash && chain[i].entryHash != chain[j].entryHash
  {
    var s := Run(Initial(), steps);
    EveryInterleavingKeepsEveryChain(Initial(), steps, run);
    ChainOfEvents(Keeping(s.entries, IsCommitted()), CommittedEvents(s), run);
    ChainedHasNoFork(ChainIn(s, run), i, j);
  }

  lemma {:induction false} RunSplit(s: State, steps: seq<Step>)
    requires steps != []
    ensures Run(s, steps) == Next(Run(s, steps[..|steps| - 1]), steps[|steps| - 1])
    decreases |steps|
  {
    hide Next;
    if |steps| == 1 {
      assert steps[1..] == [] && steps[..0] == [];
    } else {
      var before := steps[..|steps| - 1];
      RunSplit(Next(s, steps[0]), steps[1..]);
      assert before[1..] == steps[1..][..|steps| - 2] && before[0] == steps[0];
    }
  }

  /** The event is among the transaction's uncommitted ones after each of the steps from one to another. */
  ghost predicate Pending(steps: seq<Step>, t: TxId, event: CustodyEvent, from: nat, to: nat)
    requires to <= |steps|
  {
    forall k | from < k <= to :: Entry(event, Some(t)) in Run(Initial(), steps[..k]).entries
  }

  lemma PendingInLonger(steps: seq<Step>, n: nat, t: TxId, event: CustodyEvent, from: nat, to: nat)
    requires to <= n <= |steps| && Pending(steps[..n], t, event, from, to)
    ensures Pending(steps, t, event, from, to)
  {
    forall k | from < k <= to ensures Entry(event, Some(t)) in Run(Initial(), steps[..k]).entries {
      assert steps[..n][..k] == steps[..k];
    }
  }

  /** The step inserted the event: for the run whose head the transaction had read, under that head. */
  ghost predicate Inserted(steps: seq<Step>, t: TxId, event: CustodyEvent, at: nat) {
    && at < |steps| && steps[at].Insert? && steps[at].t == t
    && var s, step := Run(Initial(), steps[..at]), steps[at];
    && t in s.heads && s.heads[t] == Read(event.run, event.row.prevHash)
    && event.actor == step.actor && event.row.id == s.nextId && event.row.payload == step.stored
    && event.row.entryHash == Digest(event.row.prevHash, step.hashed) && event.row.signature == NoTag
    && event.row.sigKeyId == if step.key == "" then NoKeyId else IdOf(step.key)
  }

  /** What a step can do to an entry: insert it, settle it, or leave it. */
  lemma EntryAfterStep(s: State, step: Step, e: Entry)
    requires e in Next(s, step).entries && e !in s.entries
    ensures step.Insert? || step.Commit?
    ensures step.Insert? ==>
              && step.t in s.heads && e.owner == Some(step.t)
              && e.event == EventOf(s.nextId, s.heads[step.t], step.actor, step.hashed, step.stored, step.key)
    ensures step.Commit? ==> e.owner == None && Entry(e.event, Some(step.t)) in s.entries
  {
    hide EventOf;
    if step.Commit? {
      var settled := Settle(s.entries, step.t);
      var i :| 0 <= i < |settled| && settled[i] == e;
      assert s.entries[i] in s.entries;
    }
  }

  lemma {:induction false} PendingEventWasInserted(steps: seq<Step>, t: TxId, event: CustodyEvent) returns (at: nat)
    requires Entry(event, Some(t)) in Run(Initial(), steps).entries
    ensures Inserted(steps, t, event, at) && Pending(steps, t, event, at, |steps|)
    decreases |steps|
  {
    var n := |steps| - 1;
    RunSplit(Initial(), steps);
    assert steps[..|steps|] == steps;
    if Entry(event, Some(t)) in Run(Initial(), steps[..n]).entries {
      at := PendingEventWasInserted(steps[..n], t, event);
      assert steps[..n][..at] == steps[..at];
      PendingInLonger(steps, n, t, event, at, n);
    } else {
      at := n;
      EntryAfterStep(Run(Initial(), steps[..n]), steps[n], Entry(event, Some(t)));
    }
  }

  lemma {:induction false} KeptExactly(entries: seq<Entry>, keep: Entry -> bool, e: Entry)
    ensures e in Keeping(entries, keep) <==> e in entries && keep(e)
  {
    if entries != [] {
      KeptExactly(entries[..|entries| - 1], keep, e);
      assert entries == entries[..|entries| - 1] + [entries[|entries| - 1]];
    }
  }

  /**
   A savepoint takes back exactly what the transaction inserted since, with the locks it took since, where none of
   these guards an event inserted before.
   */
  lemma SavepointTakesBack(s: State, t: TxId, savepoint: nat, released: set<nat>, e: Entry)
    requires forall run | run in released :: run in s.locks && s.locks[run] == t
    requires forall x | x in s.entries && x.owner == Some(t) && x.event.run in released :: x.event.row.id >= savepoint
    ensures var after := Next(s, RollbackTo(t, savepoint, released));
            && (e in after.entries <==> e in s.entries && (e.owner == Some(t) ==> e.event.row.id < savepoint))
            && (forall run :: run in after.locks <==> run in s.locks && run !in released)
            && (forall run | run in after.locks :: after.locks[run] == s.locks[run])
            && after.nextId == s.nextId && t !in after.heads
            && forall u | u != t :: (u in after.heads <==> u in s.heads) && (u in s.heads ==> after.heads[u] == s.heads[u])
  {
    KeptExactly(s.entries, LeftBy(t, savepoint), e);
    assert forall i | 0 <= i < |s.entries| :: s.entries[i] in s.entries;
  }

  /** Taking back everything, or committing, leaves a transaction no uncommitted event. */
  lemma NoneLeftAfter(s: State, step: Step, t: TxId, e: Entry)
    requires step == Rollback(t) || step == Commit(t)
    requires e in Next(s, step).entries
    ensures e.owner != Some(t)
  {
  }

  lemma PendingSurvives(steps: seq<Step>, t: TxId, event: CustodyEvent, from: nat, to: nat, k: nat)
    requires from < k < to <= |steps| && Pending(steps, t, event, from, to)
    ensures steps[k] != Rollback(t) && steps[k] != Commit(t)
  {
    assert steps[..k + 1][..k] == steps[..k];
    RunSplit(Initial(), steps[..k + 1]);
    hide Next;
    assert Entry(event, Some(t)) in Run(Initial(), steps[..k + 1]).entries;
    if steps[k] == Rollback(t) || steps[k] == Commit(t) {
      NoneLeftAfter(Run(Initial(), steps[..k]), steps[k], t, Entry(event, Some(t)));
    }
  }

  /**
   A committed event was inserted, for the run whose head its transaction had read and under that head, by a
   transaction that went on to commit; in between it neither committed nor rolled back, and no savepoint took the
   event back.
   */
  lemma {:induction false} CommittedEventWasCommitted(steps: seq<Step>, event: CustodyEvent)
    returns (t: TxId, at: nat, committed: nat)
    requires Entry(event, None) in Run(Initial(), steps).entries
    ensures at < committed < |steps| && Inserted(steps, t, event, at) && steps[committed] == Commit(t)
    ensures Pending(steps, t, event, at, committed)
    ensures forall k | at < k < committed :: steps[k] != Rollback(t) && steps[k] != Commit(t)
    decreases |steps|
  {
    hide Next;
    var n := |steps| - 1;
    RunSplit(Initial(), steps);
    if Entry(event, None) in Run(Initial(), steps[..n]).entries {
      t, at, committed := CommittedEventWasCommitted(steps[..n], event);
      assert steps[..n][..at] == steps[..at];
    } else {
      EntryAfterStep(Run(Initial(), steps[..n]), steps[n], Entry(event, None));
      t, committed := steps[n].t, n;
      at := PendingEventWasInserted(steps[..n], t, event);
      assert steps[..n][..at] == steps[..at];
    }
    PendingInLonger(steps, n, t, event, at, committed);
    forall k | at < k < committed ensures steps[k] != Rollback(t) && steps[k] != Commit(t) {
      PendingSurvives(steps, t, event, at, committed, k);
    }
  }

  lemma {:induction false} KeepEverything(entries: seq<Entry>, keep: Entry -> bool)
    requires forall e | e in entries :: keep(e)
    ensures Keeping(entries, keep) == entries
  {
    if entries != [] {
      var before, e := entries[..|entries| - 1], entries[|entries| - 1];
      assert entries == before + [e] && e in entries;
      KeepEverything(before, keep);
      KeepingStep(before, e, keep);
      hide Keeping;
    }
  }

  /** One uncontended call (lock, read the head, insert, commit) appends exactly the event that head calls for. */
  lemma CallAppendsOneEvent(s: State, t: TxId, run: nat, actor: string, payload: Payload, key: string)
    requires run !in s.locks && forall e | e in s.entries :: e.owner == None
    ensures var after := Run(s, [Acquire(t, run), ReadHead(t, run), Insert(t, actor, payload, payload, key), Commit(t)]);
            var chain := ChainIn(s, run);
            CommittedEvents(after) == CommittedEvents(s) +
              [CustodyEvent(run, actor,
                            Row(s.nextId, payload, Head(chain), Digest(Head(chain), payload), NoTag, KeyIdOf(key)))]
  {
    var e := Entry(EventOf(s.nextId, Read(run, Head(ChainIn(s, run))), actor, payload, payload, key), Some(t));
    var s3 := InsertsUnderTheHead(s, t, run, actor, payload, key);
    SettleOne(s.entries, e, t);
    hide Keeping, Settle, RowsOf, Next, CommittedEvents;
    CommitSettles(s3, t);
    CommittedAppends(s, Next(s3, Commit(t)), e.(owner := None));
    hide ChainIn, Head;
    RunFour(s, [Acquire(t, run), ReadHead(t, run), Insert(t, actor, payload, payload, key), Commit(t)]);
  }

  lemma CommittedAppends(s: State, after: State, e: Entry)
    requires (forall x | x in s.entries :: x.owner == None) && e.owner == None && after.entries == s.entries + [e]
    ensures CommittedEvents(after) == CommittedEvents(s) + [e.event]
  {
    KeepEverything(s.entries, IsCommitted());
    KeepEverything(after.entries, IsCommitted());
    hide Keeping;
  }

  lemma CommitSettles(s: State, t: TxId)
    ensures Next(s, Commit(t)).entries == Settle(s.entries, t)
  {
  }

  lemma InsertsUnderTheHead(s: State, t: TxId, run: nat, actor: string, payload: Payload, key: string) returns (s3: State)
    requires run !in s.locks && forall e | e in s.entries :: e.owner == None
    ensures s3 == Next(Next(Next(s, Acquire(t, run)), ReadHead(t, run)), Insert(t, actor, payload, payload, key))
    ensures s3.entries == s.entries +
              [Entry(EventOf(s.nextId, Read(run, Head(ChainIn(s, run))), actor, payload, payload, key), Some(t))]
  {
    KeepEverything(s.entries, SeenBy(t));
    KeepEverything(s.entries, IsCommitted());
    hide Keeping, RowsOf, Settle, Unlock, EventOf, Head;
    s3 := Next(Next(Next(s, Acquire(t, run)), ReadHead(t, run)), Insert(t, actor, payload, payload, key));
  }

  lemma RunFour(s: State, steps: seq<Step>)
    requires |steps| == 4
    ensures Run(s, steps) == Next(Next(Next(Next(s, steps[0]), steps[1]), steps[2]), steps[3])
  {
    hide Next;
    assert steps[1..][1..] == steps[2..] && steps[2..][1..] == steps[3..] && steps[3..][1..] == [];
    var s2 := Next(Next(s, steps[0]), steps[1]);
    assert Run(s, steps) == Run(s2, steps[2..]);
    assert Run(s2, steps[2..]) == Run(Next(Next(s2, steps[2]), steps[3]), []);
  }

  lemma SettleOne(entries: seq<Entry>, e: Entry, t: TxId)
    requires (forall x | x in entries :: x.owner == None) && e.owner == Some(t)
    ensures Settle(entries + [e], t) == entries + [e.(owner := None)]
    ensures forall x | x in Settle(entries + [e], t) :: x.owner == None
  {
    forall i | 0 <= i < |entries| ensures entries[i].owner == None {
      assert entries[i] in entries;
    }
  }
}
