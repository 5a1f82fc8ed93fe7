/** Custody events: one hash chain per collection run, all in one table. */
module CustodyChain {
  import opened Ledger

  datatype CustodyEvent = CustodyEvent(run: nat, actor: string, row: Row)

  /** A run's own events, in id order. */
  function ChainOf(events: seq<CustodyEvent>, run: nat): (chain: seq<Row>)
    ensures |chain| <= |events|
  {
    if events == [] then []
    else
      var n := |events| - 1;
      ChainOf(events[..n], run) + if events[n].run == run then [events[n].row] else []
  }

  class CustodyTable {
    var events: seq<CustodyEvent>
    var nextId: nat
    var key: string

    /** Every run's chain verifies. */
    ghost predicate Sound() reads this {
      forall run: nat :: Verifies(ChainOf(events, run))
    }

    constructor (key: string)
      ensures Sound() && events == [] && this.key == key
    {
      events, nextId, this.key := [], 1, key;
    }

    /** Append to one run's chain under its head, whatever state the chains are in; every other run's chain is as it was. */
    method Custody(run: nat, action: string, actor: string, detail: string) returns (event: CustodyEvent)
      modifies this`events, this`nextId
      ensures events == old(events) + [event] && event.run == run && event.actor == actor
      ensures event.row.payload == CustodyEntry(action, detail) && event.row.signature == NoTag
      ensures event.row.sigKeyId == if key == "" then NoKeyId else IdOf(key)
      ensures event.row.id == old(nextId) && nextId == old(nextId) + 1
      ensures ChainOf(events, run) == old(ChainOf(events, run)) + [event.row]
      ensures Linked(ChainOf(events, run), |ChainOf(events, run)| - 1)
      ensures forall other: nat | other != run :: ChainOf(events, other) == old(ChainOf(events, other))
      ensures old(Sound()) ==> Sound()
    {
      var chain := ChainOf(events, run);
      var prevHash := if |chain| > 0 then chain[|chain| - 1].entryHash else Blank;
      var payload := CustodyEntry(action, detail);
      event := CustodyEvent(run, actor,
                            Row(nextId, payload, prevHash, Digest(prevHash, payload), NoTag, KeyIdOf(key)));
      ghost var was := events;
      events := events + [event];
      nextId := nextId + 1;
      assert events[..|was|] == was;
      assert forall other: nat | other != run :: ChainOf(events, other) == ChainOf(was, other);
      if old(Sound()) {
        AppendKeepsLinks(chain, event.row);
      }
    }
  }
}
