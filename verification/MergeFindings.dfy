/** Idempotent merge of one findings file into another, de-duplicated by content. */
module MergeFindings {
  import FirstSeen

  /**
   Identity of a finding, whenever it was produced. Each field is a text that two JSON values share exactly when the
   original holds them equal: 1, 1.0 and true share one, an absent value and null share another.
   */
  datatype Key = Key(kind: string, target: string, details: string, severity: string, mitre: string)

  /** A JSON entry: a record, a record whose key holds a list and cannot be hashed, or something else. */
  datatype Item = Record(key: Key, timestamp: string, rest: string) | UnhashableKey(rest: string) | NotARecord(text: string)

  datatype Merged = Findings(items: seq<Item>) | TypeError

  function KeyOf(item: Item): Key {
    if item.Record? then item.key else Key("", "", "", "", "")
  }

  function Records(items: seq<Item>): (records: seq<Item>)
    ensures forall r | r in records :: r.Record?
  {
    if items == [] then [] else (if items[0].Record? then [items[0]] else []) + Records(items[1..])
  }

  ghost predicate Hashable(items: seq<Item>) {
    forall x | x in items :: !x.UnhashableKey?
  }

  function Union(items: seq<Item>): seq<Item> {
    FirstSeen.Keep(KeyOf, {}, Records(items))
  }

  lemma UnionStep(all: seq<Item>, i: nat, seen: set<Key>)
    requires i < |all|
    ensures var rest := Records(all[i + 1..]);
            FirstSeen.Keep(KeyOf, seen, Records(all[i..])) ==
              if !all[i].Record? || KeyOf(all[i]) in seen then FirstSeen.Keep(KeyOf, seen, rest)
              else [all[i]] + FirstSeen.Keep(KeyOf, seen + {KeyOf(all[i])}, rest)
  {
    assert all[i..][0] == all[i] && all[i..][1..] == all[i + 1..];
    var rest := Records(all[i + 1..]);
    if !all[i].Record? {
      assert Records(all[i..]) == rest;
    } else {
      assert Records(all[i..]) == [all[i]] + rest;
      assert ([all[i]] + Records(all[i + 1..]))[1..] == Records(all[i + 1..]);
    }
  }

  lemma NothingLeft(seen: set<Key>)
    ensures FirstSeen.Keep(KeyOf, seen, Records([])) == []
  {
  }

  /** De-duplicated union in first-seen order; one unhashable key anywhere fails the whole merge. */
  method Merge(into: seq<Item>, added: seq<Item>) returns (merged: Merged)
    ensures merged.TypeError? <==> !Hashable(into + added)
    ensures merged.Findings? ==> merged.items == Union(into + added)
  {
    hide FirstSeen.Keep, Records;
    var all := into + added;
    var seen: set<Key>, out := {}, [];
    assert all[0..] == all;
    for i := 0 to |all|
      invariant forall j | 0 <= j < i :: !all[j].UnhashableKey?
      invariant out + FirstSeen.Keep(KeyOf, seen, Records(all[i..])) == Union(all)
    {
      var f := all[i];
      UnionStep(all, i, seen);
      if f.NotARecord? {
        continue;
      }
      if f.UnhashableKey? {
        assert f in all;
        return TypeError;
      }
      if KeyOf(f) in seen {
        continue;
      }
      seen := seen + {KeyOf(f)};
      out := out + [f];
    }
    assert all[|all|..] == [];
    NothingLeft(seen);
    return Findings(out);
  }

  lemma {:induction false} RecordsConcat(a: seq<Item>, b: seq<Item>)
    ensures Records(a + b) == Records(a) + Records(b)
  {
    if a == [] {
      assert a + b == b;
    } else {
      assert (a + b)[1..] == a[1..] + b;
      RecordsConcat(a[1..], b);
    }
  }

  lemma {:induction false} RecordsOnly(records: seq<Item>)
    requires forall r | r in records :: r.Record?
    ensures Records(records) == records
  {
    if records != [] {
      RecordsOnly(records[1..]);
    }
  }

  lemma {:induction false} KeepFromRecords(seen: set<Key>, items: seq<Item>)
    requires forall r | r in items :: r.Record?
    ensures forall r | r in FirstSeen.Keep(KeyOf, seen, items) :: r.Record?
    decreases |items|
  {
    if items != [] {
      KeepFromRecords(seen, items[1..]);
      KeepFromRecords(seen + {KeyOf(items[0])}, items[1..]);
    }
  }

  lemma UnionOfUnion(x: seq<Item>, y: seq<Item>, left: bool)
    ensures Union(if left then Union(x) + y else x + Union(y)) == Union(x + y)
    ensures Records(Union(x)) == Union(x)
  {
    var rx, ry := Records(x), Records(y);
    KeepFromRecords({}, rx);
    KeepFromRecords({}, ry);
    RecordsOnly(Union(x));
    RecordsOnly(Union(y));
    RecordsConcat(Union(x), y);
    RecordsConcat(x, Union(y));
    RecordsConcat(x, y);
    FirstSeen.KeepConcat(KeyOf, {}, Union(x), ry);
    FirstSeen.KeepConcat(KeyOf, {}, rx, Union(y));
    FirstSeen.KeepConcat(KeyOf, {}, rx, ry);
    FirstSeen.KeepKeys(KeyOf, {}, rx);
    FirstSeen.KeepDistinct(KeyOf, {}, Union(x));
    FirstSeen.KeepOfKeep(KeyOf, {} + FirstSeen.Keys(KeyOf, rx), {}, ry);
    assert {} + FirstSeen.Keys(KeyOf, Union(x)) == {} + FirstSeen.Keys(KeyOf, rx);
  }

  /** Merging is associative. */
  lemma MergeAssociative(a: seq<Item>, b: seq<Item>, c: seq<Item>)
    ensures Union(Union(a + b) + c) == Union(a + Union(b + c))
  {
    UnionOfUnion(a + b, c, true);
    UnionOfUnion(a, b + c, false);
    assert a + b + c == a + (b + c);
  }

  /** Merging the same list again changes nothing. */
  lemma MergeIdempotent(a: seq<Item>, b: seq<Item>)
    ensures Union(Union(a + b) + b) == Union(a + b)
  {
    var u := Union(a + b);
    UnionOfUnion(a + b, b, true);
    RecordsConcat(a + b, b);
    RecordsConcat(a, b);
    FirstSeen.KeepConcat(KeyOf, {}, Records(a + b), Records(b));
    FirstSeen.KeysConcat(KeyOf, Records(a), Records(b));
    FirstSeen.KeepNone(KeyOf, {} + FirstSeen.Keys(KeyOf, Records(a + b)), Records(b));
  }

  /** The result holds the first record of every key, once, in concatenation order. */
  lemma MergeKeepsFirsts(into: seq<Item>, added: seq<Item>)
    ensures var all := Records(into) + Records(added);
            && Union(into + added) == FirstSeen.Firsts(KeyOf, {}, all, |all|)
            && FirstSeen.Keys(KeyOf, Union(into + added)) == FirstSeen.Keys(KeyOf, all)
            && forall i, j | 0 <= i < j < |Union(into + added)| ::
                 KeyOf(Union(into + added)[i]) != KeyOf(Union(into + added)[j])
  {
    var all := Records(into) + Records(added);
    RecordsConcat(into, added);
    FirstSeen.KeepIsFirsts(KeyOf, {}, all, |all|);
    assert all[..|all|] == all;
    FirstSeen.KeepKeys(KeyOf, {}, all);
  }
}
