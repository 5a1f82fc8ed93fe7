/** Keyed de-duplication that keeps the first item of each key, in order. */
module FirstSeen {

  /** The loop's meaning: skip an item whose key was seen, otherwise keep it and remember the key. */
  function Keep<K, T>(key: T -> K, seen: set<K>, items: seq<T>): (kept: seq<T>)
    decreases |items|
  {
    if items == [] then []
    else if key(items[0]) in seen then Keep(key, seen, items[1..])
    else [items[0]] + Keep(key, seen + {key(items[0])}, items[1..])
  }

  /** Item i is the first of its key, and its key was not known before. */
  ghost predicate FirstAt<K, T>(key: T -> K, seen: set<K>, items: seq<T>, i: nat)
    requires i < |items|
  {
    key(items[i]) !in seen && forall j | 0 <= j < i :: key(items[j]) != key(items[i])
  }

  /** Position by position: what stays of the first n items. */
  ghost function Firsts<K, T>(key: T -> K, seen: set<K>, items: seq<T>, n: nat): seq<T>
    requires n <= |items|
  {
    if n == 0 then []
    else Firsts(key, seen, items, n - 1) + if FirstAt(key, seen, items, n - 1) then [items[n - 1]] else []
  }

  ghost function Keys<K, T>(key: T -> K, items: seq<T>): set<K> {
    set i | 0 <= i < |items| :: key(items[i])
  }

  lemma KeysConcat<K, T>(key: T -> K, a: seq<T>, b: seq<T>)
    ensures Keys(key, a + b) == Keys(key, a) + Keys(key, b)
  {
    forall k | k in Keys(key, a) + Keys(key, b)
      ensures k in Keys(key, a + b)
    {
      if k in Keys(key, a) {
        var i :| 0 <= i < |a| && key(a[i]) == k;
        assert (a + b)[i] == a[i];
      } else {
        var i :| 0 <= i < |b| && key(b[i]) == k;
        assert (a + b)[|a| + i] == b[i];
      }
    }
  }

  lemma {:induction false} KeepConcat<K, T>(key: T -> K, seen: set<K>, a: seq<T>, b: seq<T>)
    ensures Keep(key, seen, a + b) == Keep(key, seen, a) + Keep(key, seen + Keys(key, a), b)
    decreases |a|
  {
    if a == [] {
      assert a + b == b && seen + Keys(key, a) == seen;
    } else {
      assert (a + b)[1..] == a[1..] + b;
      assert a == [a[0]] + a[1..];
      KeysConcat(key, [a[0]], a[1..]);
      var s := if key(a[0]) in seen then seen else seen + {key(a[0])};
      KeepConcat(key, s, a[1..], b);
      assert Keys(key, [a[0]]) == {key(a[0])} by { assert [a[0]][0] == a[0]; }
      assert s + Keys(key, a[1..]) == seen + Keys(key, a);
    }
  }

  /** What is kept is exactly the first item of each new key, in the order of the items. */
  lemma {:induction false} KeepIsFirsts<K, T>(key: T -> K, seen: set<K>, items: seq<T>, n: nat)
    requires n <= |items|
    ensures Keep(key, seen, items[..n]) == Firsts(key, seen, items, n)
    decreases n
  {
    if n > 0 {
      var x := items[n - 1];
      KeepIsFirsts(key, seen, items, n - 1);
      assert items[..n] == items[..n - 1] + [x];
      KeepConcat(key, seen, items[..n - 1], [x]);
      var known := seen + Keys(key, items[..n - 1]);
      assert key(x) in known <==> !FirstAt(key, seen, items, n - 1);
      assert Keep(key, known, [x]) == if key(x) in known then [] else [x];
    }
  }

  lemma {:induction false} KeepKeys<K, T>(key: T -> K, seen: set<K>, items: seq<T>)
    ensures var kept := Keep(key, seen, items);
            && Keys(key, kept) == Keys(key, items) - seen
            && forall i, j | 0 <= i < j < |kept| :: key(kept[i]) != key(kept[j])
    decreases |items|
  {
    if items != [] {
      var k := key(items[0]);
      var rest := items[1..];
      assert items == [items[0]] + rest;
      KeysConcat(key, [items[0]], rest);
      assert Keys(key, [items[0]]) == {k} by { assert [items[0]][0] == items[0]; }
      if k in seen {
        KeepKeys(key, seen, rest);
      } else {
        KeepKeys(key, seen + {k}, rest);
        var kept := Keep(key, seen + {k}, rest);
        KeysConcat(key, [items[0]], kept);
        forall i | 0 <= i < |kept| ensures key(kept[i]) != k {
          assert key(kept[i]) in Keys(key, kept);
        }
      }
    }
  }

  /** Items whose keys are all new and distinct are all kept. */
  lemma {:induction false} KeepDistinct<K, T>(key: T -> K, seen: set<K>, items: seq<T>)
    requires forall i | 0 <= i < |items| :: key(items[i]) !in seen
    requires forall i, j | 0 <= i < j < |items| :: key(items[i]) != key(items[j])
    ensures Keep(key, seen, items) == items
    decreases |items|
  {
    if items != [] {
      KeepDistinct(key, seen + {key(items[0])}, items[1..]);
    }
  }

  /** Items whose keys were all seen leave nothing. */
  lemma {:induction false} KeepNone<K, T>(key: T -> K, seen: set<K>, items: seq<T>)
    requires Keys(key, items) <= seen
    ensures Keep(key, seen, items) == []
    decreases |items|
  {
    if items != [] {
      assert key(items[0]) in Keys(key, items);
      assert Keys(key, items[1..]) <= Keys(key, items) by {
        assert items == [items[0]] + items[1..];
        KeysConcat(key, [items[0]], items[1..]);
      }
      KeepNone(key, seen, items[1..]);
    }
  }

  /** De-duplicating first and against `seen` afterwards is de-duplicating against `seen`. */
  lemma {:induction false} KeepOfKeep<K, T>(key: T -> K, seen: set<K>, within: set<K>, items: seq<T>)
    requires within <= seen
    ensures Keep(key, seen, Keep(key, within, items)) == Keep(key, seen, items)
    decreases |items|
  {
    if items != [] {
      var k := key(items[0]);
      var rest := items[1..];
      if k in within {
        KeepOfKeep(key, seen, within, rest);
      } else {
        var inner := Keep(key, within + {k}, rest);
        assert Keep(key, within, items) == [items[0]] + inner;
        assert ([items[0]] + inner)[1..] == inner;
        if k in seen {
          KeepOfKeep(key, seen, within + {k}, rest);
        } else {
          KeepOfKeep(key, seen + {k}, within + {k}, rest);
        }
      }
    }
  }
}
