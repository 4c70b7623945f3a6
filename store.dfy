/**
 * The `sensordata` table of the MySQL store as ftch_dta.py uses it: a sequence of
 * readings, read with `SELECT ... WHERE DATE(timestamp) = %s` (`fetch_data`) and
 * emptied of one day with `DELETE ... WHERE DATE(timestamp) = %s`.
 */
module Store {
  import opened Calendar

  /** One row of `sensordata`: its timestamp and the eight channel columns X1 .. Z2. */
  datatype Reading = Reading(
    timestamp: DateTime,
    x1: real, x2: real, y1: real, y2: real, d1: real, d2: real, z1: real, z2: real)

  /** `DATE(timestamp)` */
  function DayOf(r: Reading): Date {
    r.timestamp.date
  }

  predicate ValidReadings(rows: seq<Reading>) {
    forall i :: 0 <= i < |rows| ==> ValidDateTime(rows[i].timestamp)
  }

  /** `fetch_data(d)`: the rows of day d, in the order they are stored. */
  function Fetch(store: seq<Reading>, d: Date): (rows: seq<Reading>)
    ensures |rows| <= |store|
    ensures forall i :: 0 <= i < |rows| ==> DayOf(rows[i]) == d
    ensures ValidReadings(store) ==> ValidReadings(rows)
  {
    if store == [] then []
    else (if DayOf(store[0]) == d then [store[0]] else []) + Fetch(store[1..], d)
  }

  /** The store after `DELETE FROM sensordata WHERE DATE(timestamp) = d`. */
  function Delete(store: seq<Reading>, d: Date): (rest: seq<Reading>)
    ensures |rest| <= |store|
    ensures forall i :: 0 <= i < |rest| ==> DayOf(rest[i]) != d
    ensures ValidReadings(store) ==> ValidReadings(rest)
  {
    if store == [] then []
    else (if DayOf(store[0]) != d then [store[0]] else []) + Delete(store[1..], d)
  }

  /** `fetch_data(d)` returns exactly the stored rows of day d. */
  lemma {:induction false} FetchMembers(store: seq<Reading>, d: Date)
    ensures forall r :: r in Fetch(store, d) <==> r in store && DayOf(r) == d
  {
    if store != [] {
      FetchMembers(store[1..], d);
      assert store == [store[0]] + store[1..];
    }
  }

  /** The delete keeps exactly the stored rows of other days. */
  lemma {:induction false} DeleteMembers(store: seq<Reading>, d: Date)
    ensures forall r :: r in Delete(store, d) <==> r in store && DayOf(r) != d
  {
    if store != [] {
      DeleteMembers(store[1..], d);
      assert store == [store[0]] + store[1..];
    }
  }

  /** Every row is either fetched or kept by the delete, and no row is both or lost. */
  lemma {:induction false} FetchDeletePartition(store: seq<Reading>, d: Date)
    ensures multiset(Fetch(store, d)) + multiset(Delete(store, d)) == multiset(store)
  {
    if store != [] {
      var tail := store[1..];
      calc {
        multiset(Fetch(store, d)) + multiset(Delete(store, d));
        == { HeadGoesOneWay(store, d); }
        multiset{store[0]} + (multiset(Fetch(tail, d)) + multiset(Delete(tail, d)));
        == { FetchDeletePartition(tail, d); }
        multiset{store[0]} + multiset(tail);
        == { assert store == [store[0]] + tail; }
        multiset(store);
      }
    }
  }

  /** The first row goes to exactly one of the fetch and the delete. */
  lemma HeadGoesOneWay(store: seq<Reading>, d: Date)
    requires |store| > 0
    ensures multiset(Fetch(store, d)) + multiset(Delete(store, d))
      == multiset{store[0]} + (multiset(Fetch(store[1..], d)) + multiset(Delete(store[1..], d)))
  {
    var head := store[0];
    if DayOf(head) == d {
      assert Fetch(store, d) == [head] + Fetch(store[1..], d);
      assert Delete(store, d) == Delete(store[1..], d);
    } else {
      assert Fetch(store, d) == Fetch(store[1..], d);
      assert Delete(store, d) == [head] + Delete(store[1..], d);
    }
  }

  /** When a day has no rows, deleting it leaves the store as it was. */
  lemma {:induction false} DeleteWithoutMatches(store: seq<Reading>, d: Date)
    requires Fetch(store, d) == []
    ensures Delete(store, d) == store
  {
    if store != [] {
      assert DayOf(store[0]) != d by {
        assert store[0] !in Fetch(store, d);
      }
      assert Fetch(store[1..], d) == Fetch(store, d);
      DeleteWithoutMatches(store[1..], d);
      assert store == [store[0]] + store[1..];
    }
  }

  /** A store with no row of day d gives nothing for d. */
  lemma {:induction false} FetchWithoutMatches(store: seq<Reading>, d: Date)
    requires forall r :: r in store ==> DayOf(r) != d
    ensures Fetch(store, d) == []
  {
    if store != [] {
      assert store[0] in store;
      FetchWithoutMatches(store[1..], d);
    }
  }

  /** After the delete, no row of the deleted day remains. */
  lemma NothingLeftAfterDelete(store: seq<Reading>, d: Date)
    ensures Fetch(Delete(store, d), d) == []
  {
    DeleteMembers(store, d);
    FetchWithoutMatches(Delete(store, d), d);
  }

  /** A store holding only rows of day d is fetched whole and deleted whole. */
  lemma {:induction false} StoreOfOneDay(store: seq<Reading>, d: Date)
    requires forall i :: 0 <= i < |store| ==> DayOf(store[i]) == d
    ensures Fetch(store, d) == store
    ensures Delete(store, d) == []
  {
    if store != [] {
      StoreOfOneDay(store[1..], d);
      assert store == [store[0]] + store[1..];
    }
  }

  /** A kept row of the store has a place in what the delete leaves. */
  lemma {:induction false} KeptRowIndex(store: seq<Reading>, d: Date, j: int)
    requires 0 <= j < |store| && DayOf(store[j]) != d
    ensures exists l :: 0 <= l < |Delete(store, d)| && Delete(store, d)[l] == store[j]
  {
    var head := if DayOf(store[0]) != d then [store[0]] else [];
    assert Delete(store, d) == head + Delete(store[1..], d);
    if j == 0 {
      assert Delete(store, d)[0] == store[0];
    } else {
      KeptRowIndex(store[1..], d, j - 1);
      var l :| 0 <= l < |Delete(store[1..], d)| && Delete(store[1..], d)[l] == store[1..][j - 1];
      assert Delete(store, d)[|head| + l] == store[j];
    }
  }

  /** Rows of other days keep their relative order when a day is deleted. */
  lemma {:induction false} DeleteKeepsOthersInOrder(store: seq<Reading>, d: Date, i: int, j: int)
    requires 0 <= i < j < |store| && DayOf(store[i]) != d && DayOf(store[j]) != d
    ensures exists k, l :: 0 <= k < l < |Delete(store, d)| && Delete(store, d)[k] == store[i] && Delete(store, d)[l] == store[j]
  {
    if i == 0 {
      KeptRowIndex(store[1..], d, j - 1);
      var l :| 0 <= l < |Delete(store[1..], d)| && Delete(store[1..], d)[l] == store[1..][j - 1];
      KeptHeadComesFirst(store, d, l);
    } else {
      DeleteKeepsOthersInOrder(store[1..], d, i - 1, j - 1);
      var k, l :| 0 <= k < l < |Delete(store[1..], d)|
        && Delete(store[1..], d)[k] == store[1..][i - 1] && Delete(store[1..], d)[l] == store[1..][j - 1];
      PairShifts(store, d, k, l);
    }
  }

  lemma KeptHeadComesFirst(store: seq<Reading>, d: Date, l: int)
    requires |store| > 0 && DayOf(store[0]) != d && 0 <= l < |Delete(store[1..], d)|
    ensures Delete(store, d)[0] == store[0] && Delete(store, d)[l + 1] == Delete(store[1..], d)[l]
    ensures l + 1 < |Delete(store, d)|
  {
    assert Delete(store, d) == [store[0]] + Delete(store[1..], d);
  }

  lemma PairShifts(store: seq<Reading>, d: Date, k: int, l: int)
    requires |store| > 0 && 0 <= k < l < |Delete(store[1..], d)|
    ensures var shift := if DayOf(store[0]) != d then 1 else 0;
      && l + shift < |Delete(store, d)|
      && Delete(store, d)[k + shift] == Delete(store[1..], d)[k]
      && Delete(store, d)[l + shift] == Delete(store[1..], d)[l]
  {
    var head := if DayOf(store[0]) != d then [store[0]] else [];
    assert Delete(store, d) == head + Delete(store[1..], d);
  }
}
