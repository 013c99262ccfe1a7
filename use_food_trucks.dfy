/** The data hook: the one fetch of the permit list at start-up, the
    derivation of the distinct statuses, and the loading flag. The request
    and the schema validation are outside the model; their outcome is an
    input. */
module FoodTruckData {
  import opened Seqs
  import opened Ascii
  import opened Schema

  /** `trucks.map((truck) => truck.status?.toUpperCase()).filter(Boolean)`:
      the upper-cased statuses in record order, missing and empty ones
      dropped. */
  function StatusKeys(trucks: seq<FoodTruck>): (r: seq<string>)
    ensures "" !in r
    ensures forall t :: t in trucks && CanonicalStatus(t) != "" ==> CanonicalStatus(t) in r
    ensures forall s :: s in r ==> exists t :: t in trucks && CanonicalStatus(t) == s
  {
    if trucks == [] then []
    else
      var key := CanonicalStatus(trucks[0]);
      var rest := StatusKeys(trucks[1..]);
      assert forall t :: t in trucks ==> t == trucks[0] || t in trucks[1..];
      (if key != "" then [key] else []) + rest
  }

  /** `[...new Set(keys)]`: every key once, at the place of its first
      occurrence. */
  function Dedupe(keys: seq<string>): (r: seq<string>)
    ensures NoDuplicates(r)
    ensures forall s :: s in r <==> s in keys
  {
    if keys == [] then []
    else
      var prefix, last := keys[..|keys| - 1], keys[|keys| - 1];
      assert keys == prefix + [last];
      var r := Dedupe(prefix);
      if last in r then r else r + [last]
  }

  /** The distinct keys appear in the order of their first occurrences. */
  lemma {:induction false} DedupeFirstOccurrenceOrder(keys: seq<string>)
    ensures forall i, j :: 0 <= i < j < |Dedupe(keys)| ==>
              FirstIndex(keys, Dedupe(keys)[i]) < FirstIndex(keys, Dedupe(keys)[j])
  {
    if keys != [] {
      var n := |keys| - 1;
      var prefix, last := keys[..n], keys[n];
      assert keys[..n] == prefix;
      var r0 := Dedupe(prefix);
      DedupeFirstOccurrenceOrder(prefix);
      var r := Dedupe(keys);
      assert r == if last in r0 then r0 else r0 + [last];
      forall i, j | 0 <= i < j < |r|
        ensures FirstIndex(keys, r[i]) < FirstIndex(keys, r[j])
      {
        assert r[i] == r0[i];
        FirstIndexInPrefix(keys, n, r[i]);
        if j < |r0| {
          assert r[j] == r0[j];
          assert FirstIndex(prefix, r0[i]) < FirstIndex(prefix, r0[j]);
          FirstIndexInPrefix(keys, n, r[j]);
        } else {
          assert r[j] == last && last !in prefix;
          FirstIndexAfterPrefix(keys, n, last);
          assert FirstIndex(keys, r[i]) < n <= FirstIndex(keys, r[j]);
        }
      }
    }
  }

  /** `allStatus`: the upper-cased non-empty statuses, each once, in the
      order in which they first occur among the records. */
  function DistinctStatuses(trucks: seq<FoodTruck>): (r: seq<string>)
    ensures NoDuplicates(r)
    ensures "" !in r
    ensures forall t :: t in trucks && CanonicalStatus(t) != "" ==> CanonicalStatus(t) in r
    ensures forall s :: s in r ==> exists t :: t in trucks && CanonicalStatus(t) == s
  {
    Dedupe(StatusKeys(trucks))
  }

  /** The position of the first record whose canonical status is `s`. */
  function FirstRecord(trucks: seq<FoodTruck>, s: string): (i: nat)
    requires exists t :: t in trucks && CanonicalStatus(t) == s
    ensures i < |trucks| && CanonicalStatus(trucks[i]) == s
    ensures forall k :: 0 <= k < i ==> CanonicalStatus(trucks[k]) != s
  {
    if CanonicalStatus(trucks[0]) == s then 0
    else
      TailHasStatus(trucks, s);
      1 + FirstRecord(trucks[1..], s)
  }

  lemma TailHasStatus(trucks: seq<FoodTruck>, s: string)
    requires exists t :: t in trucks && CanonicalStatus(t) == s
    requires CanonicalStatus(trucks[0]) != s
    ensures exists t :: t in trucks[1..] && CanonicalStatus(t) == s
  {
    var t :| t in trucks && CanonicalStatus(t) == s;
    assert trucks == [trucks[0]] + trucks[1..];
    assert t in trucks[1..];
  }

  /** A key that comes first among the keys comes from an earlier record. */
  lemma {:induction false} StatusKeysFollowRecords(trucks: seq<FoodTruck>, s: string, s': string)
    requires s in StatusKeys(trucks) && s' in StatusKeys(trucks)
    requires FirstIndex(StatusKeys(trucks), s) < FirstIndex(StatusKeys(trucks), s')
    ensures FirstRecord(trucks, s) < FirstRecord(trucks, s')
  {
    var keys, rest := StatusKeys(trucks), StatusKeys(trucks[1..]);
    var key := CanonicalStatus(trucks[0]);
    assert keys == (if key != "" then [key] else []) + rest;
    if key == "" {
      assert keys == rest;
      StatusKeysFollowRecords(trucks[1..], s, s');
    } else if key == s {
      assert FirstRecord(trucks, s) == 0;
    } else {
      assert keys == [key] + rest && keys[0] != s && keys[0] != s';
      assert keys[1..] == rest;
      StatusKeysFollowRecords(trucks[1..], s, s');
    }
  }

  /** `allStatus` follows the records: of two statuses, the one listed
      first occurs first among the records. */
  lemma DistinctStatusesFollowRecords(trucks: seq<FoodTruck>)
    ensures var r := DistinctStatuses(trucks);
            forall s, s' :: s in r && s' in r && FirstIndex(r, s) < FirstIndex(r, s') ==>
              FirstRecord(trucks, s) < FirstRecord(trucks, s')
  {
    var keys, r := StatusKeys(trucks), DistinctStatuses(trucks);
    DedupeFirstOccurrenceOrder(keys);
    forall s, s' | s in r && s' in r && FirstIndex(r, s) < FirstIndex(r, s')
      ensures FirstRecord(trucks, s) < FirstRecord(trucks, s')
    {
      var i, j := FirstIndex(r, s), FirstIndex(r, s');
      assert r[i] == s && r[j] == s';
      StatusKeysFollowRecords(trucks, s, s');
    }
  }

  lemma StatusKeysOfTwo(t1: FoodTruck, t2: FoodTruck)
    requires CanonicalStatus(t1) != "" && CanonicalStatus(t2) != ""
    ensures StatusKeys([t1, t2]) == [CanonicalStatus(t1), CanonicalStatus(t2)]
  {
    assert [t1, t2][1..] == [t2];
    assert [t2][1..] == [];
    assert StatusKeys([t2]) == [CanonicalStatus(t2)] + StatusKeys([]);
  }

  lemma DedupeOfTwo(a: string, b: string)
    requires a != b
    ensures Dedupe([a, b]) == [a, b]
  {
    assert [a, b][..1] == [a];
    assert [a][..0] == [];
    assert Dedupe([a]) == [a];
  }

  /** An approved and a pending permit give the statuses
      ["APPROVED", "PENDING"]. */
  lemma FetchedStatuses()
    ensures DistinctStatuses([
              FoodTruck(1, Some("Truck 1"), Some("APPROVED"), None, "Address 1", None, None),
              FoodTruck(2, Some("Truck 2"), Some("PENDING"), None, "Address 2", None, None)])
            == ["APPROVED", "PENDING"]
  {
    var t1 := FoodTruck(1, Some("Truck 1"), Some("APPROVED"), None, "Address 1", None, None);
    var t2 := FoodTruck(2, Some("Truck 2"), Some("PENDING"), None, "Address 2", None, None);
    ToUpperUnchanged("APPROVED");
    ToUpperUnchanged("PENDING");
    StatusKeysOfTwo(t1, t2);
    DedupeOfTwo("APPROVED", "PENDING");
  }

  /** What the request and the schema validation came to. */
  datatype FetchOutcome =
    | Fetched(trucks: seq<FoodTruck>)  // response received and valid
    | SchemaRejected                   // response received, validation failed
    | RequestFailed                    // the request threw

  class FoodTruckStore {
    var foodTrucks: seq<FoodTruck>
    /** Shared with the status checkboxes, which sort it in place. */
    var allStatus: array<string>
    var loading: bool

    /** The hook's initial state. */
    constructor ()
      ensures loading && foodTrucks == [] && allStatus.Length == 0
    {
      foodTrucks := [];
      allStatus := new string[0];
      loading := true;
    }

    /** The fetch routine: on a valid response the records and their
        distinct statuses are stored; on a schema failure or a request error
        nothing is stored; on every path loading ends false. */
    method FetchFoodTrucks(outcome: FetchOutcome)
      modifies this
      ensures !loading
      ensures outcome.Fetched? ==>
                && foodTrucks == outcome.trucks
                && fresh(allStatus)
                && allStatus[..] == DistinctStatuses(outcome.trucks)
      ensures !outcome.Fetched? ==> foodTrucks == old(foodTrucks) && allStatus == old(allStatus)
    {
      loading := true;
      match outcome {
        case Fetched(trucks) =>
          var statuses := DistinctStatuses(trucks);
          foodTrucks := trucks;
          allStatus := new string[|statuses|](i requires 0 <= i < |statuses| => statuses[i]);
        case SchemaRejected =>
        case RequestFailed =>
      }
      loading := false;
    }
  }

  /** The hook from mount to the end of its one fetch: a failure of either
      kind leaves the records and statuses empty. */
  method LoadOnStartup(outcome: FetchOutcome) returns (store: FoodTruckStore)
    ensures fresh(store) && !store.loading
    ensures outcome.Fetched? ==> store.foodTrucks == outcome.trucks && store.allStatus[..] == DistinctStatuses(outcome.trucks)
    ensures !outcome.Fetched? ==> store.foodTrucks == [] && store.allStatus.Length == 0
  {
    store := new FoodTruckStore();
    store.FetchFoodTrucks(outcome);
  }
}
