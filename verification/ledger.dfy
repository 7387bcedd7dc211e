/** The collection ledger: the ordered sequence of collected records, its one
    mutation (a guarded append) and its persistence in the browser's key/value
    storage (App.jsx). */
module Ledger {
  import opened Common

  /** Some record of `ledger` carries `id`. */
  predicate HasId(ledger: seq<Item>, id: string) {
    exists i :: 0 <= i < |ledger| && ledger[i].id == id
  }

  /** `ledger.find(item => item.id === id)`: the first record with that id. */
  function FindById(ledger: seq<Item>, id: string): (r: Option<Item>)
    ensures r.Some? <==> HasId(ledger, id)
    ensures r.Some? ==> r.value.id == id
    ensures r.Some? ==> exists i :: 0 <= i < |ledger| && ledger[i] == r.value &&
                                    forall j :: 0 <= j < i ==> ledger[j].id != id
  {
    if |ledger| == 0 then None
    else if ledger[0].id == id then Some(ledger[0])
    else
      var r := FindById(ledger[1..], id);
      assert r.Some? ==> exists i :: 0 < i < |ledger| && ledger[i] == r.value &&
                                     forall j :: 0 <= j < i ==> ledger[j].id != id by {
        if r.Some? {
          var k :| 0 <= k < |ledger[1..]| && ledger[1..][k] == r.value &&
                   forall j :: 0 <= j < k ==> ledger[1..][j].id != id;
          assert ledger[k + 1] == r.value;
          assert forall j :: 0 <= j < k + 1 ==> ledger[j].id != id by {
            forall j | 0 <= j < k + 1 ensures ledger[j].id != id {
              if j > 0 { assert ledger[j] == ledger[1..][j - 1]; }
            }
          }
        }
      }
      assert HasId(ledger, id) ==> HasId(ledger[1..], id) by {
        if HasId(ledger, id) {
          var k :| 0 <= k < |ledger| && ledger[k].id == id;
          assert ledger[1..][k - 1].id == id;
        }
      }
      r
  }

  /** The guarded append of `handleCollectItem` and `handleCameraStationFound`:
      a record whose id is already present is dropped, any other is appended. */
  function Collect(ledger: seq<Item>, rec: Item): (r: seq<Item>)
    ensures HasId(ledger, rec.id) ==> r == ledger
    ensures !HasId(ledger, rec.id) ==> |r| == |ledger| + 1 && r[..|ledger|] == ledger && r[|ledger|] == rec
  {
    if FindById(ledger, rec.id).Some? then ledger else ledger + [rec]
  }

  /** Collecting preserves id uniqueness, never shrinks the ledger and always
      leaves the record's id present. */
  lemma CollectKeepsUnique(ledger: seq<Item>, rec: Item)
    requires UniqueItemIds(ledger)
    ensures UniqueItemIds(Collect(ledger, rec))
    ensures |ledger| <= |Collect(ledger, rec)|
    ensures Collect(ledger, rec)[..|ledger|] == ledger
    ensures HasId(Collect(ledger, rec), rec.id)
  {
    var r := Collect(ledger, rec);
    if !HasId(ledger, rec.id) {
      assert r[|ledger|].id == rec.id;
      forall i, j | 0 <= i < j < |r| ensures r[i].id != r[j].id {
        if j == |ledger| {
          assert r[i] == ledger[i];
        } else {
          assert r[i] == ledger[i] && r[j] == ledger[j];
        }
      }
    }
  }

  /** Collecting the same record twice is the same as collecting it once. */
  lemma CollectIdempotent(ledger: seq<Item>, rec: Item)
    ensures Collect(Collect(ledger, rec), rec) == Collect(ledger, rec)
  {
    var r := Collect(ledger, rec);
    if !HasId(ledger, rec.id) {
      assert r[|ledger|].id == rec.id;
    }
  }

  // ---------------------------------------------------------------------
  // Persistence

  /** A stored value: the JSON text of a serialised ledger, or any other text
      (for instance the visited flag). */
  datatype Value = Serialized(items: seq<Item>) | Text(text: string)

  /** The browser's local storage, as a key/value map. */
  type Storage = map<string, Value>

  const ItemsKey: string := "codeTheRootsCollectedItems"
  const VisitedKey: string := "codeTheRootsHasVisited"

  /** `localStorage.getItem(key)` taken as a condition: present and not the
      empty string. A serialised ledger is never the empty text. */
  predicate Truthy(storage: Storage, key: string) {
    key in storage && storage[key] != Text("")
  }

  /** Outcome of reading the ledger at start-up. `Unparsed` is a stored text
      that is not a serialised ledger; the app hands it to `JSON.parse` without
      any recovery, so the model does not follow that path further. */
  datatype LoadResult = Loaded(items: seq<Item>) | Unparsed(text: string)

  /** Start-up read of the ledger: the state starts empty and is replaced by
      the stored value only when the storage key holds a truthy value. */
  function Load(storage: Storage): (r: LoadResult)
    ensures !Truthy(storage, ItemsKey) ==> r == Loaded([])
    ensures Truthy(storage, ItemsKey) && storage[ItemsKey].Serialized? ==> r == Loaded(storage[ItemsKey].items)
    ensures r.Unparsed? <==> Truthy(storage, ItemsKey) && storage[ItemsKey].Text?
  {
    if !Truthy(storage, ItemsKey) then Loaded([])
    else match storage[ItemsKey]
      case Serialized(items) => Loaded(items)
      case Text(t) => Unparsed(t)
  }

  /** The write-through effect run after every ledger change: the whole ledger
      is serialised under the items key. */
  function Save(storage: Storage, ledger: seq<Item>): (r: Storage)
    ensures r.Keys == storage.Keys + {ItemsKey}
    ensures forall k :: k in storage && k != ItemsKey ==> r[k] == storage[k]
    ensures Load(r) == Loaded(ledger)
  {
    storage[ItemsKey := Serialized(ledger)]
  }
}
