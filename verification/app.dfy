/** The top-level application state (App.jsx): start-up load and session
    selection, the collection modal's open/confirm/close handlers and the
    camera view's collection callback, all funnelled into the ledger. */
module App {
  import opened Common
  import Catalog
  import opened Ledger

  /** Number of stations drawn for a session. */
  const SessionSize: nat := 3

  /** `order` lists each index below `n` exactly once: the outcome of sorting
      a copy of an `n`-element array with a random comparator. */
  predicate IsPermutation(order: seq<nat>, n: nat) {
    && |order| == n
    && (forall i :: 0 <= i < |order| ==> order[i] < n)
    && (forall i, j :: 0 <= i < j < |order| ==> order[i] != order[j])
  }

  /** `[...stations].sort(random).slice(0, k)`: the shuffle is the permutation
      `order`; `slice` stops early on a short array. */
  function SelectSession(stations: seq<Station>, order: seq<nat>, k: nat): (r: seq<Station>)
    requires IsPermutation(order, |stations|)
    ensures |r| == if k <= |stations| then k else |stations|
    ensures forall i :: 0 <= i < |r| ==> r[i] in stations
    ensures DistinctIds(stations) ==> DistinctIds(r)
  {
    var shuffled := seq(|order|, i requires 0 <= i < |order| => stations[order[i]]);
    var n := if k <= |shuffled| then k else |shuffled|;
    assert forall i, j :: 0 <= i < j < n ==> shuffled[i] == stations[order[i]] && shuffled[j] == stations[order[j]];
    shuffled[..n]
  }

  /** The application's state: ledger, session, the modal's selection and
      visibility, and the storage the ledger is mirrored into. */
  datatype AppState = AppState(ledger: seq<Item>, session: seq<Station>, selected: Option<Station>,
                               showModal: bool, storage: Storage)

  /** Start-up: read the ledger, draw a session (identically on a first and a
      return visit) and, on a first visit only, write the visited flag; then
      the write-through effect stores the ledger. A stored ledger that is not
      a serialised one is reported as `None` (the app does not recover). */
  function Startup(storage: Storage, order: seq<nat>): (r: Option<AppState>)
    requires IsPermutation(order, |Catalog.Stations|)
    ensures r.None? <==> Load(storage).Unparsed?
    ensures r.Some? ==> r.value.ledger == Load(storage).items
    ensures r.Some? ==> |r.value.session| == SessionSize && DistinctIds(r.value.session)
    ensures r.Some? ==> forall i :: 0 <= i < |r.value.session| ==> r.value.session[i] in Catalog.Stations
    ensures r.Some? ==> r.value.selected.None? && !r.value.showModal
    ensures r.Some? && !Truthy(storage, VisitedKey) ==> VisitedKey in r.value.storage && r.value.storage[VisitedKey] == Text("true")
    ensures r.Some? && Truthy(storage, VisitedKey) ==> VisitedKey in r.value.storage && r.value.storage[VisitedKey] == storage[VisitedKey]
    ensures r.Some? ==> Load(r.value.storage) == Loaded(r.value.ledger)
  {
    Catalog.WellFormed();
    match Load(storage)
    case Unparsed(_) => None
    case Loaded(items) =>
      var session := SelectSession(Catalog.Stations, order, SessionSize);
      var flagged := if !Truthy(storage, VisitedKey) then storage[VisitedKey := Text("true")] else storage;
      Some(AppState(items, session, None, false, Save(flagged, items)))
  }

  /** The visited flag never influences the session: a first and a return
      visit drawing the same permutation get the same stations, and only the
      first-visit branch changes the flag. */
  lemma SessionIgnoresVisitedFlag(s1: Storage, s2: Storage, order: seq<nat>)
    requires IsPermutation(order, |Catalog.Stations|)
    requires Startup(s1, order).Some? && Startup(s2, order).Some?
    ensures Startup(s1, order).value.session == Startup(s2, order).value.session
    ensures Truthy(s1, VisitedKey) ==> VisitedKey in Startup(s1, order).value.storage && Startup(s1, order).value.storage[VisitedKey] == s1[VisitedKey]
  {
  }

  /** `handleStationClick`: remember the station and open the modal. */
  function HandleStationClick(st: AppState, s: Station): (r: AppState)
    ensures r.selected == Some(s) && r.showModal
    ensures r.ledger == st.ledger && r.session == st.session && r.storage == st.storage
  {
    st.(selected := Some(s), showModal := true)
  }

  /** `handleCollectItem` (reached through the modal's confirmation): collect
      the selected station, if any and not yet collected; in every case close
      the modal and clear the selection. */
  function HandleCollectItem(st: AppState): (r: AppState)
    ensures !r.showModal && r.selected.None?
    ensures r.session == st.session
    ensures st.selected.None? ==> r.ledger == st.ledger
    ensures st.selected.Some? && HasId(st.ledger, st.selected.value.id) ==> r.ledger == st.ledger
    ensures st.selected.Some? && !HasId(st.ledger, st.selected.value.id) ==>
              r.ledger == st.ledger + [Snapshot(st.selected.value)]
    ensures Load(st.storage) == Loaded(st.ledger) ==> Load(r.storage) == Loaded(r.ledger)
  {
    var ledger := if st.selected.Some? then Collect(st.ledger, Snapshot(st.selected.value)) else st.ledger;
    AppState(ledger, st.session, None, false, if ledger == st.ledger then st.storage else Save(st.storage, ledger))
  }

  /** `handleCloseModal`: close without collecting. */
  function HandleCloseModal(st: AppState): (r: AppState)
    ensures !r.showModal && r.selected.None?
    ensures r.ledger == st.ledger && r.storage == st.storage
  {
    st.(selected := None, showModal := false)
  }

  /** `handleCameraStationFound`: the guarded append of whatever record the
      camera view reports; selection and modal are not touched. */
  function HandleCameraStationFound(st: AppState, rec: Item): (r: AppState)
    ensures r.selected == st.selected && r.showModal == st.showModal
    ensures HasId(st.ledger, rec.id) ==> r.ledger == st.ledger
    ensures !HasId(st.ledger, rec.id) ==> r.ledger == st.ledger + [rec]
    ensures Load(st.storage) == Loaded(st.ledger) ==> Load(r.storage) == Loaded(r.ledger)
  {
    var ledger := Collect(st.ledger, rec);
    st.(ledger := ledger, storage := if ledger == st.ledger then st.storage else Save(st.storage, ledger))
  }

  /** The user-visible events that reach the top-level state. */
  datatype Event =
    | StationClicked(station: Station)
    | CollectConfirmed
    | ModalClosed
    | CameraFound(record: Item)

  /** One event: the ledger is either left alone or grows by one record at
      its end; only a click opens the modal, and confirming or closing
      leaves it closed with nothing selected. */
  function Step(st: AppState, e: Event): (r: AppState)
    ensures r.ledger == st.ledger || (|r.ledger| == |st.ledger| + 1 && r.ledger[..|st.ledger|] == st.ledger)
    ensures r.session == st.session
    ensures e.StationClicked? || e.ModalClosed? ==> r.ledger == st.ledger && r.storage == st.storage
    ensures e.StationClicked? ==> r.showModal && r.selected == Some(e.station)
    ensures e.CollectConfirmed? || e.ModalClosed? ==> !r.showModal && r.selected.None?
  {
    match e
    case StationClicked(s) => HandleStationClick(st, s)
    case CollectConfirmed => HandleCollectItem(st)
    case ModalClosed => HandleCloseModal(st)
    case CameraFound(rec) => HandleCameraStationFound(st, rec)
  }

  /** A sequence of events, in order. The ledger only ever grows at its end,
      by at most one record per event. */
  function Run(st: AppState, events: seq<Event>): (r: AppState)
    ensures |st.ledger| <= |r.ledger| <= |st.ledger| + |events|
    ensures r.ledger[..|st.ledger|] == st.ledger
    ensures r.session == st.session
    decreases |events|
  {
    if |events| == 0 then st
    else
      var next := Step(st, events[0]);
      var r := Run(next, events[1..]);
      assert r.ledger[..|st.ledger|] == r.ledger[..|next.ledger|][..|st.ledger|];
      r
  }

  /** Every record the ledger holds is a catalog station's. */
  predicate FromCatalog(ledger: seq<Item>) {
    forall i :: 0 <= i < |ledger| ==> ledger[i].id in Catalog.Ids
  }

  /** Events whose stations and records all come from the catalog. */
  predicate CatalogEvents(events: seq<Event>) {
    forall i :: 0 <= i < |events| ==>
      match events[i]
      case StationClicked(s) => s.id in Catalog.Ids
      case CameraFound(rec) => rec.id in Catalog.Ids
      case _ => true
  }

  /** The ledger invariant: ids pairwise distinct, all from the catalog, and
      the storage mirrors the ledger. */
  predicate Valid(st: AppState) {
    && UniqueItemIds(st.ledger)
    && FromCatalog(st.ledger)
    && Load(st.storage) == Loaded(st.ledger)
    && (st.selected.Some? ==> st.selected.value.id in Catalog.Ids)
  }

  /** Start-up establishes the ledger invariant exactly when the stored
      ledger has distinct ids, all from the catalog. */
  lemma StartupValid(storage: Storage, order: seq<nat>)
    requires IsPermutation(order, |Catalog.Stations|)
    requires Load(storage).Loaded?
    ensures Startup(storage, order).Some?
    ensures Valid(Startup(storage, order).value) <==>
              UniqueItemIds(Load(storage).items) && FromCatalog(Load(storage).items)
  {
  }

  /** From a first visit (nothing stored), any sequence of catalog events
      keeps the invariant, and the ledger never exceeds the catalog. */
  lemma FirstVisitStaysValid(order: seq<nat>, events: seq<Event>)
    requires IsPermutation(order, |Catalog.Stations|)
    requires CatalogEvents(events)
    ensures Startup(map[], order).Some? && Startup(map[], order).value.ledger == []
    ensures Valid(Run(Startup(map[], order).value, events))
    ensures |Run(Startup(map[], order).value, events).ledger| <= |Catalog.Stations|
  {
    var st := Startup(map[], order).value;
    StartupValid(map[], order);
    RunKeepsValid(st, events);
    LedgerAtMostCatalog(Run(st, events).ledger);
  }

  lemma StepKeepsValid(st: AppState, e: Event)
    requires Valid(st)
    requires CatalogEvents([e])
    ensures Valid(Step(st, e))
    ensures st.ledger == Step(st, e).ledger[..|st.ledger|]
  {
    match e
    case StationClicked(s) =>
      assert e == [e][0];
    case CollectConfirmed =>
      CollectItemKeepsValid(st);
    case ModalClosed =>
    case CameraFound(rec) =>
      assert e == [e][0];
      CameraFoundKeepsValid(st, rec);
  }

  lemma CollectItemKeepsValid(st: AppState)
    requires Valid(st)
    ensures Valid(HandleCollectItem(st))
    ensures st.ledger == HandleCollectItem(st).ledger[..|st.ledger|]
  {
    if st.selected.Some? {
      var rec := Snapshot(st.selected.value);
      CollectKeepsUnique(st.ledger, rec);
      CollectKeepsFromCatalog(st.ledger, rec);
    }
  }

  lemma CameraFoundKeepsValid(st: AppState, rec: Item)
    requires Valid(st)
    requires rec.id in Catalog.Ids
    ensures Valid(HandleCameraStationFound(st, rec))
    ensures st.ledger == HandleCameraStationFound(st, rec).ledger[..|st.ledger|]
  {
    CollectKeepsUnique(st.ledger, rec);
    CollectKeepsFromCatalog(st.ledger, rec);
  }

  /** Collecting a catalog record keeps the ledger within the catalog. */
  lemma CollectKeepsFromCatalog(ledger: seq<Item>, rec: Item)
    requires FromCatalog(ledger)
    requires rec.id in Catalog.Ids
    ensures FromCatalog(Collect(ledger, rec))
  {
    var r := Collect(ledger, rec);
    forall i | 0 <= i < |r| ensures r[i].id in Catalog.Ids {
      if i < |ledger| { assert r[i] == r[..|ledger|][i]; }
    }
  }

  /** Across any sequence of catalog events the ledger keeps distinct ids and
      stays mirrored in storage, and it only ever grows at the end. */
  lemma {:induction false} RunKeepsValid(st: AppState, events: seq<Event>)
    requires Valid(st)
    requires CatalogEvents(events)
    ensures Valid(Run(st, events))
    ensures |st.ledger| <= |Run(st, events).ledger|
    ensures st.ledger == Run(st, events).ledger[..|st.ledger|]
    decreases |events|
  {
    if |events| > 0 {
      assert CatalogEvents([events[0]]) by {
        assert [events[0]][0] == events[0];
      }
      StepKeepsValid(st, events[0]);
      var next := Step(st, events[0]);
      assert CatalogEvents(events[1..]) by {
        forall i | 0 <= i < |events[1..]| ensures events[1..][i] == events[i + 1] { }
      }
      RunKeepsValid(next, events[1..]);
      var fin := Run(next, events[1..]);
      assert fin.ledger[..|st.ledger|] == fin.ledger[..|next.ledger|][..|st.ledger|];
    }
  }

  /** A ledger of distinct catalog ids never holds more records than the
      catalog has stations. */
  lemma {:induction false} LedgerAtMostCatalog(ledger: seq<Item>)
    requires UniqueItemIds(ledger)
    requires FromCatalog(ledger)
    ensures |ledger| <= |Catalog.Stations|
  {
    Catalog.WellFormed();
    var ids := set i | 0 <= i < |ledger| :: ledger[i].id;
    assert ids <= Catalog.Ids;
    IdsCount(ledger);
    assert |ids| <= |Catalog.Ids| by { SubsetCard(ids, Catalog.Ids); }
  }

  lemma {:induction false} IdsCount(ledger: seq<Item>)
    requires UniqueItemIds(ledger)
    ensures |set i | 0 <= i < |ledger| :: ledger[i].id| == |ledger|
  {
    if |ledger| > 0 {
      var init := ledger[..|ledger| - 1];
      var last := ledger[|ledger| - 1];
      assert UniqueItemIds(init);
      IdsCount(init);
      var a := set i | 0 <= i < |init| :: init[i].id;
      var b := set i | 0 <= i < |ledger| :: ledger[i].id;
      assert b == a + {last.id};
      assert last.id !in a;
    }
  }

  lemma SubsetCard(a: set<string>, b: set<string>)
    requires a <= b
    ensures |a| <= |b|
  {
    assert b == a + (b - a);
  }
}
