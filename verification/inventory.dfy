/** The inventory page (Inventory.jsx): progress, the empty/achievement
    sections, the NFT image table and one card per collected record. */
module Inventory {
  import opened Common
  import Catalog
  import App
  import Camera
  import Proximity

  /** `(collected / total) * 100`; `None` stands for the non-finite result of
      dividing by an empty catalog. */
  function Progress(collected: nat, total: nat): (r: Option<real>)
    ensures r.None? <==> total == 0
    ensures r.Some? ==> r.value * total as real == 100.0 * collected as real
    ensures r.Some? && collected <= total ==> 0.0 <= r.value <= 100.0
    ensures r.Some? && collected == total ==> r.value == 100.0
  {
    if total == 0 then None else Some((collected as real / total as real) * 100.0)
  }

  /** Progress is monotone in the number of collected records. */
  lemma ProgressMonotone(c1: nat, c2: nat, total: nat)
    requires total > 0 && c1 <= c2
    ensures Progress(c1, total).value <= Progress(c2, total).value
  {
    var t := total as real;
    DivMonotone(c1 as real, c2 as real, t);
  }

  lemma DivMonotone(a: real, b: real, t: real)
    requires a <= b && t > 0.0
    ensures a / t <= b / t
  {
    assert (b / t - a / t) * t == b - a;
  }

  /** What the page shows under the grid: the empty state, or the achievement
      section with either the completion message or the remaining count. */
  datatype Summary = EmptyState | Completed | Remaining(count: int)

  function SummaryOf(collected: nat, total: nat): (r: Summary)
    ensures r.EmptyState? <==> collected == 0
    ensures r.Completed? <==> collected > 0 && collected == total
    ensures r.Remaining? <==> collected > 0 && collected != total
    ensures r.Remaining? ==> r.count == total - collected
  {
    if collected == 0 then EmptyState
    else if collected == total then Completed
    else Remaining(total - collected)
  }

  /** For any ledger the app can reach, the remaining count is positive and
      the completion message appears exactly when every station is collected. */
  lemma SummaryOfValidLedger(st: App.AppState)
    requires App.Valid(st)
    ensures SummaryOf(|st.ledger|, |Catalog.Stations|).Remaining? ==>
              SummaryOf(|st.ledger|, |Catalog.Stations|).count > 0
    ensures Progress(|st.ledger|, |Catalog.Stations|).Some?
    ensures 0.0 <= Progress(|st.ledger|, |Catalog.Stations|).value <= 100.0
  {
    App.LedgerAtMostCatalog(st.ledger);
  }

  // ---------------------------------------------------------------------
  // NFT images

  /** The seven NFT codes. */
  const Codes: seq<string> := ["G4", "G5", "G6", "G7", "G8", "G9", "G10"]

  const Images: map<string, string> := map[
    "G4" := "https://via.placeholder.com/200x150/da251d/ffffff?text=G4",
    "G5" := "https://via.placeholder.com/200x150/ffd700/000000?text=G5",
    "G6" := "https://via.placeholder.com/200x150/da251d/ffffff?text=G6",
    "G7" := "https://via.placeholder.com/200x150/ffd700/000000?text=G7",
    "G8" := "https://via.placeholder.com/200x150/da251d/ffffff?text=G8",
    "G9" := "https://via.placeholder.com/200x150/ffd700/000000?text=G9",
    "G10" := "https://via.placeholder.com/200x150/da251d/ffffff?text=G10"
  ]

  /** `nftImages[code] || nftImages['G4']` over an image table holding `G4`;
      an absent code (`undefined`) takes the fallback. */
  function ImageFrom(table: map<string, string>, code: Option<string>): (r: string)
    requires "G4" in table
    ensures code.Some? && code.value in table ==> r == table[code.value]
    ensures !(code.Some? && code.value in table) ==> r == table["G4"]
  {
    if code.Some? && code.value in table then table[code.value] else table["G4"]
  }

  /** `getNFTImage` of the inventory page. */
  function NftImage(code: Option<string>): (r: string)
    ensures r in Images.Values
  {
    ImageFrom(Images, code)
  }

  /** The character following "text=G" in every image URL of both tables,
      and the code it identifies. */
  const MarkerIndex: nat := 56
  const MarkerOwner: map<char, string> := map[
    '4' := "G4", '5' := "G5", '6' := "G6", '7' := "G7", '8' := "G8", '9' := "G9", '1' := "G10"
  ]

  /** `table` holds exactly the seven codes and each image carries the marker
      of its own code. */
  ghost predicate Marked(table: map<string, string>) {
    && (forall c :: c in table <==> c in Codes)
    && (forall c :: c in table ==> MarkerIndex < |table[c]| && table[c][MarkerIndex] in MarkerOwner &&
                                   MarkerOwner[table[c][MarkerIndex]] == c)
  }

  /** A marked table maps different codes to different images. */
  lemma MarkedIsInjective(table: map<string, string>)
    requires Marked(table)
    ensures forall a, b :: a in table && b in table && a != b ==> table[a] != table[b]
  {
  }

  lemma ImagesMarked()
    ensures Marked(Images)
  {
    forall c | c in Images
      ensures MarkerIndex < |Images[c]| && Images[c][MarkerIndex] in MarkerOwner && MarkerOwner[Images[c][MarkerIndex]] == c
    {
      if c == "G4" {} else if c == "G5" {} else if c == "G6" {} else if c == "G7" {}
      else if c == "G8" {} else if c == "G9" {} else {}
    }
  }

  /** Each of the seven codes shows its own image, different from every other
      code's; any other code, or none, shows G4's. */
  lemma NftImageTable(code: Option<string>)
    ensures forall c :: c in Images <==> c in Codes
    ensures code.Some? && code.value in Codes ==> NftImage(code) == Images[code.value]
    ensures !(code.Some? && code.value in Codes) ==> NftImage(code) == Images["G4"]
    ensures forall a, b :: a in Images && b in Images && a != b ==> Images[a] != Images[b]
  {
    ImagesMarked();
    MarkedIsInjective(Images);
  }

  /** One rendered inventory card. */
  datatype Card = Card(key: string, image: string, nftLabel: Option<string>, icon: string,
                       item: string, name: string)

  /** `collectedItems.map(item => <div key={item.id}> ...)`. */
  function Cards(ledger: seq<Item>): (r: seq<Card>)
    ensures |r| == |ledger|
    ensures forall i :: 0 <= i < |r| ==> r[i].key == ledger[i].id && r[i].image == NftImage(ledger[i].nftImage)
    ensures forall i :: 0 <= i < |r| ==> r[i].item == ledger[i].item && r[i].name == ledger[i].name
  {
    seq(|ledger|, i requires 0 <= i < |ledger| =>
      Card(ledger[i].id, NftImage(ledger[i].nftImage), ledger[i].nftImage, ledger[i].icon,
           ledger[i].item, ledger[i].name))
  }

  /** The card keys are distinct exactly when the ledger's ids are, which the
      app's ledger invariant guarantees. */
  lemma CardKeysUnique(ledger: seq<Item>)
    ensures (forall i, j :: 0 <= i < j < |Cards(ledger)| ==> Cards(ledger)[i].key != Cards(ledger)[j].key)
            <==> UniqueItemIds(ledger)
  {
    var c := Cards(ledger);
    assert forall i :: 0 <= i < |c| ==> c[i].key == ledger[i].id;
  }

  /** A catalog station collected from the map shows its own NFT image. */
  lemma MapCollectedShowsOwnImage(s: Station)
    requires s in Catalog.Stations
    ensures s.nftImage in Images
    ensures NftImage(Snapshot(s).nftImage) == Images[s.nftImage]
  {
    var k :| 0 <= k < |Catalog.Stations| && Catalog.Stations[k] == s;
    assert s.nftImage == Codes[k];
  }

  /** As written, a station collected through the camera view is recorded
      without its NFT code and the inventory shows G4's image for it: PT3
      (code G6), seen from (75, 25), shows G4's image. */
  lemma CameraCollectedShowsFallback()
    ensures Catalog.Stations[2].id == "PT3" && Catalog.Stations[2].nftImage == "G6"
    ensures var items := Camera.DeriveArItems([Catalog.Stations[2]], Point(75.0, 25.0));
            |items| == 1 &&
            NftImage(Camera.ReportedAsWritten(items[0]).nftImage) == Images["G4"] &&
            Images["G4"] != Images["G6"]
  {
    var s := Catalog.Stations[2];
    Proximity.NearbySingleton(s, Point(75.0, 25.0));
  }

  /** As written, every record the camera view reports shows G4's image,
      whatever was collected. */
  lemma CameraReportShowsFallback(st: Camera.CameraState, a: Camera.ArItem)
    ensures NftImage(Camera.Complete(st, a).1.nftImage) == Images["G4"]
  {
  }

  /** With the corrected report, a catalog station of a session with distinct
      ids, collected through the camera view from an AR item carrying its id,
      shows its own NFT image. */
  lemma CameraCollectedShowsOwnImage(stations: seq<Station>, s: Station, a: Camera.ArItem)
    requires DistinctIds(stations)
    requires forall k :: 0 <= k < |stations| ==> stations[k] in Catalog.Stations
    requires s in stations && a.id == s.id
    ensures Camera.Reported(stations, a).nftImage == Some(s.nftImage)
    ensures s.nftImage in Images && NftImage(Camera.Reported(stations, a).nftImage) == Images[s.nftImage]
  {
    Camera.ReportedById(stations, a, s);
    var k :| 0 <= k < |stations| && stations[k] == s;
    MapCollectedShowsOwnImage(s);
  }
}
