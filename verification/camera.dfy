/** The AR camera view (CameraView.jsx): the per-station AR configuration
    table, the AR items derived from the nearby stations, the click/complete
    collection flow and the animation style chosen for an AR item. The camera
    stream, sensors permissions and rendering are not modelled. */
module Camera {
  import opened Common
  import opened Proximity

  /** One row of `arItemConfigs`. */
  datatype ArConfig = ArConfig(model: string, scale: real, rotation: int, animation: string,
                               color: string, glow: bool, name: string)

  const Configs: map<string, ArConfig> := map[
    "PT1" := ArConfig("🗺️", 1.5, 0, "float", "#ffd700", true, "Bản Đồ Bí Mật"),
    "PT2" := ArConfig("🔫", 1.2, 45, "pulse", "#da251d", true, "Súng Trường Cổ"),
    "PT3" := ArConfig("📡", 1.8, 90, "spin", "#00ff00", true, "Đài Liên Lạc"),
    "PT4" := ArConfig("🏥", 1.3, 180, "bounce", "#ff6b6b", true, "Bộ Dụng Cụ Y Tế"),
    "PT5" := ArConfig("🍳", 1.0, 270, "shake", "#ffa500", true, "Nồi Đồng Truyền Thống"),
    "PT6" := ArConfig("🛏️", 1.4, 135, "wave", "#8b4513", true, "Chiếu Cỏ Dân Gian"),
    "PT7" := ArConfig("🏛️", 1.6, 225, "orbit", "#4169e1", true, "Bàn Họp Truyền Thống")
  ]

  /** `arItemConfigs[id] || arItemConfigs['PT1']`. */
  function ConfigFor(id: string): (r: ArConfig)
    ensures id in Configs ==> r == Configs[id]
    ensures id !in Configs ==> r == Configs["PT1"]
    ensures r in Configs.Values
  {
    if id in Configs then Configs[id] else Configs["PT1"]
  }

  /** An AR item: the station's display fields and map position, its
      configuration and the `discovered`/`pulse` flags. The random depth is not
      modelled. */
  datatype ArItem = ArItem(id: string, name: string, item: string, icon: string, position: Point,
                           config: ArConfig, discovered: bool, pulse: bool)

  function ArItemOf(s: Station): ArItem {
    ArItem(s.id, s.name, s.item, s.icon, s.position, ConfigFor(s.id), false, false)
  }

  /** `nearby.map(station => ({ ... }))`: one AR item per station, in order. */
  function ArItemsOf(stations: seq<Station>): (r: seq<ArItem>)
    ensures |r| == |stations|
    ensures forall i :: 0 <= i < |r| ==>
              && r[i].id == stations[i].id && r[i].name == stations[i].name
              && r[i].item == stations[i].item && r[i].icon == stations[i].icon
              && r[i].position == stations[i].position
              && r[i].config == ConfigFor(stations[i].id)
              && !r[i].discovered && !r[i].pulse
  {
    seq(|stations|, i requires 0 <= i < |stations| => ArItemOf(stations[i]))
  }

  /** The effect run on every location change: nearby stations and their AR
      items. */
  function DeriveArItems(stations: seq<Station>, location: Point): (r: seq<ArItem>)
    ensures |r| == |Nearby(stations, location)|
    ensures forall i :: 0 <= i < |r| ==> r[i] == ArItemOf(Nearby(stations, location)[i])
    ensures forall i :: 0 <= i < |r| ==> exists s :: s in stations && IsNear(s, location) && r[i] == ArItemOf(s)
    ensures forall s :: s in stations && IsNear(s, location) ==> ArItemOf(s) in r
  {
    var near := Nearby(stations, location);
    var r := ArItemsOf(near);
    assert forall i :: 0 <= i < |r| ==> r[i] == ArItemOf(near[i]);
    assert forall s :: s in near ==> ArItemOf(s) in r by {
      forall s | s in near ensures ArItemOf(s) in r {
        var k :| 0 <= k < |near| && near[k] == s;
        assert r[k] == ArItemOf(s);
      }
    }
    r
  }

  /** The AR items of a concatenation are those of each part, in order: the
      items follow the order of the stations. */
  lemma DeriveArItemsAppend(a: seq<Station>, b: seq<Station>, location: Point)
    ensures DeriveArItems(a + b, location) == DeriveArItems(a, location) + DeriveArItems(b, location)
  {
    NearbyAppend(a, b, location);
    var na := Nearby(a, location);
    var nb := Nearby(b, location);
    var l := DeriveArItems(a + b, location);
    var ra := DeriveArItems(a, location);
    var rb := DeriveArItems(b, location);
    forall i | 0 <= i < |l| ensures l[i] == (ra + rb)[i] {
      if i < |ra| {
        assert (na + nb)[i] == na[i];
      } else {
        assert (na + nb)[i] == nb[i - |ra|];
      }
    }
  }

  /** `prev.filter(item => item.id !== id)`. */
  function RemoveById(items: seq<ArItem>, id: string): (r: seq<ArItem>)
    ensures forall i :: 0 <= i < |r| ==> r[i].id != id
    ensures forall a :: a in r <==> a in items && a.id != id
    ensures IsSubsequence(r, items)
    ensures |r| <= |items|
  {
    if |items| == 0 then []
    else
      var rest := RemoveById(items[1..], id);
      assert forall a :: a in items ==> a == items[0] || a in items[1..];
      if items[0].id != id then [items[0]] + rest else rest
  }

  /** Removing an id that no item carries changes nothing. */
  lemma {:induction false} RemoveAbsentId(items: seq<ArItem>, id: string)
    requires forall i :: 0 <= i < |items| ==> items[i].id != id
    ensures RemoveById(items, id) == items
  {
    if |items| > 0 {
      RemoveAbsentId(items[1..], id);
      assert [items[0]] + items[1..] == items;
    }
  }

  /** Removing the same id twice is removing it once. */
  lemma RemoveIdempotent(items: seq<ArItem>, id: string)
    ensures RemoveById(RemoveById(items, id), id) == RemoveById(items, id)
  {
    var r := RemoveById(items, id);
    RemoveAbsentId(r, id);
  }

  /** Every item with another id keeps as many copies as it had. */
  lemma {:induction false} RemoveKeepsCopies(items: seq<ArItem>, id: string, b: ArItem)
    requires b.id != id
    ensures multiset(RemoveById(items, id))[b] == multiset(items)[b]
  {
    if |items| > 0 {
      var rest := RemoveById(items[1..], id);
      RemoveKeepsCopies(items[1..], id, b);
      assert multiset(items) == multiset([items[0]]) + multiset(items[1..]) by {
        assert items == [items[0]] + items[1..];
      }
      if items[0].id != id {
        assert multiset(RemoveById(items, id)) == multiset([items[0]]) + multiset(rest);
      }
    }
  }

  /** Removing from a concatenation removes from each part. */
  lemma {:induction false} RemoveAppend(a: seq<ArItem>, b: seq<ArItem>, id: string)
    ensures RemoveById(a + b, id) == RemoveById(a, id) + RemoveById(b, id)
  {
    if |a| > 0 {
      assert (a + b)[1..] == a[1..] + b;
      RemoveAppend(a[1..], b, id);
    } else {
      assert a + b == b;
    }
  }

  /** A single item is kept iff its id differs from the removed one. */
  lemma RemoveSingleton(x: ArItem, id: string)
    ensures RemoveById([x], id) == (if x.id == id then [] else [x])
  {
    assert [x][1..] == [];
  }

  // ---------------------------------------------------------------------
  // Collection flow

  /** The camera view's state: location, AR items, the item being collected
      and the `isCollecting` flag. */
  datatype CameraState = CameraState(stations: seq<Station>, location: Point, arItems: seq<ArItem>,
                                     selected: Option<ArItem>, collecting: bool)

  /** The view as first mounted: location (50, 50), items derived for it. */
  function Mount(stations: seq<Station>): (r: CameraState)
    ensures r.location == Point(50.0, 50.0) && InBounds(r.location)
    ensures r.arItems == DeriveArItems(stations, r.location)
    ensures r.selected.None? && !r.collecting
  {
    CameraState(stations, Point(50.0, 50.0), DeriveArItems(stations, Point(50.0, 50.0)), None, false)
  }

  /** The four directions the move buttons send. */
  predicate IsDirection(direction: string) {
    direction == "up" || direction == "down" || direction == "left" || direction == "right"
  }

  /** A manual move, followed by the derivation effect. For any other
      direction the location updater returns the previous location itself,
      nothing re-renders and the AR items stay as they are. */
  function Move(st: CameraState, direction: string): (r: CameraState)
    ensures r.location == ManualMove(st.location, direction)
    ensures InBounds(st.location) ==> InBounds(r.location)
    ensures r.location.x == st.location.x || r.location.y == st.location.y
    ensures IsDirection(direction) ==> r.arItems == DeriveArItems(st.stations, r.location)
    ensures !IsDirection(direction) ==> r == st
    ensures r.selected == st.selected && r.collecting == st.collecting
  {
    if !IsDirection(direction) then st
    else
      var loc := ManualMove(st.location, direction);
      st.(location := loc, arItems := DeriveArItems(st.stations, loc))
  }

  /** After a station's AR item was collected at (50, 50), an unknown
      direction leaves the view without AR items, while a real move re-derives
      them and the station's item comes back. */
  lemma UnknownDirectionKeepsItems(s: Station)
    requires s.position == Point(50.0, 50.0)
    ensures Move(CameraState([s], Point(50.0, 50.0), [], None, false), "north").arItems == []
    ensures Move(CameraState([s], Point(50.0, 50.0), [], None, false), "up").arItems == [ArItemOf(s)]
  {
    NearbySingleton(s, Point(50.0, 45.0));
  }

  /** `handleStationClick`: select the AR item and start collecting. */
  function Click(st: CameraState, a: ArItem): (r: CameraState)
    ensures r.selected == Some(a) && r.collecting
    ensures r.arItems == st.arItems && r.location == st.location
  {
    st.(selected := Some(a), collecting := true)
  }

  /** The timer of `handleStationClick` firing, apart from the report: stop
      collecting, clear the selection and drop the collected id's AR items,
      keeping the others in order. */
  function AfterCollect(st: CameraState, a: ArItem): (r: CameraState)
    ensures r.selected.None? && !r.collecting
    ensures forall i :: 0 <= i < |r.arItems| ==> r.arItems[i].id != a.id
    ensures forall b :: b in st.arItems && b.id != a.id ==> b in r.arItems
    ensures IsSubsequence(r.arItems, st.arItems)
    ensures r.location == st.location && r.stations == st.stations
  {
    st.(selected := None, collecting := false, arItems := RemoveById(st.arItems, a.id))
  }

  /** The timer of `handleStationClick` firing, as written: the view's state
      as `AfterCollect` leaves it, and the clicked AR item reported once, as
      a record with the item's id and display fields and no NFT code. */
  function Complete(st: CameraState, a: ArItem): (r: (CameraState, Item))
    ensures r.0 == AfterCollect(st, a)
    ensures r.1.id == a.id && r.1.name == a.name && r.1.item == a.item && r.1.icon == a.icon
    ensures r.1.nftImage.None?
  {
    (AfterCollect(st, a), ReportedAsWritten(a))
  }

  /** The same completion reporting the corrected record: the copy of the
      session station with the clicked id, NFT code included. */
  function CompleteCorrected(st: CameraState, a: ArItem): (r: (CameraState, Item))
    ensures r.0 == AfterCollect(st, a)
    ensures r.1.id == a.id
    ensures (exists s :: s in st.stations && s.id == a.id) ==>
              exists s :: s in st.stations && s.id == a.id && r.1 == Snapshot(s) && r.1.nftImage == Some(s.nftImage)
  {
    (AfterCollect(st, a), Reported(st.stations, a))
  }

  /** The record the camera view reports, as written: the click handler
      receives the AR item itself, so the spread copy has no `nftImage`. */
  function ReportedAsWritten(a: ArItem): (r: Item)
    ensures r.id == a.id && r.name == a.name && r.item == a.item && r.icon == a.icon
    ensures r.nftImage.None?
  {
    Item(a.id, a.name, a.item, a.icon, a.position, None)
  }

  /** The record the camera view evidently means to report: the session
      station the AR item was made from, copied in full (looked up by id). */
  function Reported(stations: seq<Station>, a: ArItem): (r: Item)
    ensures r.id == a.id
    ensures (exists s :: s in stations && s.id == a.id) ==> exists s :: s in stations && s.id == a.id && r == Snapshot(s)
    decreases |stations|
  {
    if |stations| == 0 then ReportedAsWritten(a)
    else if stations[0].id == a.id then Snapshot(stations[0])
    else
      assert forall s :: s in stations && s.id == a.id ==> s in stations[1..];
      Reported(stations[1..], a)
  }

  /** In a session with distinct ids, the corrected report for an id is the
      copy of the one station carrying it. */
  lemma {:induction false} ReportedById(stations: seq<Station>, a: ArItem, s: Station)
    requires DistinctIds(stations)
    requires s in stations && s.id == a.id
    ensures Reported(stations, a) == Snapshot(s)
    decreases |stations|
  {
    var k :| 0 <= k < |stations| && stations[k] == s;
    if stations[0].id != a.id {
      assert stations[1..][k - 1] == s;
      ReportedById(stations[1..], a, s);
    }
  }

  // ---------------------------------------------------------------------
  // Animation style

  /** The style of an AR item: the base part (size, colour, glow, rotation)
      and the optional animation. The base part of the source is a few CSS
      strings; here its inputs are kept. */
  datatype Style = Style(sizeRem: real, color: string, glowColor: Option<string>, rotation: int,
                         animation: Option<string>)

  /** The seven animation names and their keyframe strings. */
  const Animations: map<string, string> := map[
    "float" := "arFloat 3s ease-in-out infinite",
    "pulse" := "arPulse 2s ease-in-out infinite",
    "spin" := "arSpin 4s linear infinite",
    "bounce" := "arBounce 1.5s ease-in-out infinite",
    "shake" := "arShake 0.5s ease-in-out infinite",
    "wave" := "arWave 2s ease-in-out infinite",
    "orbit" := "arOrbit 6s linear infinite"
  ]

  /** `getArAnimationStyle`: the base style, plus the named animation when the
      name is one of the seven. */
  function AnimationStyle(config: ArConfig): (r: Style)
    ensures r.sizeRem == config.scale * 2.0 && r.color == config.color && r.rotation == config.rotation
    ensures r.glowColor.Some? <==> config.glow
    ensures r.glowColor.Some? ==> r.glowColor.value == config.color
    ensures config.animation in Animations ==> r.animation == Some(Animations[config.animation])
    ensures config.animation !in Animations ==> r.animation.None?
  {
    var base := Style(config.scale * 2.0, config.color, if config.glow then Some(config.color) else None,
                      config.rotation, None);
    match config.animation
    case "float" => base.(animation := Some("arFloat 3s ease-in-out infinite"))
    case "pulse" => base.(animation := Some("arPulse 2s ease-in-out infinite"))
    case "spin" => base.(animation := Some("arSpin 4s linear infinite"))
    case "bounce" => base.(animation := Some("arBounce 1.5s ease-in-out infinite"))
    case "shake" => base.(animation := Some("arShake 0.5s ease-in-out infinite"))
    case "wave" => base.(animation := Some("arWave 2s ease-in-out infinite"))
    case "orbit" => base.(animation := Some("arOrbit 6s linear infinite"))
    case _ => base
  }

  /** Every AR item is animated: each configuration of the table, and so the
      fallback too, names one of the seven animations. */
  lemma EveryConfigAnimated(id: string)
    ensures ConfigFor(id).animation in Animations
    ensures AnimationStyle(ConfigFor(id)).animation.Some?
  {
  }

  /** The station each animation belongs to. */
  const AnimationOwner: map<string, string> := map[
    "float" := "PT1", "pulse" := "PT2", "spin" := "PT3", "bounce" := "PT4",
    "shake" := "PT5", "wave" := "PT6", "orbit" := "PT7"
  ]

  /** No two stations share an animation: the animation determines the
      station. */
  lemma ConfigAnimationsDistinct()
    ensures forall a :: a in Configs ==> Configs[a].animation in AnimationOwner && AnimationOwner[Configs[a].animation] == a
    ensures forall a, b :: a in Configs && b in Configs && a != b ==> Configs[a].animation != Configs[b].animation
  {
    assert forall a :: a in Configs ==> Configs[a].animation in AnimationOwner && AnimationOwner[Configs[a].animation] == a;
  }
}
