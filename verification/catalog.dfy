/** The fixed station catalog of the app (App.jsx, `allStations`). */
module Catalog {
  import opened Common

  const Stations: seq<Station> := [
    Station("PT1", "CỔNG ĐỊA ĐẠO PHÚ THỌ HÒA", "Bản Đồ Bí Mật", "🗺️", Point(50.0, 95.0), "G4"),
    Station("PT2", "KHU TRƯNG BÀY VŨ KHÍ", "Súng Trường Cổ", "🔫", Point(25.0, 75.0), "G5"),
    Station("PT3", "HẦM CHỈ HUY", "Đài Liên Lạc", "📡", Point(75.0, 25.0), "G6"),
    Station("PT4", "HẦM Y TẾ", "Bộ Dụng Cụ Y Tế", "🏥", Point(50.0, 50.0), "G7"),
    Station("PT5", "HẦM BẾP", "Nồi Đồng Truyền Thống", "🍳", Point(80.0, 60.0), "G8"),
    Station("PT6", "HẦM NGỦ", "Chiếu Cỏ Dân Gian", "🛏️", Point(20.0, 40.0), "G9"),
    Station("PT7", "KHU VỰC HỌP", "Bàn Họp Truyền Thống", "🏛️", Point(40.0, 30.0), "G10")
  ]

  /** The ids of the catalog. */
  const Ids: set<string> := {"PT1", "PT2", "PT3", "PT4", "PT5", "PT6", "PT7"}

  /** The catalog is well formed: seven stations with distinct ids drawn from
      `Ids`, every position inside the map. */
  lemma WellFormed()
    ensures |Stations| == 7 == |Ids|
    ensures DistinctIds(Stations)
    ensures forall i :: 0 <= i < |Stations| ==> Stations[i].id in Ids
    ensures forall i :: 0 <= i < |Stations| ==> InBounds(Stations[i].position)
  {
  }
}
