/** The static catalog of eight Daejeon sites shared by the survey map and the
    site-selection demo (`sites_data`, name -> lat/lon). */
module Daejeon {
  import opened Geo

  const SitesData: map<string, Coord> := map[
    "Daejeon Expo Park" := Coord(36.3730, 127.3847),
    "Yuseong Hot Springs" := Coord(36.3565, 127.3279),
    "National Science Museum" := Coord(36.3746, 127.3722),
    "Hanbat Arboretum" := Coord(36.3058, 127.3381),
    "Daejeon Museum of Art" := Coord(36.3519, 127.3891),
    "Gyejoksan Mountain" := Coord(36.2908, 127.3338),
    "Ppuri Park" := Coord(36.3414, 127.3938),
    "Daejeon O-World" := Coord(36.2902, 127.4011)
  ]

  /** Fixed map centre used where the map does not follow the selection. */
  const DaejeonCentre: Coord := Coord(36.3504, 127.3845)
}
