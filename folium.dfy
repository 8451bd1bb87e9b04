/** The part of a folium map the demos use: markers and polylines added to a map
    object in place. A `MarkerCluster` attached to a map is represented by the
    map's own marker list. */
module Folium {
  import opened Geo

  datatype Marker = Marker(location: Coord, popup: string)

  datatype PolyLine = PolyLine(points: seq<Coord>, color: string, weight: int, opacity: int)

  class FoliumMap {
    const location: Coord
    const zoomStart: int
    var markers: seq<Marker>
    var polylines: seq<PolyLine>

    /** `folium.Map(location=..., zoom_start=...)`: an empty map. */
    constructor (location: Coord, zoomStart: int)
      ensures this.location == location && this.zoomStart == zoomStart
      ensures markers == [] && polylines == []
    {
      this.location := location;
      this.zoomStart := zoomStart;
      markers := [];
      polylines := [];
    }

    /** `folium.Marker(...).add_to(map)`. */
    method AddMarker(m: Marker)
      modifies this
      ensures markers == old(markers) + [m]
      ensures polylines == old(polylines)
    {
      markers := markers + [m];
    }

    /** `folium.PolyLine(...).add_to(map)`. */
    method AddPolyLine(p: PolyLine)
      modifies this
      ensures polylines == old(polylines) + [p]
      ensures markers == old(markers)
    {
      polylines := polylines + [p];
    }
  }
}
