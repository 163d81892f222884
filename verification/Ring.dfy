/** services/geofence/src/geo/ring.ts: a GeoJSON polygon as the ring the ray casting walks. */
module Ring {
  import opened Geo

  /** A GeoJSON position: longitude first. */
  datatype Position = Position(lon: real, lat: real)

  /** The outer ring in the polygon's own order, its repeated closing vertex kept. */
  function PolygonToRing(coordinates: seq<seq<Position>>): (ring: seq<LatLon>)
    ensures |ring| == (if coordinates == [] then 0 else |coordinates[0]|)
  {
    if coordinates == [] then []
    else seq(|coordinates[0]|, i requires 0 <= i < |coordinates[0]| => LatLon(coordinates[0][i].lat, coordinates[0][i].lon))
  }

  /** The kept closing vertex of a closed polygon decides nothing: the ring without it has the same inside. */
  lemma ClosingPositionIsHarmless(p: LatLon, coordinates: seq<seq<Position>>)
    requires coordinates != [] && |coordinates[0]| >= 2 && coordinates[0][0] == coordinates[0][|coordinates[0]| - 1]
    ensures var ring := PolygonToRing(coordinates); Inside(p, ring) == Inside(p, ring[..|ring| - 1])
  {
    var ring := PolygonToRing(coordinates);
    var loop := ring[..|ring| - 1];
    assert ring == loop + [loop[0]];
    ClosingVertexInvariant(p, loop);
  }
}
