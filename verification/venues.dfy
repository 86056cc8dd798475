/** The venue registry: the stadium coordinates of each home team. */
module Venues {
  import opened Wrappers

  datatype Coord = Coord(lat: real, lon: real)

  /** Team code to stadium coordinates, fixed at start-up. */
  const Stadiums: map<string, Coord> :=
    map[
      "BAL" := Coord(39.278088, -76.623322),
      "BUF" := Coord(42.773773, -78.787460),
      "CAR" := Coord(35.225845, -80.853607),
      "CHI" := Coord(41.862366, -87.617256),
      "CIN" := Coord(39.096306, -84.516846),
      "CLE" := Coord(41.506054, -81.699548),
      "DEN" := Coord(39.744129, -105.020828),
      "GB" := Coord(44.501308, -88.062317),
      "JAX" := Coord(30.323471, -81.636528),
      "KC" := Coord(39.048786, -94.484566),
      "MIA" := Coord(25.957960, -80.239311),
      "NYG" := Coord(40.813778, -74.074310),
      "NYJ" := Coord(40.813778, -74.074310),
      "NE" := Coord(42.091, -71.264),
      "PHI" := Coord(39.900898, -75.168098),
      "PIT" := Coord(40.446903, -80.015823),
      "SF" := Coord(37.403158, -121.969831),
      "SEA" := Coord(47.595097, -122.332245),
      "TB" := Coord(27.975958, -82.503693),
      "TEN" := Coord(36.166479, -86.771290),
      "WAS" := Coord(38.90778, -76.86444),
      "ARI" := Coord(33.527283, -112.263275),
      "DAL" := Coord(32.747841, -97.093628),
      "ATL" := Coord(33.755489, -84.401993),
      "DET" := Coord(42.340115, -83.046341),
      "HOU" := Coord(29.684860, -95.411667),
      "IND" := Coord(39.759991, -86.163712),
      "LV" := Coord(36.090794, -115.183952),
      "LAC" := Coord(33.953587, -118.339630),
      "LA" := Coord(33.953587, -118.339630),
      "MIN" := Coord(44.973774, -93.258736),
      "NO" := Coord(29.951439, -90.081970)
    ]

  /** `stadium_dict[team]`; `None` where Python raises `KeyError`. */
  function Lookup(team: string): (r: Option<Coord>)
    ensures r.Some? <==> team in Stadiums
  {
    if team in Stadiums then Some(Stadiums[team]) else None
  }
}
