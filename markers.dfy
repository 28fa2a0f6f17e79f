/** What the marker effect derives from the filtered listings: one marker
    descriptor per listing, the points the viewport is fitted to, and the
    zoom ceiling applied once the map is idle. The mapping service's own
    objects are opaque. */
module Markers {
  import opened Listings

  datatype Position = Position(lat: real, lng: real)

  /** The options a marker is created with that depend on its listing. */
  datatype MarkerSpec = MarkerSpec(position: Position, title: string, fillColor: string)

  const FavoriteFill: string := "#f50057"
  const DefaultFill: string := "#667eea"

  /** The zoom level the map is clamped to after fitting its bounds. */
  const MaxZoom: real := 15.0

  function FillColor(isFavorite: bool): (c: string)
    ensures c == FavoriteFill <==> isFavorite
    ensures c == DefaultFill <==> !isFavorite
  {
    if isFavorite then FavoriteFill else DefaultFill
  }

  function PositionOf(p: Property): Position {
    Position(p.lat, p.lng)
  }

  /** One marker descriptor per shown listing, in order, keeping only what
      depends on the listing. */
  function MarkerSpecs(s: seq<Property>): (r: seq<MarkerSpec>)
    ensures |r| == |s|
    ensures forall i :: 0 <= i < |s| ==>
      && r[i].position == Position(s[i].lat, s[i].lng)
      && r[i].title == s[i].title
      && (r[i].fillColor == FavoriteFill <==> s[i].isFavorite)
      && (r[i].fillColor == DefaultFill <==> !s[i].isFavorite)
  {
    seq(|s|, i requires 0 <= i < |s| => MarkerSpec(PositionOf(s[i]), s[i].title, FillColor(s[i].isFavorite)))
  }

  /** The points the fitted bounds are extended by, in order: exactly where
      the markers of the same list stand. */
  function Positions(s: seq<Property>): (r: seq<Position>)
    ensures |r| == |s|
    ensures forall i :: 0 <= i < |s| ==> r[i] == MarkerSpecs(s)[i].position
  {
    seq(|s|, i requires 0 <= i < |s| => PositionOf(s[i]))
  }

  /** The idle listener's zoom ceiling: at most the ceiling,
      and unchanged when already at or below it. The zoom is a real number,
      since the map may report a fractional zoom level. */
  function ClampZoom(zoom: real): (r: real)
    ensures r <= MaxZoom
    ensures zoom <= MaxZoom ==> r == zoom
    ensures zoom > MaxZoom ==> r == MaxZoom
  {
    if zoom > MaxZoom then MaxZoom else zoom
  }

  /** Clamping twice is clamping once. */
  lemma ClampZoomIdempotent(zoom: real)
    ensures ClampZoom(ClampZoom(zoom)) == ClampZoom(zoom)
  {
  }

  /** After a favourite toggle the markers rebuilt from the toggled list
      stand where they stood, with the same titles; exactly the toggled
      listings change colour. */
  lemma MarkersAfterToggle(s: seq<Property>, id: int)
    ensures |MarkerSpecs(ToggleIn(s, id))| == |MarkerSpecs(s)|
    ensures forall i :: 0 <= i < |s| ==>
      var before, after := MarkerSpecs(s)[i], MarkerSpecs(ToggleIn(s, id))[i];
      && after.position == before.position
      && after.title == before.title
      && (after.fillColor == before.fillColor <==> s[i].id != id)
  {
    var t := ToggleIn(s, id);
    forall i | 0 <= i < |s|
      ensures t[i].lat == s[i].lat && t[i].lng == s[i].lng && t[i].title == s[i].title
    {
      assert t[i].(isFavorite := s[i].isFavorite) == s[i];
    }
  }
}
