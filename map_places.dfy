/** The pure logic of the map explorer (7/scripts/map.js): the place and
    geofence tables, the category icons, place search, the nearby filter,
    the route length, geofence crossings and the one-shot click modes with
    their buttons.  Leaflet's `distanceTo` is a parameter about which only
    non-negativity is known. */
module MapPlaces {
  import opened Wrappers
  import opened JsText

  /** A geographic position. */
  datatype LatLng = LatLng(lat: real, lng: real)

  /** `a.distanceTo(b)`, in metres. */
  type Distance = (LatLng, LatLng) -> real

  ghost predicate NonNegative(d: Distance)
  {
    forall a, b :: d(a, b) >= 0.0
  }

  /* ---------------- places and icons ---------------- */

  datatype Place = Place(name: string, coords: LatLng, category: string)

  /** The built-in places (addresses and descriptions only feed popups). */
  const Places: seq<Place> := [
    Place("Central Park", LatLng(40.7829, -73.9654), "park"),
    Place("Museum of Modern Art", LatLng(40.7614, -73.9776), "museum"),
    Place("Brooklyn Bridge Park", LatLng(40.7003, -73.9967), "park"),
    Place("Joe\U{2019}s Coffee", LatLng(40.7306, -73.9866), "cafe"),
    Place("Best Pizza", LatLng(40.7146, -73.9570), "restaurant"),
    Place("High Line", LatLng(40.7479, -74.0049), "park"),
    Place("Book Nook", LatLng(40.7420, -73.9897), "shop")
  ]

  /** The keys of the `icons` table. */
  const IconKeys: set<string> := {"default", "home", "work", "favorite", "food"}

  /** `getIconKeyForCategory`. */
  function IconKey(category: string): (key: string)
    ensures key in IconKeys && key != "home"
  {
    if category == "park" then "favorite"
    else if category == "museum" || category == "shop" then "work"
    else if category == "cafe" || category == "restaurant" then "food"
    else "default"
  }

  /** `icons[type] || icons.default`: the icon a custom marker of `type`
      gets. */
  function MarkerIcon(markerType: string): (key: string)
    ensures key in IconKeys
    ensures markerType in IconKeys ==> key == markerType
  {
    if markerType in IconKeys then markerType else "default"
  }

  /** A category's icon key always names an icon, so the place markers
      never fall back to the default icon for an unknown key; and every
      built-in place has a category with an icon of its own. */
  lemma PlaceIcons()
    ensures forall c :: MarkerIcon(IconKey(c)) == IconKey(c)
    ensures forall i :: 0 <= i < |Places| ==> IconKey(Places[i].category) != "default"
  {
  }

  /* ---------------- search ---------------- */

  /** `searchInput.value.trim().toLowerCase()`. */
  function Query(input: string): (q: string)
    ensures |q| == |Trim(input)|
  {
    ToLower(Trim(input))
  }

  /** The test `find` applies to each place. */
  predicate NameMatches(p: Place, query: string)
  {
    Contains(ToLower(p.name), query)
  }

  /** `places.find(...)` from index `from` on: the index of the first
      matching place, or none when no place from there on matches. */
  function FindFrom(places: seq<Place>, query: string, from: nat): (r: Option<nat>)
    requires from <= |places|
    ensures r.Some? ==> from <= r.value < |places| && NameMatches(places[r.value], query)
    ensures r.Some? ==> forall k :: from <= k < r.value ==> !NameMatches(places[k], query)
    ensures r.None? <==> forall k :: from <= k < |places| ==> !NameMatches(places[k], query)
    decreases |places| - from
  {
    if from == |places| then None
    else if NameMatches(places[from], query) then Some(from)
    else FindFrom(places, query, from + 1)
  }

  datatype SearchOutcome = EmptyQuery | NoMatch | Found(index: nat)

  /** `handleSearch`'s decision for the text `input`. */
  function Search(places: seq<Place>, input: string): (o: SearchOutcome)
    ensures o.EmptyQuery? <==> Trim(input) == ""
    ensures o.Found? ==> o.index < |places| && NameMatches(places[o.index], Query(input))
    ensures o.Found? ==> forall k :: 0 <= k < o.index ==> !NameMatches(places[k], Query(input))
    ensures o.NoMatch? <==> Trim(input) != "" && forall k :: 0 <= k < |places| ==> !NameMatches(places[k], Query(input))
  {
    SearchQuery(places, Query(input))
  }

  /** The decision on the normalised query `q`. */
  function SearchQuery(places: seq<Place>, q: string): SearchOutcome
  {
    if q == "" then EmptyQuery
    else match FindFrom(places, q, 0)
      case None => NoMatch
      case Some(i) => Found(i)
  }

  /** Upper-case letters are never white space. */
  lemma LowerKeepsSpace(c: char)
    ensures IsSpace(LowerChar(c)) == IsSpace(c)
  {
  }

  lemma {:induction false} TrimStartLower(s: string)
    ensures TrimStart(ToLower(s)) == ToLower(TrimStart(s))
    decreases |s|
  {
    if |s| > 0 {
      LowerKeepsSpace(s[0]);
      assert ToLower(s)[1..] == ToLower(s[1..]);
      if IsSpace(s[0]) {
        TrimStartLower(s[1..]);
      }
    }
  }

  lemma {:induction false} TrimEndLower(s: string)
    ensures TrimEnd(ToLower(s)) == ToLower(TrimEnd(s))
    decreases |s|
  {
    if |s| > 0 {
      LowerKeepsSpace(s[|s| - 1]);
      assert ToLower(s)[..|s| - 1] == ToLower(s[..|s| - 1]);
      if IsSpace(s[|s| - 1]) {
        TrimEndLower(s[..|s| - 1]);
      }
    }
  }

  /** Search ignores the case of what is typed. */
  lemma SearchIgnoresCase(places: seq<Place>, input: string)
    ensures Search(places, ToLower(input)) == Search(places, input)
  {
    TrimStartLower(input);
    TrimEndLower(TrimStart(input));
    assert Trim(ToLower(input)) == ToLower(Trim(input));
    ToLowerIdempotent(Trim(input));
    assert Query(ToLower(input)) == Query(input);
    assert Search(places, ToLower(input)) == SearchQuery(places, Query(input));
  }

  /** A string contains itself. */
  lemma ContainsSelf(s: string)
    ensures Contains(s, s)
  {
    assert s[..|s|] == s;
  }

  /** Typing a place's name, in any case and without surrounding blanks,
      moves to that place or to an earlier one whose name also matches. */
  lemma SearchFindsName(places: seq<Place>, i: nat, input: string)
    requires i < |places| && ToLower(input) == ToLower(places[i].name)
    requires |input| > 0 && !IsSpace(input[0]) && !IsSpace(input[|input| - 1])
    ensures Search(places, input).Found? && Search(places, input).index <= i
  {
    assert TrimStart(input) == input;
    assert TrimEnd(input) == input;
    ContainsSelf(ToLower(input));
    assert NameMatches(places[i], Query(input));
  }

  /* ---------------- nearby places ---------------- */

  /** `parseFloat(...) || 2`: the radius in kilometres for the parsed
      field, where `None` stands for `NaN`. */
  function RadiusKm(parsed: Option<real>): (km: real)
    ensures km != 0.0
    ensures km == 2.0 || parsed == Some(km)
    ensures parsed.Some? && parsed.value != 0.0 ==> km == parsed.value
  {
    if parsed.None? || parsed.value == 0.0 then 2.0 else parsed.value
  }

  /** The places within `radius` metres of `user`, in table order. */
  function Nearby(places: seq<Place>, user: LatLng, radius: real, d: Distance): (r: seq<Place>)
    ensures |r| <= |places|
  {
    if |places| == 0 then []
    else (if d(places[0].coords, user) <= radius then [places[0]] else [])
         + Nearby(places[1..], user, radius, d)
  }

  /** The filter keeps exactly the places within the radius. */
  lemma {:induction false} NearbyExactly(places: seq<Place>, user: LatLng, radius: real, d: Distance, p: Place)
    ensures p in Nearby(places, user, radius, d) <==> p in places && d(p.coords, user) <= radius
  {
    if |places| > 0 {
      NearbyExactly(places[1..], user, radius, d, p);
      assert p in places <==> p == places[0] || p in places[1..];
    }
  }

  /** A wider radius never shows fewer places. */
  lemma NearbyGrows(places: seq<Place>, user: LatLng, r1: real, r2: real, d: Distance, p: Place)
    requires r1 <= r2 && p in Nearby(places, user, r1, d)
    ensures p in Nearby(places, user, r2, d)
  {
    NearbyExactly(places, user, r1, d, p);
    NearbyExactly(places, user, r2, d, p);
  }

  /* ---------------- route length ---------------- */

  /** The length of the route through `points`: the sum of the distances
      between consecutive points. */
  function PathLength(points: seq<LatLng>, d: Distance): real
  {
    if |points| < 2 then 0.0
    else PathLength(points[..|points| - 1], d) + d(points[|points| - 2], points[|points| - 1])
  }

  lemma {:induction false} PathLengthNonNegative(points: seq<LatLng>, d: Distance)
    requires NonNegative(d)
    ensures PathLength(points, d) >= 0.0
  {
    if |points| >= 2 {
      PathLengthNonNegative(points[..|points| - 1], d);
    }
  }

  /** Adding a point lengthens the route by the leg to it; a route of one
      point has no length. */
  lemma PathLengthAppend(points: seq<LatLng>, p: LatLng, d: Distance)
    ensures PathLength(points + [p], d)
            == PathLength(points, d) + (if |points| == 0 then 0.0 else d(points[|points| - 1], p))
  {
    assert (points + [p])[..|points|] == points;
  }

  /** The length of two routes joined end to start is the sum of their
      lengths and of the leg that joins them. */
  lemma {:induction false} PathLengthJoin(a: seq<LatLng>, b: seq<LatLng>, d: Distance)
    requires |a| > 0 && |b| > 0
    ensures PathLength(a + b, d) == PathLength(a, d) + d(a[|a| - 1], b[0]) + PathLength(b, d)
    decreases |b|
  {
    var last := b[|b| - 1];
    var init := b[..|b| - 1];
    assert a + b == (a + init) + [last];
    PathLengthAppend(a + init, last, d);
    if |b| == 1 {
      assert a + init == a;
    } else {
      PathLengthJoin(a, init, d);
      PathLengthAppend(init, last, d);
      assert init + [last] == b;
    }
  }

  /* ---------------- geofences ---------------- */

  datatype Fence = Fence(name: string, center: LatLng, radius: real)

  const Geofences: seq<Fence> := [
    Fence("Midtown Zone", LatLng(40.7580, -73.9855), 600.0),
    Fence("Brooklyn Zone", LatLng(40.7010, -73.9900), 800.0)
  ]

  predicate DistinctNames(fences: seq<Fence>)
  {
    forall i, j :: 0 <= i < j < |fences| ==> fences[i].name != fences[j].name
  }

  lemma GeofenceNames()
    ensures DistinctNames(Geofences)
  {
  }

  predicate Inside(p: LatLng, f: Fence, d: Distance)
  {
    d(p, f.center) <= f.radius
  }

  /** `geofenceState.get(name)`: a fence never recorded reads as outside. */
  predicate WasInside(state: map<string, bool>, name: string)
  {
    name in state && state[name]
  }

  datatype Crossing = Entered | Exited | Stayed

  /** What a check reports for one fence. */
  function Crossed(wasInside: bool, inside: bool): Crossing
  {
    if inside && !wasInside then Entered
    else if !inside && wasInside then Exited
    else Stayed
  }

  /** The crossings of one fence over successive positions, given whether
      each lies inside and whether the fence was entered before. */
  function Crossings(wasInside: bool, insides: seq<bool>): (cs: seq<Crossing>)
    ensures |cs| == |insides|
    decreases |insides|
  {
    if |insides| == 0 then []
    else [Crossed(wasInside, insides[0])] + Crossings(insides[0], insides[1..])
  }

  /** The crossings that produce a message. */
  function Reported(cs: seq<Crossing>): (r: seq<Crossing>)
    ensures forall k :: 0 <= k < |r| ==> r[k] != Stayed
  {
    if |cs| == 0 then []
    else (if cs[0] == Stayed then [] else [cs[0]]) + Reported(cs[1..])
  }

  /** The reported crossings alternate, and the first one leaves the
      starting side: starting outside (the state `drawGeofences` records),
      the first message is an entry. */
  lemma {:induction false} CrossingsAlternate(wasInside: bool, insides: seq<bool>)
    ensures var r := Reported(Crossings(wasInside, insides));
            && (forall k :: 0 < k < |r| ==> r[k] != r[k - 1])
            && (|r| > 0 ==> r[0] == if wasInside then Exited else Entered)
    decreases |insides|
  {
    if |insides| > 0 {
      var b := insides[0];
      CrossingsAlternate(b, insides[1..]);
      assert Crossings(wasInside, insides)[1..] == Crossings(b, insides[1..]);
    }
  }

  /** The state after checking the first `n` fences at `p`. */
  function Updated(state: map<string, bool>, fences: seq<Fence>, p: LatLng, d: Distance, n: nat): map<string, bool>
    requires n <= |fences|
  {
    if n == 0 then state
    else Updated(state, fences, p, d, n - 1)[fences[n - 1].name := Inside(p, fences[n - 1], d)]
  }

  /** A check records, for each fence, whether `p` is inside it, and keeps
      every other entry. */
  lemma {:induction false} UpdatedExactly(state: map<string, bool>, fences: seq<Fence>, p: LatLng, d: Distance, n: nat)
    requires n <= |fences| && DistinctNames(fences)
    ensures forall k :: 0 <= k < n ==> WasInside(Updated(state, fences, p, d, n), fences[k].name) == Inside(p, fences[k], d)
    ensures forall name :: (forall k :: 0 <= k < n ==> fences[k].name != name) ==>
              WasInside(Updated(state, fences, p, d, n), name) == WasInside(state, name)
  {
    if n > 0 {
      UpdatedExactly(state, fences, p, d, n - 1);
    }
  }

  /* ---------------- click modes ---------------- */

  datatype ClickMode = NoMode | AddMarkerMode | MeasureMode

  /** The pending click mode and the disabled flags of its two buttons. */
  datatype Controls = Controls(mode: ClickMode, addMarkerDisabled: bool, measureDisabled: bool)

  const Ready := Controls(NoMode, false, false)

  /** A button is disabled exactly while its mode is pending. */
  predicate Consistent(c: Controls)
  {
    && (c.addMarkerDisabled <==> c.mode == AddMarkerMode)
    && (c.measureDisabled <==> c.mode == MeasureMode)
  }

  /** What a map click does. */
  datatype ClickAction = DropMarker | MeasureTo | ExtendRoute | Ignore

  /** `handleMapClick`'s dispatch. */
  function ClickActionOf(c: Controls, routeActive: bool): (a: ClickAction)
    ensures a == ExtendRoute <==> c.mode == NoMode && routeActive
  {
    match c.mode
    case AddMarkerMode => DropMarker
    case MeasureMode => MeasureTo
    case NoMode => if routeActive then ExtendRoute else Ignore
  }

  /** The controls after a click: a pending mode is used up and its
      button enabled again. */
  function AfterClick(c: Controls): (r: Controls)
    ensures r.mode == NoMode
  {
    match c.mode
    case AddMarkerMode => c.(mode := NoMode, addMarkerDisabled := false)
    case MeasureMode => c.(mode := NoMode, measureDisabled := false)
    case NoMode => c
  }

  /** A mode acts for one click only: the click after it, unless a button
      is pressed in between, places no marker and measures nothing. */
  lemma OneShot(c: Controls, routeActive: bool, later: bool)
    ensures ClickActionOf(AfterClick(c), later) in {ExtendRoute, Ignore}
    ensures ClickActionOf(c, routeActive) in {DropMarker, MeasureTo} ==> AfterClick(c) != c
  {
  }

  /** The "Add marker" button handler as written: it sets the mode and
      disables its own button only. */
  function ArmAddMarkerAsWritten(c: Controls): Controls
  {
    c.(mode := AddMarkerMode, addMarkerDisabled := true)
  }

  /** The "Measure" button handler as written. */
  function ArmMeasureAsWritten(c: Controls): Controls
  {
    c.(mode := MeasureMode, measureDisabled := true)
  }

  /** Pressing "Add marker", then "Measure", then clicking the map leaves
      no mode pending but the "Add marker" button disabled; after that no
      press of the enabled button and no click enables it again. */
  lemma AddMarkerLockout()
    ensures var c := AfterClick(ArmMeasureAsWritten(ArmAddMarkerAsWritten(Ready)));
            c.mode == NoMode && c.addMarkerDisabled && !Consistent(c)
    ensures forall c: Controls :: c.addMarkerDisabled && c.mode != AddMarkerMode ==>
              var m := ArmMeasureAsWritten(c);
              var k := AfterClick(c);
              m.addMarkerDisabled && m.mode != AddMarkerMode && k.addMarkerDisabled && k.mode != AddMarkerMode
  {
  }

  /** The "Add marker" handler with the other mode's button released. */
  function ArmAddMarker(c: Controls): (r: Controls)
    ensures r.mode == AddMarkerMode
  {
    Controls(AddMarkerMode, true, false)
  }

  /** The "Measure" handler with the other mode's button released. */
  function ArmMeasure(c: Controls): (r: Controls)
    ensures r.mode == MeasureMode
  {
    Controls(MeasureMode, false, true)
  }

  /** With the release, every handler keeps the buttons in step with the
      pending mode, so a button is never left disabled with nothing to
      wait for. */
  lemma ControlsStayConsistent(c: Controls)
    requires Consistent(c)
    ensures Consistent(Ready)
    ensures Consistent(ArmAddMarker(c)) && Consistent(ArmMeasure(c)) && Consistent(AfterClick(c))
    ensures AfterClick(c) == Ready
  {
  }
}
