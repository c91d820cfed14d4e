/** The map explorer's state (7/scripts/map.js): the click modes, the
    route being drawn, the measurement, the nearby places, the geofence
    states, the memoised category layers and the status line.  Tiles,
    popups and marker drawing are Leaflet's; the model keeps which layer
    each marker belongs to and what is shown, not how. */
module MapExplorer {
  import opened Wrappers
  import opened MapPlaces

  /** The text of the status line, without its formatting.  `PageText`
      is whatever the page shows before any handler writes the line. */
  datatype Message =
    | PageText | LocationAcquired | FallbackLocation | NoGeolocation | GeoError(code: int) | GeoErrorOther
    | ArmingAddMarker | ArmingMeasure | PlacedMarker(markerType: string) | NoUserLocation
    | RouteMode | RouteCleared
    | FoundNearby(count: nat, radiusKm: real)
    | EnteredFence(name: string) | ExitedFence(name: string)
    | TypeAPlace | NoMatchingPlace | MovedTo(name: string)

  datatype Status = Status(message: Message, isError: bool)

  /** `handleGeoError`'s message table. */
  function GeoErrorMessage(code: int): (m: Message)
    ensures m.GeoError? <==> 1 <= code <= 3
  {
    if 1 <= code <= 3 then GeoError(code) else GeoErrorOther
  }

  /** The centre and zoom of the map view. */
  datatype View = View(center: LatLng, zoom: int)

  /** A custom marker: where it is, its icon and the type selected. */
  datatype CustomMarker = CustomMarker(position: LatLng, icon: string, markerType: string)

  /** A place's marker: its icon and the category layer holding it. */
  datatype PlaceMarker = PlaceMarker(icon: string, layer: nat)

  /** An entry of the `overlays` object: the four fixed layers and one
      layer per place category. */
  datatype Overlay = CustomMarkers | NearbyPlaces | Routes | FenceLayer | CategoryOverlay(category: string)

  /** The key an overlay has in `overlays`, which is also its label in
      the layer control. */
  function OverlayLabel(o: Overlay): string
  {
    match o
    case CustomMarkers => "Custom markers"
    case NearbyPlaces => "Nearby places"
    case Routes => "Routes"
    case FenceLayer => "Geofences"
    case CategoryOverlay(category) => "Places: " + category
  }

  /** Different overlays have different labels, so keying the layers by
      `Overlay` instead of by label loses nothing: no category layer
      replaces a fixed one or another category's. */
  lemma OverlayLabelsDiffer(a: Overlay, b: Overlay)
    requires a != b
    ensures OverlayLabel(a) != OverlayLabel(b)
  {
    if a.CategoryOverlay? && b.CategoryOverlay? {
      assert OverlayLabel(a)[|"Places: "|..] == a.category;
      assert OverlayLabel(b)[|"Places: "|..] == b.category;
    } else if a.CategoryOverlay? || b.CategoryOverlay? {
      assert OverlayLabel(a)[0] != OverlayLabel(b)[0];
    } else {
      assert OverlayLabel(a)[0] != OverlayLabel(b)[0] || |OverlayLabel(a)| != |OverlayLabel(b)|;
    }
  }

  /** The fixed overlays and their layers. */
  const FixedOverlays: map<Overlay, nat> :=
    map[CustomMarkers := 0, NearbyPlaces := 1, Routes := 2, FenceLayer := 3]

  /** The last status the first `n` fences report at `p`, or `prior` when
      none of them is crossed. */
  function FenceReport(state: map<string, bool>, fences: seq<Fence>, p: LatLng, d: Distance, n: nat, prior: Status): Status
    requires n <= |fences|
  {
    if n == 0 then prior
    else match Crossed(WasInside(state, fences[n - 1].name), Inside(p, fences[n - 1], d))
      case Entered => Status(EnteredFence(fences[n - 1].name), false)
      case Exited => Status(ExitedFence(fences[n - 1].name), false)
      case Stayed => FenceReport(state, fences, p, d, n - 1, prior)
  }

  /** A status reporting an entry names a fence that `p` lies in and that
      was recorded as outside; one reporting an exit names a fence `p`
      lies outside of that was recorded as inside. */
  lemma {:induction false} FenceReportMeans(state: map<string, bool>, fences: seq<Fence>, p: LatLng, d: Distance, n: nat, prior: Status)
    requires n <= |fences|
    ensures var r := FenceReport(state, fences, p, d, n, prior);
            r != prior ==>
              exists k :: 0 <= k < n &&
                ((r.message == EnteredFence(fences[k].name) && Inside(p, fences[k], d) && !WasInside(state, fences[k].name))
                || (r.message == ExitedFence(fences[k].name) && !Inside(p, fences[k], d) && WasInside(state, fences[k].name)))
  {
    if n > 0 {
      FenceReportMeans(state, fences, p, d, n - 1, prior);
    }
  }

  /** The state after recording the first `n` fences as not entered. */
  function Cleared(state: map<string, bool>, fences: seq<Fence>, n: nat): map<string, bool>
    requires n <= |fences|
  {
    if n == 0 then state else Cleared(state, fences, n - 1)[fences[n - 1].name := false]
  }

  /** Drawing the fences records each of them as not entered and keeps
      every other entry. */
  lemma {:induction false} ClearedExactly(state: map<string, bool>, fences: seq<Fence>, n: nat)
    requires n <= |fences|
    ensures forall k :: 0 <= k < n ==> !WasInside(Cleared(state, fences, n), fences[k].name)
    ensures forall name :: (forall k :: 0 <= k < n ==> fences[k].name != name) ==>
              WasInside(Cleared(state, fences, n), name) == WasInside(state, name)
  {
    if n > 0 {
      ClearedExactly(state, fences, n - 1);
    }
  }

  /** Two sequences agree up to `n` and the second has one more element. */
  lemma PrefixStep<T>(s: seq<T>, n: nat)
    requires n < |s|
    ensures s[..n + 1][..n] == s[..n]
  {
  }

  /** Every layer made so far has a number below `layerCount`; each
      category has its own layer, listed under its overlay label and shown
      once the map exists; every place marker sits in its category's
      layer. */
  ghost predicate LayersOk(places: seq<Place>, overlays: map<Overlay, nat>, categoryLayers: map<string, nat>,
                           layerCount: nat, mapReady: bool, onMap: set<nat>, placeMarkers: map<nat, PlaceMarker>)
  {
    && (forall l :: l in overlays ==> overlays[l] < layerCount)
    && (forall c :: c in categoryLayers ==>
          CategoryOverlay(c) in overlays && overlays[CategoryOverlay(c)] == categoryLayers[c])
    && (mapReady ==> forall c :: c in categoryLayers ==> categoryLayers[c] in onMap)
    && (forall c1, c2 :: c1 in categoryLayers && c2 in categoryLayers && c1 != c2 ==>
          categoryLayers[c1] != categoryLayers[c2])
    && (forall i :: i in placeMarkers ==>
          i < |places| && places[i].category in categoryLayers
          && placeMarkers[i] == PlaceMarker(IconKey(places[i].category), categoryLayers[places[i].category]))
  }

  /** A new category gets the next layer number, and the bookkeeping
      still holds. */
  lemma AddLayerKeepsOk(places: seq<Place>, overlays: map<Overlay, nat>, categoryLayers: map<string, nat>,
                        layerCount: nat, mapReady: bool, onMap: set<nat>, placeMarkers: map<nat, PlaceMarker>,
                        category: string)
    requires LayersOk(places, overlays, categoryLayers, layerCount, mapReady, onMap, placeMarkers)
    requires category !in categoryLayers
    ensures LayersOk(places, overlays[CategoryOverlay(category) := layerCount], categoryLayers[category := layerCount],
                     layerCount + 1, mapReady, if mapReady then onMap + {layerCount} else onMap, placeMarkers)
  {
  }

  /** Placing place `i`'s marker in its category's layer keeps the
      bookkeeping. */
  lemma AddMarkerKeepsOk(places: seq<Place>, overlays: map<Overlay, nat>, categoryLayers: map<string, nat>,
                         layerCount: nat, mapReady: bool, onMap: set<nat>, placeMarkers: map<nat, PlaceMarker>,
                         i: nat)
    requires LayersOk(places, overlays, categoryLayers, layerCount, mapReady, onMap, placeMarkers)
    requires i < |places| && places[i].category in categoryLayers
    ensures LayersOk(places, overlays, categoryLayers, layerCount, mapReady, onMap,
                     placeMarkers[i := PlaceMarker(IconKey(places[i].category), categoryLayers[places[i].category])])
  {
  }

  class Explorer {
    /** Leaflet's `distanceTo`. */
    const distance: Distance
    /** The place table, `Places`. */
    const places: seq<Place>

    var mapReady: bool
    var view: Option<View>
    var userLatLng: Option<LatLng>
    var controls: Controls
    var customMarkers: seq<CustomMarker>
    var measured: Option<real>
    var measurementLine: Option<(LatLng, LatLng)>
    var routeActive: bool
    var routePoints: seq<LatLng>
    var routeMarkers: seq<LatLng>
    var routeLine: Option<seq<LatLng>>
    var routeLength: real
    var nearby: seq<Place>
    var geofenceState: map<string, bool>
    var overlays: map<Overlay, nat>
    var categoryLayers: map<string, nat>
    var layerCount: nat
    var onMap: set<nat>
    var controlLabels: set<Overlay>
    var placeMarkers: map<nat, PlaceMarker>
    var openedPlace: Option<nat>
    var status: Status

    /** The route's markers sit on its points, its line is drawn once it
        has two points, and the length shown is the route's length. */
    ghost predicate RouteValid()
      reads this`routeMarkers, this`routePoints, this`routeLine, this`routeLength
    {
      && routeMarkers == routePoints
      && routeLine == (if |routePoints| >= 2 then Some(routePoints) else None)
      && routeLength == PathLength(routePoints, distance)
    }

    /** The layer bookkeeping, `LayersOk`, on the current fields. */
    ghost predicate LayersValid()
      reads this`overlays, this`layerCount, this`categoryLayers, this`mapReady, this`onMap, this`placeMarkers
    {
      LayersOk(places, overlays, categoryLayers, layerCount, mapReady, onMap, placeMarkers)
    }

    ghost predicate Valid()
      reads this`controls, this`routeMarkers, this`routePoints, this`routeLine, this`routeLength
      reads this`overlays, this`layerCount, this`categoryLayers, this`mapReady, this`onMap, this`placeMarkers
    {
      && NonNegative(distance)
      && Consistent(controls)
      && RouteValid()
      && LayersValid()
    }

    /** The page as loaded, before any position is known. */
    constructor (d: Distance)
      requires NonNegative(d)
      ensures Valid() && distance == d && places == Places
      ensures !mapReady && userLatLng.None? && controls == Ready && !routeActive
      ensures routePoints == [] && nearby == [] && geofenceState == map[]
      ensures overlays == FixedOverlays && categoryLayers == map[] && placeMarkers == map[]
      ensures status == Status(PageText, false)
      ensures view.None? && customMarkers == [] && measured.None? && measurementLine.None?
      ensures openedPlace.None? && onMap == {} && controlLabels == {} && layerCount == 4
    {
      distance := d;
      places := Places;
      mapReady := false;
      view := None;
      userLatLng := None;
      controls := Ready;
      customMarkers := [];
      measured := None;
      measurementLine := None;
      routeActive := false;
      routePoints := [];
      routeMarkers := [];
      routeLine := None;
      routeLength := 0.0;
      nearby := [];
      geofenceState := map[];
      overlays := FixedOverlays;
      categoryLayers := map[];
      layerCount := 4;
      onMap := {};
      controlLabels := {};
      placeMarkers := map[];
      openedPlace := None;
      status := Status(PageText, false);
    }

    /* ---------------- layers ---------------- */

    /** `ensureCategoryLayer(category)`: the category's layer, made (and
        shown, once the map exists) on first use only. */
    method EnsureCategoryLayer(category: string) returns (layer: nat)
      requires Valid()
      modifies this`overlays, this`categoryLayers, this`layerCount, this`onMap, this`controlLabels
      ensures Valid()
      ensures category in categoryLayers && layer == categoryLayers[category]
      ensures forall c :: c in old(categoryLayers) ==> c in categoryLayers && categoryLayers[c] == old(categoryLayers)[c]
      ensures category in old(categoryLayers) ==>
                layer == old(categoryLayers)[category] && categoryLayers == old(categoryLayers)
                && overlays == old(overlays) && layerCount == old(layerCount)
                && onMap == old(onMap) && controlLabels == old(controlLabels)
      ensures category !in old(categoryLayers) ==>
                layer == old(layerCount) && layerCount == old(layerCount) + 1
                && categoryLayers == old(categoryLayers)[category := layer]
                && overlays == old(overlays)[CategoryOverlay(category) := layer]
                && onMap == (if mapReady then old(onMap) + {layer} else old(onMap))
                && controlLabels == (if mapReady then old(controlLabels) + {CategoryOverlay(category)} else old(controlLabels))
    {
      if category !in categoryLayers {
        AddLayerKeepsOk(places, overlays, categoryLayers, layerCount, mapReady, onMap, placeMarkers, category);
        layer := AddCategoryLayer(category);
      } else {
        layer := categoryLayers[category];
      }
    }

    /** The first use of `category`: a new layer under its overlay label,
        shown when the map exists. */
    method AddCategoryLayer(category: string) returns (layer: nat)
      modifies this`overlays, this`categoryLayers, this`layerCount, this`onMap, this`controlLabels
      ensures layer == old(layerCount) && layerCount == old(layerCount) + 1
      ensures categoryLayers == old(categoryLayers)[category := layer]
      ensures overlays == old(overlays)[CategoryOverlay(category) := layer]
      ensures onMap == (if mapReady then old(onMap) + {layer} else old(onMap))
      ensures controlLabels == (if mapReady then old(controlLabels) + {CategoryOverlay(category)} else old(controlLabels))
    {
      layer := layerCount;
      layerCount := layerCount + 1;
      categoryLayers := categoryLayers[category := layer];
      overlays := overlays[CategoryOverlay(category) := layer];
      if mapReady {
        onMap := onMap + {layer};
        controlLabels := controlLabels + {CategoryOverlay(category)};
      }
    }

    /** One step of `renderPlaces`: place `i`'s marker, with its
        category's icon, in its category's layer. */
    method RenderPlace(i: nat)
      requires Valid() && i < |places|
      modifies this`overlays, this`categoryLayers, this`layerCount, this`onMap, this`controlLabels, this`placeMarkers
      ensures Valid()
      ensures places[i].category in categoryLayers
      ensures placeMarkers == old(placeMarkers)[i := PlaceMarker(IconKey(places[i].category), categoryLayers[places[i].category])]
      ensures forall c :: c in old(categoryLayers) ==> c in categoryLayers && categoryLayers[c] == old(categoryLayers)[c]
      ensures (forall k :: 0 <= k < i ==> k in old(placeMarkers)) ==> forall k :: 0 <= k < i + 1 ==> k in placeMarkers
    {
      var place := places[i];
      var iconKey := IconKey(place.category);
      var layer := EnsureCategoryLayer(place.category);
      AddMarkerKeepsOk(places, overlays, categoryLayers, layerCount, mapReady, onMap, placeMarkers, i);
      placeMarkers := placeMarkers[i := PlaceMarker(MarkerIcon(iconKey), layer)];
    }

    /** `renderPlaces`: a marker for every place, in its category's layer. */
    method RenderPlaces()
      requires Valid()
      modifies this`overlays, this`categoryLayers, this`layerCount, this`onMap, this`controlLabels, this`placeMarkers
      ensures Valid()
      ensures forall i :: 0 <= i < |places| ==> i in placeMarkers
    {
      for i := 0 to |places|
        invariant Valid()
        invariant forall k :: 0 <= k < i ==> k in placeMarkers
      {
        RenderPlace(i);
      }
    }

    /* ---------------- start-up ---------------- */

    /** `drawGeofences`: every fence starts as not entered. */
    method DrawGeofences()
      modifies this`geofenceState
      ensures geofenceState == Cleared(old(geofenceState), Geofences, |Geofences|)
    {
      ghost var state0 := geofenceState;
      for i := 0 to |Geofences|
        invariant geofenceState == Cleared(state0, Geofences, i)
      {
        geofenceState := geofenceState[Geofences[i].name := false];
      }
    }

    /** The map itself, centred on `center`, with every overlay shown and
        listed in the layer control. */
    method CreateMap(center: LatLng)
      requires Valid()
      modifies this`mapReady, this`view, this`onMap, this`controlLabels
      ensures Valid() && mapReady && view == Some(View(center, 15))
      ensures onMap == old(onMap) + overlays.Values && controlLabels == overlays.Keys
    {
      mapReady := true;
      view := Some(View(center, 15));
      onMap := onMap + overlays.Values;
      forall c | c in categoryLayers
        ensures categoryLayers[c] in onMap
      {
        assert overlays[CategoryOverlay(c)] in overlays.Values;
      }
      controlLabels := overlays.Keys;
    }

    /** The part of `initMap` that builds the map: the map, the fences
        and the place markers. */
    method BuildMap(center: LatLng)
      requires Valid()
      modifies this`mapReady, this`view, this`onMap, this`controlLabels, this`geofenceState
      modifies this`overlays, this`categoryLayers, this`layerCount, this`placeMarkers
      ensures Valid() && mapReady && view == Some(View(center, 15))
      ensures forall i :: 0 <= i < |places| ==> i in placeMarkers && placeMarkers[i].layer in onMap
      ensures geofenceState == Cleared(old(geofenceState), Geofences, |Geofences|)
    {
      CreateMap(center);
      DrawGeofences();
      RenderPlaces();
    }

    /** `initMap(lat, lng)` with `radiusField` the parsed nearby radius.
        Leaflet refuses a second map on the same element, which ends the
        handler: `ok` is false then and nothing changes. */
    method InitMap(center: LatLng, radiusField: Option<real>) returns (ok: bool)
      requires Valid()
      modifies this`mapReady, this`view, this`onMap, this`controlLabels, this`geofenceState
      modifies this`overlays, this`categoryLayers, this`layerCount, this`placeMarkers, this`nearby, this`status
      ensures Valid() && ok == !old(mapReady)
      ensures ok ==> mapReady && view == Some(View(center, 15)) && status == Status(LocationAcquired, false)
      ensures ok ==> forall i :: 0 <= i < |places| ==> i in placeMarkers && placeMarkers[i].layer in onMap
      ensures ok ==> geofenceState == Cleared(old(geofenceState), Geofences, |Geofences|)
      ensures !ok ==> unchanged(this)
    {
      if mapReady {
        return false;
      }
      StartMap(center, radiusField);
      ok := true;
    }

    /** `initMap` on a page that has no map yet. */
    method StartMap(center: LatLng, radiusField: Option<real>)
      requires Valid() && !mapReady
      modifies this`mapReady, this`view, this`onMap, this`controlLabels, this`geofenceState
      modifies this`overlays, this`categoryLayers, this`layerCount, this`placeMarkers, this`nearby, this`status
      ensures Valid() && mapReady && view == Some(View(center, 15)) && status == Status(LocationAcquired, false)
      ensures forall i :: 0 <= i < |places| ==> i in placeMarkers && placeMarkers[i].layer in onMap
      ensures geofenceState == Cleared(old(geofenceState), Geofences, |Geofences|)
    {
      BuildMap(center);
      UpdateNearbyPlaces(radiusField);
      status := Status(LocationAcquired, false);
    }

    /** `updateUserLocation`: the marker and accuracy circle follow. */
    method UpdateUserLocation(p: LatLng)
      requires Valid()
      modifies this`userLatLng
      ensures Valid() && userLatLng == Some(p)
    {
      userLatLng := Some(p);
    }

    /** The first position from the browser. */
    method OnFirstPosition(p: LatLng, radiusField: Option<real>)
      requires Valid()
      modifies this`mapReady, this`view, this`onMap, this`controlLabels, this`geofenceState
      modifies this`overlays, this`categoryLayers, this`layerCount, this`placeMarkers, this`nearby, this`status
      modifies this`userLatLng
      ensures Valid()
      ensures !old(mapReady) ==> userLatLng == Some(p) && mapReady
      ensures !old(mapReady) ==>
                nearby == MapPlaces.Nearby(places, p, RadiusKm(radiusField) * 1000.0, distance)
                && status == Status(FoundNearby(|nearby|, RadiusKm(radiusField)), false)
      ensures !old(mapReady) ==>
                view == Some(View(p, 15)) && geofenceState == Cleared(old(geofenceState), Geofences, |Geofences|)
      ensures !old(mapReady) ==> forall i :: 0 <= i < |places| ==> i in placeMarkers && placeMarkers[i].layer in onMap
      ensures old(mapReady) ==> unchanged(this)
    {
      var ok := InitMap(p, radiusField);
      if ok {
        ShowUserNearby(p, radiusField);
      }
    }

    /** The rest of the first-position handler once the map exists: the
        user is recorded and the places around them listed. */
    method ShowUserNearby(p: LatLng, radiusField: Option<real>)
      requires Valid()
      modifies this`userLatLng, this`nearby, this`status
      ensures Valid() && userLatLng == Some(p)
      ensures nearby == MapPlaces.Nearby(places, p, RadiusKm(radiusField) * 1000.0, distance)
      ensures status == Status(FoundNearby(|nearby|, RadiusKm(radiusField)), false)
    {
      UpdateUserLocation(p);
      UpdateNearbyPlaces(radiusField);
    }

    /** A position from the watch: the map is made if it is not there yet,
        then the geofences are checked. */
    method OnWatchedPosition(p: LatLng, radiusField: Option<real>)
      requires Valid()
      modifies this`mapReady, this`view, this`onMap, this`controlLabels, this`geofenceState
      modifies this`overlays, this`categoryLayers, this`layerCount, this`placeMarkers, this`nearby, this`status
      modifies this`userLatLng
      ensures Valid() && mapReady && userLatLng == Some(p)
      ensures var fences := if old(mapReady) then old(geofenceState)
                            else Cleared(old(geofenceState), Geofences, |Geofences|);
              geofenceState == Updated(fences, Geofences, p, distance, |Geofences|)
      ensures var fences := if old(mapReady) then old(geofenceState)
                            else Cleared(old(geofenceState), Geofences, |Geofences|);
              var before := if old(mapReady) then old(status) else Status(LocationAcquired, false);
              status == FenceReport(fences, Geofences, p, distance, |Geofences|, before)
    {
      if !mapReady {
        var ok := InitMap(p, radiusField);
      }
      UpdateUserLocation(p);
      CheckGeofences(p);
    }

    /** `fallbackMap`: New York City when no position is available. */
    method FallbackMap(radiusField: Option<real>)
      requires Valid()
      modifies this`mapReady, this`view, this`onMap, this`controlLabels, this`geofenceState
      modifies this`overlays, this`categoryLayers, this`layerCount, this`placeMarkers, this`nearby, this`status
      ensures Valid()
      ensures !old(mapReady) ==> mapReady && view == Some(View(LatLng(40.7128, -74.0060), 15))
      ensures !old(mapReady) ==> status == Status(FallbackLocation, true)
      ensures old(mapReady) ==> unchanged(this)
    {
      var ok := InitMap(LatLng(40.7128, -74.0060), radiusField);
      if ok {
        status := Status(FallbackLocation, true);
      }
    }

    /** `handleGeoError(error)`. */
    method HandleGeoError(code: int, radiusField: Option<real>)
      requires Valid()
      modifies this`mapReady, this`view, this`onMap, this`controlLabels, this`geofenceState
      modifies this`overlays, this`categoryLayers, this`layerCount, this`placeMarkers, this`nearby, this`status
      ensures Valid()
      ensures old(mapReady) ==> status == Status(GeoErrorMessage(code), true)
      ensures old(mapReady) ==>
                mapReady && view == old(view) && onMap == old(onMap) && controlLabels == old(controlLabels)
                && geofenceState == old(geofenceState) && overlays == old(overlays)
                && categoryLayers == old(categoryLayers) && layerCount == old(layerCount)
                && placeMarkers == old(placeMarkers) && nearby == old(nearby)
      ensures !old(mapReady) ==>
                mapReady && view == Some(View(LatLng(40.7128, -74.0060), 15))
                && status == Status(FallbackLocation, true)
    {
      status := Status(GeoErrorMessage(code), true);
      if !mapReady {
        FallbackMap(radiusField);
      }
    }

    /** `startGeolocation` when the browser has no geolocation. */
    method NoGeolocationSupport(radiusField: Option<real>)
      requires Valid()
      modifies this`mapReady, this`view, this`onMap, this`controlLabels, this`geofenceState
      modifies this`overlays, this`categoryLayers, this`layerCount, this`placeMarkers, this`nearby, this`status
      ensures Valid()
      ensures !old(mapReady) ==>
                mapReady && view == Some(View(LatLng(40.7128, -74.0060), 15))
                && status == Status(FallbackLocation, true)
      ensures old(mapReady) ==>
                status == Status(NoGeolocation, true) && mapReady && view == old(view) && onMap == old(onMap) && controlLabels == old(controlLabels)
                && geofenceState == old(geofenceState) && overlays == old(overlays)
                && categoryLayers == old(categoryLayers) && layerCount == old(layerCount)
                && placeMarkers == old(placeMarkers) && nearby == old(nearby)
    {
      status := Status(NoGeolocation, true);
      FallbackMap(radiusField);
    }

    /* ---------------- clicks ---------------- */

    /** The "Add marker" button. */
    method PressAddMarker()
      requires Valid()
      modifies this`controls, this`status
      ensures Valid() && controls == ArmAddMarker(old(controls))
      ensures status == Status(ArmingAddMarker, false)
    {
      controls := ArmAddMarker(controls);
      status := Status(ArmingAddMarker, false);
    }

    /** The "Measure" button. */
    method PressMeasure()
      requires Valid()
      modifies this`controls, this`status
      ensures Valid() && controls == ArmMeasure(old(controls))
      ensures status == Status(ArmingMeasure, false)
    {
      controls := ArmMeasure(controls);
      status := Status(ArmingMeasure, false);
    }

    /** `placeCustomMarker(latlng)` with `markerType` the selected type. */
    method PlaceCustomMarker(p: LatLng, markerType: string)
      requires Valid()
      modifies this`customMarkers, this`status
      ensures Valid()
      ensures customMarkers == old(customMarkers) + [CustomMarker(p, MarkerIcon(markerType), markerType)]
      ensures status == Status(PlacedMarker(markerType), false)
    {
      customMarkers := customMarkers + [CustomMarker(p, MarkerIcon(markerType), markerType)];
      status := Status(PlacedMarker(markerType), false);
    }

    /** `measureToPoint(latlng)`: the distance from the user and a line to
        the point, or an error while the position is unknown. */
    method MeasureToPoint(p: LatLng)
      requires Valid()
      modifies this`measured, this`measurementLine, this`status
      ensures Valid()
      ensures old(userLatLng).None? ==>
                status == Status(NoUserLocation, true) && measured == old(measured)
                && measurementLine == old(measurementLine)
      ensures old(userLatLng).Some? ==>
                status == old(status) && measured == Some(distance(userLatLng.value, p))
                && measurementLine == Some((userLatLng.value, p))
    {
      if userLatLng.None? {
        status := Status(NoUserLocation, true);
        return;
      }
      measured := Some(distance(userLatLng.value, p));
      measurementLine := Some((userLatLng.value, p));
    }

    /** `handleMapClick(e)` with `markerType` the selected marker type: a
        pending mode acts once and is cleared, otherwise an active route
        gets the point. */
    method HandleMapClick(p: LatLng, markerType: string)
      requires Valid()
      modifies this`controls, this`customMarkers, this`status, this`measured, this`measurementLine
      modifies this`routePoints, this`routeMarkers, this`routeLine, this`routeLength
      ensures Valid() && controls == AfterClick(old(controls)) && controls.mode == NoMode
      ensures var a := ClickActionOf(old(controls), routeActive);
              && (a == ExtendRoute <==> routePoints == old(routePoints) + [p])
              && (a != ExtendRoute ==> routePoints == old(routePoints))
      ensures var a := ClickActionOf(old(controls), routeActive);
              && (a == DropMarker ==>
                    customMarkers == old(customMarkers) + [CustomMarker(p, MarkerIcon(markerType), markerType)]
                    && status == Status(PlacedMarker(markerType), false))
              && (a != DropMarker ==> customMarkers == old(customMarkers))
      ensures var a := ClickActionOf(old(controls), routeActive);
              && (a == MeasureTo && userLatLng.Some? ==>
                    measured == Some(distance(userLatLng.value, p)) && measurementLine == Some((userLatLng.value, p))
                    && status == old(status))
              && (a == MeasureTo && userLatLng.None? ==> status == Status(NoUserLocation, true))
              && (a != MeasureTo ==> measured == old(measured) && measurementLine == old(measurementLine))
              && (a == ExtendRoute || a == Ignore ==> status == old(status))
    {
      var action := ClickActionOf(controls, routeActive);
      controls := AfterClick(controls);
      match action {
        case DropMarker =>
          PlaceCustomMarker(p, markerType);
        case MeasureTo =>
          MeasureToPoint(p);
        case ExtendRoute =>
          AddRoutePoint(p);
        case Ignore =>
      }
    }

    /* ---------------- route ---------------- */

    /** `toggleRoute`. */
    method ToggleRoute()
      modifies this`routeActive, this`status
      ensures routeActive == !old(routeActive)
      ensures status == if routeActive then Status(RouteMode, false) else old(status)
    {
      routeActive := !routeActive;
      if routeActive {
        status := Status(RouteMode, false);
      }
    }

    /** `calculateRouteDistance`. */
    method RouteDistance() returns (total: real)
      ensures total == PathLength(routePoints, distance)
    {
      total := 0.0;
      var i := 1;
      while i < |routePoints|
        invariant |routePoints| == 0 ==> total == 0.0
        invariant |routePoints| > 0 ==> 1 <= i <= |routePoints| && total == PathLength(routePoints[..i], distance)
      {
        PrefixStep(routePoints, i);
        total := total + distance(routePoints[i - 1], routePoints[i]);
        i := i + 1;
      }
      if |routePoints| > 0 {
        assert routePoints[..|routePoints|] == routePoints;
      }
    }

    /** `redrawRoute`: the line through the points once there are two,
        and the route's length. */
    method RedrawRoute()
      requires NonNegative(distance) && routeMarkers == routePoints
      modifies this`routeLine, this`routeLength
      ensures RouteValid()
    {
      routeLine := None;
      if |routePoints| >= 2 {
        routeLine := Some(routePoints);
      }
      routeLength := RouteDistance();
    }

    /** `addRoutePoint(latlng)`: one more point and marker, and the leg to
        it added to the length. */
    method AddRoutePoint(p: LatLng)
      requires Valid()
      modifies this`routePoints, this`routeMarkers, this`routeLine, this`routeLength
      ensures Valid()
      ensures routePoints == old(routePoints) + [p]
      ensures routeLength == old(routeLength) + (if |old(routePoints)| == 0 then 0.0 else distance(old(routePoints)[|old(routePoints)| - 1], p))
      ensures routeLength >= old(routeLength)
    {
      PathLengthAppend(routePoints, p, distance);
      routePoints := routePoints + [p];
      routeMarkers := routeMarkers + [p];
      RedrawRoute();
    }

    /** `clearRoute`. */
    method ClearRoute()
      requires Valid()
      modifies this`routePoints, this`routeMarkers, this`routeLine, this`routeLength, this`status
      ensures Valid()
      ensures routePoints == [] && routeMarkers == [] && routeLine.None? && routeLength == 0.0
      ensures status == Status(RouteCleared, false)
    {
      routePoints := [];
      routeMarkers := [];
      routeLine := None;
      routeLength := 0.0;
      status := Status(RouteCleared, false);
    }

    /* ---------------- nearby places and geofences ---------------- */

    /** `updateNearbyPlaces` with `radiusField` the parsed radius field:
        the group is emptied, then refilled when the position is known. */
    method UpdateNearbyPlaces(radiusField: Option<real>)
      requires Valid()
      modifies this`nearby, this`status
      ensures Valid()
      ensures userLatLng.None? ==> nearby == [] && status == old(status)
      ensures userLatLng.Some? ==>
                nearby == MapPlaces.Nearby(places, userLatLng.value, RadiusKm(radiusField) * 1000.0, distance)
                && status == Status(FoundNearby(|nearby|, RadiusKm(radiusField)), false)
    {
      var radiusKm := RadiusKm(radiusField);
      var radiusMeters := radiusKm * 1000.0;
      nearby := [];
      if userLatLng.None? {
        return;
      }
      nearby := MapPlaces.Nearby(places, userLatLng.value, radiusMeters, distance);
      status := Status(FoundNearby(|nearby|, radiusKm), false);
    }

    /** `checkGeofences(latlng)`: each fence records whether `p` is inside
        it, and each crossing sets the status, the last one showing. */
    method CheckGeofences(p: LatLng)
      requires Valid()
      modifies this`geofenceState, this`status
      ensures Valid()
      ensures geofenceState == Updated(old(geofenceState), Geofences, p, distance, |Geofences|)
      ensures status == FenceReport(old(geofenceState), Geofences, p, distance, |Geofences|, old(status))
    {
      GeofenceNames();
      ghost var state0 := geofenceState;
      ghost var status0 := status;
      for i := 0 to |Geofences|
        invariant geofenceState == Updated(state0, Geofences, p, distance, i)
        invariant status == FenceReport(state0, Geofences, p, distance, i, status0)
      {
        var fence := Geofences[i];
        var inside := distance(p, fence.center) <= fence.radius;
        UpdatedExactly(state0, Geofences, p, distance, i);
        var wasInside := fence.name in geofenceState && geofenceState[fence.name];
        if inside && !wasInside {
          status := Status(EnteredFence(fence.name), false);
        } else if !inside && wasInside {
          status := Status(ExitedFence(fence.name), false);
        }
        geofenceState := geofenceState[fence.name := inside];
      }
    }

    /* ---------------- search ---------------- */

    /** `handleSearch` for the text `input`: an empty query or no match is
        an error; otherwise the view flies to the first matching place and
        opens its popup when it has a marker.  Before the map exists the
        fly-to fails and ends the handler. */
    method HandleSearch(input: string)
      modifies this`view, this`openedPlace, this`status
      ensures Search(places, input) == EmptyQuery ==> status == Status(TypeAPlace, true) && view == old(view)
      ensures Search(places, input) == NoMatch ==> status == Status(NoMatchingPlace, true) && view == old(view)
      ensures Search(places, input).Found? && mapReady ==>
                var i := Search(places, input).index;
                && view == Some(View(places[i].coords, 16))
                && openedPlace == (if i in placeMarkers then Some(i) else old(openedPlace))
                && status == Status(MovedTo(places[i].name), false)
      ensures Search(places, input).Found? && !mapReady ==>
                view == old(view) && openedPlace == old(openedPlace) && status == old(status)
    {
      match Search(places, input) {
        case EmptyQuery =>
          status := Status(TypeAPlace, true);
        case NoMatch =>
          status := Status(NoMatchingPlace, true);
        case Found(i) =>
          if mapReady {
            view := Some(View(places[i].coords, 16));
            if i in placeMarkers {
              openedPlace := Some(i);
            }
            status := Status(MovedTo(places[i].name), false);
          }
      }
    }
  }
}
