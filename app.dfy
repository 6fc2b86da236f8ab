/**
 * The widget's module-level state and its event handlers (app.js): the
 * current location, the saved-locations list and its copy in local storage.
 * Every network reply is a parameter; the DOM is left out except for the
 * status text a handler leaves behind and the forecast it renders.
 */
module App {
  import opened Wrappers
  import opened Query
  import opened Geocoder
  import opened Forecast
  import opened SavedList

  /** `JSON.parse(localStorage.getItem(key)) || []`: a missing or unreadable entry gives []. */
  function LoadSaved(stored: Option<seq<Location>>): (r: seq<Location>)
    ensures stored.None? ==> r == []
    ensures stored.Some? ==> r == stored.value
  {
    match stored
    case None => []
    case Some(list) => list
  }

  /** What searchAndRenderWeather leaves behind. */
  datatype SearchOutcome = SearchOutcome(
    located: Option<Location>,   // the new currentLocation, when geocoding succeeded
    status: string,              // the last status text written
    shown: Option<Forecast>)     // the periods rendered, when the forecast loaded

  /**
   * searchAndRenderWeather: geocode, then load the forecast for the place
   * found. The location is adopted as soon as geocoding succeeds, so a
   * forecast failure still leaves it current; any thrown error's message
   * becomes the status.
   */
  function Search(geo: GeoReply, fc: ForecastReply): (r: SearchOutcome)
    ensures r.located.Some? <==> Geocode(geo).Ok?
    ensures r.located.Some? ==> r.located.value == Geocode(geo).value
    ensures Geocode(geo).Err? ==> r.status == Geocode(geo).error.Message()
    ensures r.shown.Some? <==> Geocode(geo).Ok? && LoadForecasts(fc).Ok?
    ensures r.shown.Some? ==> r.shown.value == LoadForecasts(fc).value
    ensures r.shown.Some? ==> r.status == "Showing forecast for " + r.located.value.displayName + "."
    ensures r.located.Some? && r.shown.None? ==> r.status == LoadForecasts(fc).error.Message()
  {
    match Geocode(geo)
    case Err(e) => SearchOutcome(None, e.Message(), None)
    case Ok(loc) =>
      match LoadForecasts(fc)
      case Err(e) => SearchOutcome(Some(loc), e.Message(), None)
      case Ok(f) => SearchOutcome(Some(loc), "Showing forecast for " + loc.displayName + ".", Some(f))
  }

  /** The widget's module-level state. */
  class WeatherApp {
    /** `currentLocation`: null until a search succeeds. */
    var current: Option<Location>
    /** `savedLocations`. */
    var saved: seq<Location>
    /** What local storage holds under "us-weather-saved-locations-v1" (None: missing or unreadable). */
    var stored: Option<seq<Location>>

    /** Page load: no current location, the saved list read back from storage. */
    constructor (stored: Option<seq<Location>>)
      ensures current == None
      ensures saved == LoadSaved(stored)
      ensures this.stored == stored
    {
      current := None;
      saved := LoadSaved(stored);
      this.stored := stored;
    }

    /**
     * The search form's submit handler: a blank query returns before any
     * search and touches nothing; otherwise the trimmed text is the query
     * searched for.
     */
    method Submit(input: string, geo: GeoReply, fc: ForecastReply)
      returns (query: Option<string>, status: Option<string>, shown: Option<Forecast>)
      modifies this
      ensures query == SubmittedQuery(input)
      ensures query.None? <==> IsBlank(input)
      ensures query.None? ==> status.None? && shown.None? && unchanged(this)
      ensures query.Some? ==> var r := Search(geo, fc);
        && status == Some(r.status) && shown == r.shown
        && current == (if r.located.Some? then r.located else old(current))
      ensures saved == old(saved) && stored == old(stored)
    {
      query := SubmittedQuery(input);
      if query.None? {
        status, shown := None, None;
        return;
      }
      var s;
      s, shown := SearchAndRender(geo, fc);
      status := Some(s);
    }

    /** searchAndRenderWeather: adopts the location found, even if its forecast then fails. */
    method SearchAndRender(geo: GeoReply, fc: ForecastReply) returns (status: string, shown: Option<Forecast>)
      modifies this
      ensures var r := Search(geo, fc);
        && status == r.status && shown == r.shown
        && current == (if r.located.Some? then r.located else old(current))
      ensures saved == old(saved) && stored == old(stored)
    {
      var r := Search(geo, fc);
      if r.located.Some? {
        current := r.located;
      }
      status, shown := r.status, r.shown;
    }

    /**
     * The save button's handler: appends the current location unless there
     * is none or its name is already listed, and persists the list only when
     * it changed. Distinct names stay distinct.
     */
    method SaveCurrent() returns (status: string)
      modifies this
      ensures var r := Save(old(current), old(saved));
        && saved == r.list && status == r.status.Message()
        && stored == (if r.status.Saved? then Some(saved) else old(stored))
      ensures old(current).Some? ==> HasName(saved, old(current).value.displayName)
      ensures DistinctNames(old(saved)) ==> DistinctNames(saved)
      ensures current == old(current)
    {
      var r := Save(current, saved);
      if r.status.Saved? {
        saved := r.list;
        stored := Some(saved);
      }
      status := r.status.Message();
    }

    /**
     * A saved entry's remove button: drops every entry with that display
     * name, keeping the others in order, and persists the result.
     */
    method Remove(name: string) returns (status: string)
      modifies this
      ensures saved == RemoveName(old(saved), name)
      ensures !HasName(old(saved), name) ==> saved == old(saved)
      ensures DistinctNames(old(saved)) ==> DistinctNames(saved)
      ensures stored == Some(saved)
      ensures status == "Removed " + name + " from saved locations."
      ensures current == old(current)
    {
      assert !HasName(saved, name) ==> RemoveName(saved, name) == saved by {
        if !HasName(saved, name) { RemoveAbsent(saved, name); }
      }
      assert DistinctNames(saved) ==> DistinctNames(RemoveName(saved, name)) by {
        if DistinctNames(saved) { RemoveKeepsDistinct(saved, name); }
      }
      saved := RemoveName(saved, name);
      stored := Some(saved);
      status := "Removed " + name + " from saved locations.";
    }
  }
}
