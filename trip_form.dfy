/** The trip intake form (src/components/reservation-form.tsx): the submit
    validation that builds the trip record, and the waypoint list editor with
    its two parallel autocomplete arrays. */
module TripForm {
  import opened Wrappers
  import opened Text
  import Lists

  datatype TripType = Simple | Hourly

  /** The form's text inputs, as the strings they hold. */
  datatype FormData = FormData(
    departure: string,
    destination: string,
    duration: string,
    date: string,
    time: string,
    passengers: string)

  /** The trip record handed to the vehicle page. Duration and passengers stay
      strings, as the form keeps them. */
  datatype ReservationData = ReservationData(
    tripType: TripType,
    departure: string,
    destination: string,
    waypoints: seq<string>,
    duration: string,
    date: string,
    time: string,
    passengers: string)

  /** The three alerts that stop a submit, in the order they are checked. */
  datatype SubmitError = MissingRequiredField | MissingDestination | MissingDuration

  /** The form's initial state: everything empty except one passenger. */
  const InitialForm := FormData("", "", "", "", "", "1")

  /** `waypoint.trim() !== ""` */
  predicate HasText(w: string)
  {
    Trim(w) != ""
  }

  /** The waypoints with the blank entries dropped, order kept. */
  function FilledWaypoints(ws: seq<string>): (r: seq<string>)
    ensures |r| <= |ws|
    ensures forall w :: w in r <==> w in ws && !IsBlank(w)
  {
    Lists.Filter(HasText, ws)
  }

  /** Dropping blanks distributes over concatenation, so relative order is kept. */
  lemma FilledWaypointsAppend(a: seq<string>, b: seq<string>)
    ensures FilledWaypoints(a + b) == FilledWaypoints(a) + FilledWaypoints(b)
  {
    Lists.FilterAppend(HasText, a, b);
  }

  /** Filtering an already filtered list changes nothing (the vehicle page
      filters the stored waypoints a second time). */
  lemma FilledWaypointsIdempotent(ws: seq<string>)
    ensures FilledWaypoints(FilledWaypoints(ws)) == FilledWaypoints(ws)
  {
    Lists.FilterIdempotent(HasText, ws);
  }

  /** `handleSubmit`: the checks run in order and the first one that fails
      decides the alert; only a form that passes all three yields a trip. */
  function HandleSubmit(tripType: TripType, form: FormData, waypoints: seq<string>): (r: Result<ReservationData, SubmitError>)
    ensures r == Err(MissingRequiredField) <==>
      form.departure == "" || form.date == "" || form.time == "" || form.passengers == ""
    ensures r.Ok? ==> r.value.waypoints == FilledWaypoints(waypoints)
    ensures r.Ok? ==> r.value == ReservationData(tripType, form.departure, form.destination,
      r.value.waypoints, form.duration, form.date, form.time, form.passengers)
  {
    if form.departure == "" || form.date == "" || form.time == "" || form.passengers == "" then
      Err(MissingRequiredField)
    else if tripType == Simple && form.destination == "" then
      Err(MissingDestination)
    else if tripType == Hourly && form.duration == "" then
      Err(MissingDuration)
    else
      Ok(ReservationData(tripType, form.departure, form.destination, FilledWaypoints(waypoints),
        form.duration, form.date, form.time, form.passengers))
  }

  /** What every submitted trip satisfies: the required fields are non-empty,
      the field its type needs is non-empty, and no waypoint is blank. */
  predicate WellFormedTrip(t: ReservationData)
  {
    && t.departure != "" && t.date != "" && t.time != "" && t.passengers != ""
    && (t.tripType == Simple ==> t.destination != "")
    && (t.tripType == Hourly ==> t.duration != "")
    && forall i :: 0 <= i < |t.waypoints| ==> !IsBlank(t.waypoints[i])
  }

  /** A form is accepted exactly when it is complete for its trip type, the
      accepted trip is well formed, and a rejected form names the first
      check that failed. */
  lemma SubmitAcceptsExactlyCompleteForms(tripType: TripType, form: FormData, waypoints: seq<string>)
    ensures var r := HandleSubmit(tripType, form, waypoints);
      && (r.Ok? <==>
           && form.departure != "" && form.date != "" && form.time != "" && form.passengers != ""
           && (tripType == Simple ==> form.destination != "")
           && (tripType == Hourly ==> form.duration != ""))
      && (r.Ok? ==> WellFormedTrip(r.value))
      && (r == Err(MissingDestination) <==> r != Err(MissingRequiredField) && tripType == Simple && form.destination == "")
      && (r == Err(MissingDuration) <==> r != Err(MissingRequiredField) && tripType == Hourly && form.duration == "")
  {
    var r := HandleSubmit(tripType, form, waypoints);
    if r.Ok? {
      forall i | 0 <= i < |r.value.waypoints| ensures !IsBlank(r.value.waypoints[i]) {
        assert r.value.waypoints[i] in r.value.waypoints;
      }
    }
  }

  /** Submitting the untouched form raises the first alert, whatever the
      trip type and the waypoints. */
  lemma InitialFormIsRejected(tripType: TripType, waypoints: seq<string>)
    ensures HandleSubmit(tripType, InitialForm, waypoints) == Err(MissingRequiredField)
  {
  }

  /** One autocomplete proposal. */
  datatype Suggestion = Suggestion(description: string, placeId: string)

  /** The answer of the places autocomplete service. */
  datatype PlacesReply = PlacesOk(predictions: seq<Suggestion>) | PlacesFailed

  /** `getPlaceSuggestions`: no proposals when the maps library is not loaded
      or the input is empty, nor when the service does not answer OK. */
  function PlaceSuggestions(mapsLoaded: bool, input: string, reply: PlacesReply): (r: seq<Suggestion>)
    ensures (!mapsLoaded || input == [] || reply.PlacesFailed?) ==> r == []
    ensures mapsLoaded && input != [] && reply.PlacesOk? ==> r == reply.predictions
  {
    if !mapsLoaded || input == [] then []
    else match reply
      case PlacesOk(predictions) => predictions
      case PlacesFailed => []
  }

  /** `value.length > 2`: proposals are requested only for inputs longer
      than two UTF-16 code units. */
  predicate WantsSuggestions(value: string)
  {
    Utf16Length(value) > 2
  }

  /** Three characters always ask for proposals and one never does, while two
      characters do exactly when one of them lies outside the Basic
      Multilingual Plane (two emoji count as four code units). */
  lemma WantsSuggestionsByLength(value: string)
    ensures |value| > 2 ==> WantsSuggestions(value)
    ensures |value| <= 1 ==> !WantsSuggestions(value)
    ensures |value| == 2 ==> (WantsSuggestions(value) <==> value[0] as int >= 0x1_0000 || value[1] as int >= 0x1_0000)
  {
    if |value| == 2 {
      assert value[1..][1..] == [];
      assert Utf16Length(value) == Utf16Units(value[0]) + Utf16Units(value[1]) by {
        assert Utf16Length(value[1..]) == Utf16Units(value[1]) + Utf16Length(value[1..][1..]);
      }
    }
  }

  /** One place input together with its proposal list and whether the list
      is shown (the departure and destination fields, or one waypoint). */
  datatype PlaceField = PlaceField(text: string, suggestions: seq<Suggestion>, shown: bool)

  /** `handleDepartureChange` / `handleDestinationChange`: the input takes the
      typed value; proposals are fetched only for a value longer than two
      characters, and the list is shown exactly when it is not empty. */
  function FieldChange(value: string, mapsLoaded: bool, reply: PlacesReply): (r: PlaceField)
    ensures r.text == value
    ensures r.shown <==> r.suggestions != []
    ensures !WantsSuggestions(value) ==> r.suggestions == []
    ensures WantsSuggestions(value) && mapsLoaded && reply.PlacesOk? ==> r.suggestions == reply.predictions
    ensures !mapsLoaded || reply.PlacesFailed? ==> r.suggestions == []
  {
    var found := if WantsSuggestions(value) then PlaceSuggestions(mapsLoaded, value, reply) else [];
    PlaceField(value, found, found != [])
  }

  /** `selectDepartureSuggestion` / `selectDestinationSuggestion`: the input
      takes the proposal's description and the list is cleared and hidden. */
  function FieldSelect(choice: Suggestion): (r: PlaceField)
    ensures r.text == choice.description && r.suggestions == [] && !r.shown
  {
    PlaceField(choice.description, [], false)
  }

  /** The waypoint inputs and, per waypoint, its proposal list and whether the
      list is shown. */
  class WaypointEditor {
    var waypoints: seq<string>
    var suggestions: seq<seq<Suggestion>>
    var showSuggestions: seq<bool>

    /** The three arrays have one slot per waypoint. */
    predicate Aligned()
      reads this
    {
      |suggestions| == |waypoints| && |showSuggestions| == |waypoints|
    }

    constructor ()
      ensures waypoints == [] && suggestions == [] && showSuggestions == []
      ensures Aligned()
    {
      waypoints, suggestions, showSuggestions := [], [], [];
    }

    /** `addWaypoint`: appends one empty waypoint; the proposal arrays are
        resized only by the effect SyncSuggestionSlots. */
    method AddWaypoint()
      modifies this
      ensures waypoints == old(waypoints) + [""]
      ensures suggestions == old(suggestions) && showSuggestions == old(showSuggestions)
    {
      waypoints := waypoints + [""];
    }

    /** The effect run whenever the number of waypoints changes: one empty,
        hidden proposal list per waypoint. */
    method SyncSuggestionSlots()
      modifies this
      ensures waypoints == old(waypoints)
      ensures Aligned()
      ensures forall i :: 0 <= i < |waypoints| ==> suggestions[i] == [] && !showSuggestions[i]
    {
      suggestions := seq(|waypoints|, _ => []);
      showSuggestions := seq(|waypoints|, _ => false);
    }

    /** `removeWaypoint(index)`: splices the same index out of all three
        arrays, so aligned arrays stay aligned. */
    method RemoveWaypoint(index: nat)
      modifies this
      ensures waypoints == Lists.SpliceOut(old(waypoints), index)
      ensures suggestions == Lists.SpliceOut(old(suggestions), index)
      ensures showSuggestions == Lists.SpliceOut(old(showSuggestions), index)
      ensures old(Aligned()) ==> Aligned()
    {
      var newWaypoints := waypoints;
      newWaypoints := Lists.SpliceOut(newWaypoints, index);
      waypoints := newWaypoints;

      var newSuggestions := suggestions;
      newSuggestions := Lists.SpliceOut(newSuggestions, index);
      suggestions := newSuggestions;

      var newShow := showSuggestions;
      newShow := Lists.SpliceOut(newShow, index);
      showSuggestions := newShow;
    }

    /** `handleWaypointChange(index, value)`: rewrites the waypoint at `index`
        only; for a value longer than two characters it asks the places
        service and shows its proposals, otherwise it clears them. */
    method HandleWaypointChange(index: nat, value: string, mapsLoaded: bool, reply: PlacesReply)
      returns (requested: bool)
      requires Aligned() && index < |waypoints|
      modifies this
      ensures requested <==> WantsSuggestions(value)
      ensures waypoints == old(waypoints)[index := value]
      ensures requested ==>
        var found := PlaceSuggestions(mapsLoaded, value, reply);
        suggestions == old(suggestions)[index := found] && showSuggestions == old(showSuggestions)[index := found != []]
      ensures !requested ==>
        suggestions == old(suggestions)[index := []] && showSuggestions == old(showSuggestions)[index := false]
      ensures Aligned()
      ensures PlaceField(waypoints[index], suggestions[index], showSuggestions[index]) == FieldChange(value, mapsLoaded, reply)
    {
      var newWaypoints := waypoints;
      newWaypoints := newWaypoints[index := value];
      waypoints := newWaypoints;

      requested := WantsSuggestions(value);
      var found := if requested then PlaceSuggestions(mapsLoaded, value, reply) else [];
      var newSuggestions := suggestions;
      newSuggestions := newSuggestions[index := found];
      suggestions := newSuggestions;

      var newShow := showSuggestions;
      newShow := newShow[index := found != []];
      showSuggestions := newShow;
    }

    /** `selectWaypointSuggestion(index, suggestion)`: the waypoint at `index`
        becomes the proposal's description and its list is cleared and hidden. */
    method SelectWaypointSuggestion(index: nat, choice: Suggestion)
      requires Aligned() && index < |waypoints|
      modifies this
      ensures waypoints == old(waypoints)[index := choice.description]
      ensures suggestions == old(suggestions)[index := []]
      ensures showSuggestions == old(showSuggestions)[index := false]
      ensures Aligned()
      ensures PlaceField(waypoints[index], suggestions[index], showSuggestions[index]) == FieldSelect(choice)
    {
      var newWaypoints := waypoints;
      newWaypoints := newWaypoints[index := choice.description];
      waypoints := newWaypoints;

      var newSuggestions := suggestions;
      newSuggestions := newSuggestions[index := []];
      suggestions := newSuggestions;

      var newShow := showSuggestions;
      newShow := newShow[index := false];
      showSuggestions := newShow;
    }
  }
}
