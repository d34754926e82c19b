/** The vehicle selection page (src/app/reservation/page.tsx): capacity
    filter, distance resolution with its fallback, the two fare tables, the
    add-on options, the customer-info check and the record handed to payment.
    Amounts are euro cents. */
module Booking {
  import opened Wrappers
  import opened Text
  import Lists
  import opened TripForm

  /** An amount in euro cents. */
  type Cents = nat

  /** A catalog entry of the vehicle collection. */
  datatype Vehicle = Vehicle(
    id: string,
    name: string,
    passengers: nat,
    luggage: nat,
    imageUrl: string,
    basePrice: Cents,
    minimumPrice: Cents,
    pricePerKm: Cents,
    pricePerHour: Cents,
    priceType: string)

  /** The price shown for one vehicle; `distance` holds the distance part for a
      point-to-point trip and the hours part for an hourly one. */
  datatype CalculatedPrice = CalculatedPrice(base: Cents, distance: Cents, total: Cents)

  datatype AdditionalOption = AdditionalOption(id: string, name: string, price: Cents, selected: bool)

  datatype PersonalInfo = PersonalInfo(
    firstName: string,
    lastName: string,
    phone: string,
    email: string,
    flightNumber: string)

  // ---------------------------------------------------------------------
  // Vehicle catalog filter

  function SeatsAtLeast(requested: nat): Vehicle -> bool
  {
    (v: Vehicle) => v.passengers >= requested
  }

  /** The vehicles that seat the requested number of passengers. */
  function FitsCapacity(vehicles: seq<Vehicle>, requested: nat): (r: seq<Vehicle>)
    ensures |r| <= |vehicles|
    ensures forall v :: v in r <==> v in vehicles && v.passengers >= requested
  {
    Lists.Filter(SeatsAtLeast(requested), vehicles)
  }

  /** The filter works vehicle by vehicle, so the catalog order is kept. */
  lemma FitsCapacityAppend(a: seq<Vehicle>, b: seq<Vehicle>, requested: nat)
    ensures FitsCapacity(a + b, requested) == FitsCapacity(a, requested) + FitsCapacity(b, requested)
  {
    Lists.FilterAppend(SeatsAtLeast(requested), a, b);
  }

  /** No vehicle that seats enough passengers is dropped. */
  lemma FitsCapacityKeepsRoomyCatalog(vehicles: seq<Vehicle>, requested: nat)
    requires forall i :: 0 <= i < |vehicles| ==> vehicles[i].passengers >= requested
    ensures FitsCapacity(vehicles, requested) == vehicles
  {
    Lists.FilterKeepsAll(SeatsAtLeast(requested), vehicles);
  }

  // ---------------------------------------------------------------------
  // Distance resolution

  /** The directions service's answer: the route legs' lengths in metres, or
      a status other than OK. */
  datatype DirectionsReply = RouteOk(legMeters: seq<nat>) | RouteFailed

  /** How the directions step ended: the maps library did not load in time,
      it was absent when the route was asked for, the service threw, or the
      service replied. */
  datatype Directions = MapsLoadTimedOut | MapsMissing | ServiceThrew | Replied(reply: DirectionsReply)

  /** The route sent to the directions service. */
  datatype RouteRequest = RouteRequest(origin: string, destination: string, waypoints: seq<string>)

  /** The distance used when the directions step fails. */
  const FallbackDistanceKm: nat := 10

  /** Origin, the non-blank waypoints in their order, destination. */
  function RouteRequestFor(departure: string, destination: string, waypoints: seq<string>): (q: RouteRequest)
    ensures q.origin == departure && q.destination == destination
    ensures forall w :: w in q.waypoints <==> w in waypoints && !IsBlank(w)
  {
    RouteRequest(departure, destination, FilledWaypoints(waypoints))
  }

  /** A trip stored by the form routes through exactly its stored waypoints:
      the page's second blank filter changes nothing. */
  lemma StoredTripRoutesThroughItsWaypoints(tripType: TripType, form: FormData, waypoints: seq<string>)
    requires HandleSubmit(tripType, form, waypoints).Ok?
    ensures var t := HandleSubmit(tripType, form, waypoints).value;
      RouteRequestFor(t.departure, t.destination, t.waypoints).waypoints == t.waypoints
  {
    FilledWaypointsIdempotent(waypoints);
  }

  /** `Math.ceil(meters / 1000)`: the fewest whole kilometres that cover the
      metres. */
  function KmRoundedUp(meters: nat): (km: nat)
    ensures km * 1000 >= meters
    ensures forall k: nat :: k * 1000 >= meters ==> km <= k
  {
    (meters + 999) / 1000
  }

  /** The distance the page ends up with: none when the maps library is
      absent at the time of the request, the rounded-up route length on an OK
      reply, and the fallback on every other failure. */
  function ResolvedDistance(directions: Directions): (d: Option<nat>)
    ensures d.None? <==> directions == MapsMissing
    ensures directions.Replied? && directions.reply.RouteOk? ==>
      d == Some(KmRoundedUp(Lists.Sum(directions.reply.legMeters)))
    ensures directions != MapsMissing && !(directions.Replied? && directions.reply.RouteOk?) ==>
      d == Some(FallbackDistanceKm)
  {
    match directions
    case MapsMissing => None
    case Replied(RouteOk(legs)) => Some(KmRoundedUp(Lists.Sum(legs)))
    case _ => Some(FallbackDistanceKm)
  }

  /** The leg loop: `totalDistance += leg.distance.value` for every leg. */
  method TotalLegMeters(legMeters: seq<nat>) returns (total: nat)
    ensures total == Lists.Sum(legMeters)
  {
    total := 0;
    var i := 0;
    while i < |legMeters|
      invariant 0 <= i <= |legMeters|
      invariant total == Lists.Sum(legMeters[..i])
    {
      assert legMeters[..i + 1] == legMeters[..i] + [legMeters[i]];
      Lists.SumAppend(legMeters[..i], [legMeters[i]]);
      total := total + legMeters[i];
      i := i + 1;
    }
    assert legMeters[..i] == legMeters;
  }

  /** `calculateDistanceWithWaypoints` together with the fallback of
      `loadVehicles`. */
  method ResolveDistance(directions: Directions) returns (distance: Option<nat>)
    ensures distance == ResolvedDistance(directions)
  {
    match directions {
      case MapsMissing =>
        distance := None;
      case Replied(RouteOk(legs)) =>
        var totalDistance := TotalLegMeters(legs);
        distance := Some(KmRoundedUp(totalDistance));
      case _ =>
        distance := Some(FallbackDistanceKm);
    }
  }

  // ---------------------------------------------------------------------
  // Fare models

  /** Which fare model a price table is built with. */
  datatype Tariff = PerKm(km: nat) | PerHour(hours: nat)

  /** Point-to-point fare: the base plus the distance part, raised to the
      vehicle's minimum fare when below it. */
  function PointToPointFare(v: Vehicle, km: nat): (p: CalculatedPrice)
    ensures p.base == v.basePrice && p.distance == km * v.pricePerKm
    ensures p.total >= v.minimumPrice && p.total >= p.base + p.distance
    ensures p.total == p.base + p.distance || p.total == v.minimumPrice
  {
    var distancePrice := km * v.pricePerKm;
    var total := v.basePrice + distancePrice;
    CalculatedPrice(v.basePrice, distancePrice, if total < v.minimumPrice then v.minimumPrice else total)
  }

  /** Hourly fare: the base plus the hours part, with no minimum fare. */
  function HourlyFare(v: Vehicle, hours: nat): (p: CalculatedPrice)
    ensures p.base == v.basePrice && p.distance == hours * v.pricePerHour
    ensures p.total == p.base + p.distance
  {
    var hourlyPrice := hours * v.pricePerHour;
    CalculatedPrice(v.basePrice, hourlyPrice, v.basePrice + hourlyPrice)
  }

  function Fare(v: Vehicle, tariff: Tariff): CalculatedPrice
  {
    match tariff
    case PerKm(km) => PointToPointFare(v, km)
    case PerHour(hours) => HourlyFare(v, hours)
  }

  /** A longer point-to-point trip never costs less, so rounding the distance
      up never lowers the fare. */
  lemma PointToPointFareMonotone(v: Vehicle, km1: nat, km2: nat)
    requires km1 <= km2
    ensures PointToPointFare(v, km1).total <= PointToPointFare(v, km2).total
  {
    assert km1 * v.pricePerKm <= km2 * v.pricePerKm by {
      MultiplyMonotone(km1, km2, v.pricePerKm);
    }
  }

  /** A longer hourly booking never costs less. */
  lemma HourlyFareMonotone(v: Vehicle, h1: nat, h2: nat)
    requires h1 <= h2
    ensures HourlyFare(v, h1).total <= HourlyFare(v, h2).total
  {
    MultiplyMonotone(h1, h2, v.pricePerHour);
  }

  lemma MultiplyMonotone(a: nat, b: nat, c: nat)
    requires a <= b
    ensures a * c <= b * c
  {
    assert b * c == a * c + (b - a) * c;
  }

  /** The point-to-point fare never falls below the minimum fare, while an
      hourly fare below the minimum is charged as it is. */
  lemma FloorAppliesOnlyToPointToPoint(v: Vehicle, km: nat, hours: nat)
    ensures PointToPointFare(v, km).total >= v.minimumPrice
    ensures v.basePrice + hours * v.pricePerHour < v.minimumPrice ==>
      HourlyFare(v, hours).total < v.minimumPrice
  {
  }

  /** The vehicle at `i` is the last one in `vehicles` with its id. */
  predicate LastWithId(vehicles: seq<Vehicle>, i: nat)
    requires i < |vehicles|
  {
    forall j :: i < j < |vehicles| ==> vehicles[j].id != vehicles[i].id
  }

  /** `calculations`: one entry per vehicle id, holding the fare of the last
      vehicle with that id (later writes replace earlier ones). */
  predicate IsPriceTable(table: map<string, CalculatedPrice>, vehicles: seq<Vehicle>, tariff: Tariff)
  {
    && table.Keys == (set v | v in vehicles :: v.id)
    && forall i :: 0 <= i < |vehicles| && LastWithId(vehicles, i) ==> table[vehicles[i].id] == Fare(vehicles[i], tariff)
  }

  /** Writing one more vehicle's fare extends a price table by that vehicle. */
  lemma PriceTableStep(table: map<string, CalculatedPrice>, done: seq<Vehicle>, vehicle: Vehicle, tariff: Tariff)
    requires IsPriceTable(table, done, tariff)
    ensures IsPriceTable(table[vehicle.id := Fare(vehicle, tariff)], done + [vehicle], tariff)
  {
    var next := done + [vehicle];
    var updated := table[vehicle.id := Fare(vehicle, tariff)];
    forall k | 0 <= k < |next| && LastWithId(next, k)
      ensures updated[next[k].id] == Fare(next[k], tariff)
    {
      if k < |done| {
        assert next[|done|] == vehicle;
        assert LastWithId(done, k) by {
          forall j | k < j < |done| ensures done[j].id != done[k].id {
            assert next[j] == done[j];
          }
        }
      }
    }
    assert (set v | v in next :: v.id) == (set v | v in done :: v.id) + {vehicle.id};
  }

  /** The body shared by both `forEach` loops. */
  method BuildPriceTable(vehicles: seq<Vehicle>, tariff: Tariff) returns (calculations: map<string, CalculatedPrice>)
    ensures IsPriceTable(calculations, vehicles, tariff)
  {
    calculations := map[];
    var i := 0;
    while i < |vehicles|
      invariant 0 <= i <= |vehicles|
      invariant IsPriceTable(calculations, vehicles[..i], tariff)
    {
      var vehicle := vehicles[i];
      assert vehicles[..i + 1] == vehicles[..i] + [vehicle];
      PriceTableStep(calculations, vehicles[..i], vehicle, tariff);
      calculations := calculations[vehicle.id := Fare(vehicle, tariff)];
      i := i + 1;
    }
    assert vehicles[..i] == vehicles;
  }

  /** `calculateSimplePrices`: the point-to-point fare of every vehicle. */
  method CalculateSimplePrices(vehicles: seq<Vehicle>, distanceKm: nat) returns (calculations: map<string, CalculatedPrice>)
    ensures IsPriceTable(calculations, vehicles, PerKm(distanceKm))
  {
    calculations := BuildPriceTable(vehicles, PerKm(distanceKm));
  }

  /** `calculateHourlyPrices`: the hourly fare of every vehicle. */
  method CalculateHourlyPrices(vehicles: seq<Vehicle>, hours: nat) returns (calculations: map<string, CalculatedPrice>)
    ensures IsPriceTable(calculations, vehicles, PerHour(hours))
  {
    calculations := BuildPriceTable(vehicles, PerHour(hours));
  }

  predicate UniqueIds(vehicles: seq<Vehicle>)
  {
    forall i, j :: 0 <= i < j < |vehicles| ==> vehicles[i].id != vehicles[j].id
  }

  /** With distinct ids (document ids of one collection), every vehicle's
      entry is its own fare. */
  lemma PriceTableOfDistinctIds(table: map<string, CalculatedPrice>, vehicles: seq<Vehicle>, tariff: Tariff, k: nat)
    requires IsPriceTable(table, vehicles, tariff) && UniqueIds(vehicles) && k < |vehicles|
    ensures vehicles[k].id in table && table[vehicles[k].id] == Fare(vehicles[k], tariff)
  {
    assert LastWithId(vehicles, k);
  }

  /** The index of the last vehicle with a given id. */
  lemma LastIndexOf(vehicles: seq<Vehicle>, id: string) returns (i: nat)
    requires exists v :: v in vehicles && v.id == id
    ensures i < |vehicles| && vehicles[i].id == id && LastWithId(vehicles, i)
  {
    var n := |vehicles| - 1;
    while vehicles[n].id != id
      invariant 0 <= n < |vehicles|
      invariant forall j :: n < j < |vehicles| ==> vehicles[j].id != id
      decreases n
    {
      if n == 0 {
        var v :| v in vehicles && v.id == id;
        var w :| 0 <= w < |vehicles| && vehicles[w] == v;
        assert false;
      }
      n := n - 1;
    }
    i := n;
  }

  /** The price table of a catalog is unique: anything the loops may build
      is the same map. */
  lemma PriceTableIsUnique(t1: map<string, CalculatedPrice>, t2: map<string, CalculatedPrice>, vehicles: seq<Vehicle>, tariff: Tariff)
    requires IsPriceTable(t1, vehicles, tariff) && IsPriceTable(t2, vehicles, tariff)
    ensures t1 == t2
  {
    forall id | id in t1 ensures t1[id] == t2[id] {
      var i := LastIndexOf(vehicles, id);
    }
  }

  // ---------------------------------------------------------------------
  // Vehicle selection and add-on options

  /** `handleVehicleSelect`: the vehicle's computed total, or 0 when none was
      computed for it. */
  function SelectedVehiclePrice(prices: map<string, CalculatedPrice>, vehicle: Vehicle): (p: Cents)
    ensures vehicle.id in prices ==> p == prices[vehicle.id].total
    ensures vehicle.id !in prices ==> p == 0
  {
    if vehicle.id in prices then prices[vehicle.id].total else 0
  }

  /** Selecting a listed vehicle of a priced catalog takes its fare. */
  lemma SelectedPriceIsFare(prices: map<string, CalculatedPrice>, vehicles: seq<Vehicle>, tariff: Tariff, k: nat)
    requires IsPriceTable(prices, vehicles, tariff) && UniqueIds(vehicles) && k < |vehicles|
    ensures SelectedVehiclePrice(prices, vehicles[k]) == Fare(vehicles[k], tariff).total
  {
    PriceTableOfDistinctIds(prices, vehicles, tariff, k);
  }

  /** The add-on catalog the page starts with. */
  const DefaultOptions: seq<AdditionalOption> := [
    AdditionalOption("airportVIP", "Service VIP aéroport", 3000, false),
    AdditionalOption("babySeat", "Siège bébé (0-12 mois)", 1000, false),
    AdditionalOption("childSeat", "Siège enfant (1-4 ans)", 1000, false),
    AdditionalOption("boosterSeat", "Siège d'appoint (4-8 ans)", 1000, false),
    AdditionalOption("pets", "Transport d'animaux domestiques", 2000, false),
    AdditionalOption("earlyArrival", "Arrivée anticipée (15 min)", 0, false)
  ]

  function Flip(option: AdditionalOption, optionId: string): AdditionalOption
  {
    if option.id == optionId then option.(selected := !option.selected) else option
  }

  /** `handleOptionToggle`: flips `selected` on the entries with the id and
      leaves every other entry, and the order, as they were. */
  function ToggleOption(options: seq<AdditionalOption>, optionId: string): (r: seq<AdditionalOption>)
    ensures |r| == |options|
    ensures forall i :: 0 <= i < |r| ==>
      r[i].id == options[i].id && r[i].name == options[i].name && r[i].price == options[i].price
    ensures forall i :: 0 <= i < |r| ==>
      r[i].selected == (if options[i].id == optionId then !options[i].selected else options[i].selected)
  {
    seq(|options|, i requires 0 <= i < |options| => Flip(options[i], optionId))
  }

  /** Toggling the same option twice restores the options. */
  lemma ToggleTwiceRestores(options: seq<AdditionalOption>, optionId: string)
    ensures ToggleOption(ToggleOption(options, optionId), optionId) == options
  {
    var r := ToggleOption(ToggleOption(options, optionId), optionId);
    assert forall i :: 0 <= i < |r| ==> r[i] == options[i];
  }

  /** Toggling an id no option has changes nothing. */
  lemma ToggleUnknownIdIsNoOp(options: seq<AdditionalOption>, optionId: string)
    requires forall i :: 0 <= i < |options| ==> options[i].id != optionId
    ensures ToggleOption(options, optionId) == options
  {
    var r := ToggleOption(options, optionId);
    assert forall i :: 0 <= i < |r| ==> r[i] == options[i];
  }

  function IsSelected(option: AdditionalOption): bool
  {
    option.selected
  }

  /** `additionalOptions.filter((option) => option.selected)` */
  function SelectedOptions(options: seq<AdditionalOption>): (r: seq<AdditionalOption>)
    ensures forall o :: o in r <==> o in options && o.selected
  {
    Lists.Filter(IsSelected, options)
  }

  function PriceSum(options: seq<AdditionalOption>): Cents
  {
    if options == [] then 0 else options[0].price + PriceSum(options[1..])
  }

  /** `calculateTotalWithOptions`: the vehicle price plus the prices of the
      selected options. */
  function TotalWithOptions(vehiclePrice: Cents, options: seq<AdditionalOption>): (total: Cents)
    ensures total >= vehiclePrice
  {
    vehiclePrice + PriceSum(SelectedOptions(options))
  }

  lemma {:induction false} PriceSumAppend(a: seq<AdditionalOption>, b: seq<AdditionalOption>)
    ensures PriceSum(a + b) == PriceSum(a) + PriceSum(b)
  {
    if a == [] {
      assert a + b == b;
    } else {
      assert (a + b)[1..] == a[1..] + b;
      PriceSumAppend(a[1..], b);
    }
  }

  /** With no option selected the total is the vehicle price. */
  lemma TotalWithoutSelection(vehiclePrice: Cents, options: seq<AdditionalOption>)
    requires forall i :: 0 <= i < |options| ==> !options[i].selected
    ensures TotalWithOptions(vehiclePrice, options) == vehiclePrice
  {
  }

  predicate UniqueOptionIds(options: seq<AdditionalOption>)
  {
    forall i, j :: 0 <= i < j < |options| ==> options[i].id != options[j].id
  }

  /** The selected options' sum split around one entry. */
  lemma SelectedSumAround(options: seq<AdditionalOption>, k: nat)
    requires k < |options|
    ensures PriceSum(SelectedOptions(options)) ==
      PriceSum(SelectedOptions(options[..k])) + (if options[k].selected then options[k].price else 0)
      + PriceSum(SelectedOptions(options[k + 1..]))
  {
    assert options == options[..k] + ([options[k]] + options[k + 1..]);
    Lists.FilterAppend(IsSelected, options[..k], [options[k]] + options[k + 1..]);
    Lists.FilterAppend(IsSelected, [options[k]], options[k + 1..]);
    assert [options[k]][1..] == [];
    var a := SelectedOptions(options[..k]);
    var m := SelectedOptions([options[k]]);
    var b := SelectedOptions(options[k + 1..]);
    PriceSumAppend(a, m + b);
    PriceSumAppend(m, b);
  }

  /** Toggling an option with a unique id moves the total by exactly that
      option's price: up when it becomes selected, down when it is cleared. */
  lemma ToggleMovesTotalByPrice(vehiclePrice: Cents, options: seq<AdditionalOption>, k: nat)
    requires UniqueOptionIds(options) && k < |options|
    ensures var after := TotalWithOptions(vehiclePrice, ToggleOption(options, options[k].id));
      var before := TotalWithOptions(vehiclePrice, options);
      if options[k].selected then after + options[k].price == before else after == before + options[k].price
  {
    var toggled := ToggleOption(options, options[k].id);
    ToggleTouchesOnlyIt(options, k);
    SelectedSumAround(options, k);
    SelectedSumAround(toggled, k);
    var front := PriceSum(SelectedOptions(options[..k]));
    var back := PriceSum(SelectedOptions(options[k + 1..]));
    assert PriceSum(SelectedOptions(toggled)) == front + (if toggled[k].selected then toggled[k].price else 0) + back;
    assert PriceSum(SelectedOptions(options)) == front + (if options[k].selected then options[k].price else 0) + back;
  }

  /** With unique ids, toggling the id of entry `k` flips that entry only. */
  lemma ToggleTouchesOnlyIt(options: seq<AdditionalOption>, k: nat)
    requires UniqueOptionIds(options) && k < |options|
    ensures var toggled := ToggleOption(options, options[k].id);
      && toggled[..k] == options[..k]
      && toggled[k + 1..] == options[k + 1..]
      && toggled[k] == options[k].(selected := !options[k].selected)
  {
    var id := options[k].id;
    var toggled := ToggleOption(options, id);
    assert toggled[..k] == options[..k] by {
      forall i | 0 <= i < k ensures toggled[i] == options[i] {
        assert options[i].id != id;
      }
    }
    assert toggled[k + 1..] == options[k + 1..] by {
      forall i | k < i < |options| ensures toggled[i] == options[i] {
        assert options[i].id != id;
      }
    }
  }

  /** The page's add-on catalog has distinct ids and starts with nothing
      selected, so its total is the vehicle price. */
  lemma DefaultOptionsStartUnselected(vehiclePrice: Cents)
    ensures UniqueOptionIds(DefaultOptions)
    ensures TotalWithOptions(vehiclePrice, DefaultOptions) == vehiclePrice
  {
    DefaultOptionIdsUnique();
    DefaultOptionsUnselected();
    TotalWithoutSelection(vehiclePrice, DefaultOptions);
  }

  lemma DefaultOptionIdsUnique()
    ensures UniqueOptionIds(DefaultOptions)
  {
    DefaultOptionIdLengths();
  }

  lemma DefaultOptionsUnselected()
    ensures forall i :: 0 <= i < |DefaultOptions| ==> !DefaultOptions[i].selected
  {
  }

  /** The catalog's ids have pairwise different lengths. */
  lemma DefaultOptionIdLengths()
    ensures |DefaultOptions| == 6
    ensures forall i :: 0 <= i < 6 ==> |DefaultOptions[i].id| == [10, 8, 9, 11, 4, 12][i]
  {
  }

  /** Choosing one add-on of the page's catalog adds exactly its price. */
  lemma DefaultOptionAddsItsPrice(vehiclePrice: Cents, k: nat)
    requires k < |DefaultOptions|
    ensures TotalWithOptions(vehiclePrice, ToggleOption(DefaultOptions, DefaultOptions[k].id))
         == vehiclePrice + DefaultOptions[k].price
  {
    DefaultOptionsStartUnselected(vehiclePrice);
    ToggleMovesTotalByPrice(vehiclePrice, DefaultOptions, k);
  }

  /** Selecting an option never lowers the total, and a zero-priced option
      leaves it unchanged. */
  lemma SelectingNeverLowersTotal(vehiclePrice: Cents, options: seq<AdditionalOption>, k: nat)
    requires UniqueOptionIds(options) && k < |options| && !options[k].selected
    ensures TotalWithOptions(vehiclePrice, ToggleOption(options, options[k].id)) >= TotalWithOptions(vehiclePrice, options)
    ensures options[k].price == 0 ==>
      TotalWithOptions(vehiclePrice, ToggleOption(options, options[k].id)) == TotalWithOptions(vehiclePrice, options)
  {
    ToggleMovesTotalByPrice(vehiclePrice, options, k);
  }

  // ---------------------------------------------------------------------
  // Customer information

  /** A run of characters that are neither whitespace nor '@' (`[^\s@]`). */
  predicate Plain(s: string)
  {
    forall k :: 0 <= k < |s| ==> s[k] != '@' && !IsWhitespace(s[k])
  }

  /** The strings matched by `^[^\s@]+@[^\s@]+\.[^\s@]+$`: three non-empty
      plain runs separated by an '@' and then a '.'. */
  ghost predicate EmailShape(e: string)
  {
    exists i, j :: 0 < i && i + 1 < j && j + 1 < |e| && e[i] == '@' && e[j] == '.'
      && Plain(e[..i]) && Plain(e[i + 1..j]) && Plain(e[j + 1..])
  }

  lemma PlainConcat(a: string, b: string)
    ensures Plain(a + b) <==> Plain(a) && Plain(b)
  {
    if Plain(a + b) {
      forall k | 0 <= k < |b| ensures b[k] != '@' && !IsWhitespace(b[k]) {
        assert (a + b)[|a| + k] == b[k];
      }
      forall k | 0 <= k < |a| ensures a[k] != '@' && !IsWhitespace(a[k]) {
        assert (a + b)[k] == a[k];
      }
    }
  }

  /** The email test: one '@' with a plain run before it, and after it a
      plain text holding a '.' that is neither its first nor its last
      character. */
  function MatchesEmailPattern(e: string): (ok: bool)
    ensures ok <==> EmailShape(e)
  {
    var at := Lists.FindIndex(e, '@');
    EmailPatternCorrect(e, at);
    EmailTest(e, at)
  }

  /** The test as computed, written out as a predicate. */
  predicate EmailTest(e: string, at: int)
  {
    at > 0 && at < |e| && Plain(e[..at]) && Plain(e[at + 1..]) && exists j :: at + 1 < j < |e| - 1 && e[j] == '.'
  }

  lemma EmailPatternCorrect(e: string, at: int)
    requires at == Lists.FindIndex(e, '@')
    ensures EmailTest(e, at) <==> EmailShape(e)
  {
    if EmailTest(e, at) {
      EmailTestGivesShape(e, at);
    }
    if EmailShape(e) {
      EmailShapeGivesTest(e, at);
    }
  }

  /** The text after the '@' is plain exactly when the runs around its '.' are. */
  lemma PlainAroundDot(e: string, i: nat, j: nat)
    requires i < j < |e| && e[j] == '.'
    ensures Plain(e[i..]) <==> Plain(e[i..j]) && Plain(e[j + 1..])
  {
    assert e[i..] == e[i..j] + [e[j]] + e[j + 1..];
    PlainConcat(e[i..j] + [e[j]], e[j + 1..]);
    PlainConcat(e[i..j], [e[j]]);
  }

  lemma EmailTestGivesShape(e: string, at: int)
    requires at == Lists.FindIndex(e, '@') && EmailTest(e, at)
    ensures EmailShape(e)
  {
    var j :| at + 1 < j < |e| - 1 && e[j] == '.';
    PlainAroundDot(e, at + 1, j);
  }

  /** Before the first '@' there is none. */
  lemma FirstAt(e: string, i: nat)
    requires i < |e| && e[i] == '@' && Plain(e[..i])
    ensures Lists.FindIndex(e, '@') == i
  {
    assert '@' !in e[..i];
    Lists.FirstOccurrence(e, i);
  }

  lemma EmailShapeGivesTest(e: string, at: int)
    requires at == Lists.FindIndex(e, '@') && EmailShape(e)
    ensures EmailTest(e, at)
  {
    var i, j :| 0 < i && i + 1 < j && j + 1 < |e| && e[i] == '@' && e[j] == '.'
      && Plain(e[..i]) && Plain(e[i + 1..j]) && Plain(e[j + 1..]);
    FirstAt(e, i);
    PlainAroundDot(e, i + 1, j);
  }

  /** An address without an '@', or without a '.' after its '@', fails. */
  lemma EmailNeedsAtThenDot(e: string)
    requires MatchesEmailPattern(e)
    ensures exists i, j :: 0 <= i < j < |e| && e[i] == '@' && e[j] == '.'
  {
  }

  /** `isPersonalInfoValid`: names, phone and email non-blank, and the email
      of the accepted shape. */
  function IsPersonalInfoValid(info: PersonalInfo): (ok: bool)
    ensures ok <==>
      && !IsBlank(info.firstName) && !IsBlank(info.lastName) && !IsBlank(info.phone)
      && !IsBlank(info.email) && EmailShape(info.email)
  {
    Trim(info.firstName) != "" && Trim(info.lastName) != "" && Trim(info.phone) != ""
      && Trim(info.email) != "" && MatchesEmailPattern(info.email)
  }

  // ---------------------------------------------------------------------
  // Page load and hand-off to payment

  /** The vehicle collection read: the documents, or a failed read. */
  datatype CatalogRead = CatalogLoaded(vehicles: seq<Vehicle>) | CatalogFailed

  /** What the page shows once loading is over. */
  datatype PageState = PageState(vehicles: seq<Vehicle>, distance: Option<nat>, prices: map<string, CalculatedPrice>)

  /** `loadVehicles`: filter the catalog by the parsed passenger count, then
      price it per kilometre (after resolving the distance) or per hour (with
      the parsed duration). A failed catalog read leaves the initial empty
      state. */
  method LoadVehicles(trip: ReservationData, passengers: nat, hours: nat, catalog: CatalogRead, directions: Directions)
    returns (state: PageState)
    ensures catalog.CatalogFailed? ==> state == PageState([], None, map[])
    ensures catalog.CatalogLoaded? ==> state.vehicles == FitsCapacity(catalog.vehicles, passengers)
    ensures catalog.CatalogLoaded? && trip.tripType == Hourly ==>
      state.distance == None && IsPriceTable(state.prices, state.vehicles, PerHour(hours))
    ensures catalog.CatalogLoaded? && trip.tripType == Simple ==>
      && state.distance == ResolvedDistance(directions)
      && (state.distance.Some? ==> IsPriceTable(state.prices, state.vehicles, PerKm(state.distance.value)))
      && (state.distance.None? ==> state.prices == map[])
  {
    state := PageState([], None, map[]);
    match catalog {
      case CatalogFailed =>
      case CatalogLoaded(vehiclesList) =>
        var filteredVehicles := FitsCapacity(vehiclesList, passengers);
        state := state.(vehicles := filteredVehicles);
        if trip.tripType == Simple {
          var distance := ResolveDistance(directions);
          if distance.Some? {
            var prices := CalculateSimplePrices(filteredVehicles, distance.value);
            state := state.(distance := distance, prices := prices);
          }
        } else {
          var prices := CalculateHourlyPrices(filteredVehicles, hours);
          state := state.(prices := prices);
        }
    }
  }

  /** The record stored for the payment page. */
  datatype CompleteReservation = CompleteReservation(
    trip: ReservationData,
    selectedVehicle: Vehicle,
    selectedOptions: seq<AdditionalOption>,
    personalInfo: PersonalInfo,
    totalPrice: Cents,
    distance: Option<nat>,
    vehicleBasePrice: Cents)

  /** `handleFinalSubmit`: nothing without a trip or a chosen vehicle;
      otherwise the trip with the vehicle, the selected options in order, the
      customer, the options total and the pre-options price. */
  function FinalSubmit(trip: Option<ReservationData>, vehicle: Option<Vehicle>, vehiclePrice: Cents,
                       options: seq<AdditionalOption>, info: PersonalInfo, distance: Option<nat>): (r: Option<CompleteReservation>)
    ensures r.None? <==> trip.None? || vehicle.None?
    ensures r.Some? ==>
      && r.value.trip == trip.value && r.value.selectedVehicle == vehicle.value
      && r.value.personalInfo == info && r.value.distance == distance
      && r.value.vehicleBasePrice == vehiclePrice
      && r.value.selectedOptions == SelectedOptions(options)
      && r.value.totalPrice == TotalWithOptions(vehiclePrice, options)
  {
    if trip.None? || vehicle.None? then None
    else
      Some(CompleteReservation(trip.value, vehicle.value, SelectedOptions(options), info,
        TotalWithOptions(vehiclePrice, options), distance, vehiclePrice))
  }

  /** The stored total is the pre-options price plus the stored options, all
      of which are selected ones. */
  lemma FinalSubmitTotalsAgree(trip: Option<ReservationData>, vehicle: Option<Vehicle>, vehiclePrice: Cents,
                               options: seq<AdditionalOption>, info: PersonalInfo, distance: Option<nat>)
    requires FinalSubmit(trip, vehicle, vehiclePrice, options, info, distance).Some?
    ensures var c := FinalSubmit(trip, vehicle, vehiclePrice, options, info, distance).value;
      && c.totalPrice == c.vehicleBasePrice + PriceSum(c.selectedOptions)
      && c.totalPrice >= c.vehicleBasePrice
      && forall i :: 0 <= i < |c.selectedOptions| ==> c.selectedOptions[i].selected && c.selectedOptions[i] in options
  {
    var c := FinalSubmit(trip, vehicle, vehiclePrice, options, info, distance).value;
    forall i | 0 <= i < |c.selectedOptions|
      ensures c.selectedOptions[i].selected && c.selectedOptions[i] in options
    {
      assert c.selectedOptions[i] in c.selectedOptions;
    }
  }

  // ---------------------------------------------------------------------
  // Worked examples (amounts in cents)

  const SampleSedan := Vehicle("sedan", "Berline", 4, 3, "", 2000, 4000, 200, 1500, "")

  /** 12 km: 24.00 for the distance, 44.00 in all; the floor does not bind. */
  lemma ExampleFloorNotReached()
    ensures PointToPointFare(SampleSedan, 12) == CalculatedPrice(2000, 2400, 4400)
  {
  }

  /** 5 km: 30.00 before the floor, 40.00 charged. */
  lemma ExampleFloorReached()
    ensures PointToPointFare(SampleSedan, 5) == CalculatedPrice(2000, 1000, 4000)
  {
  }

  /** One hour: 35.00, charged below the sedan's 40.00 minimum fare. */
  lemma ExampleHourlyBelowFloor()
    ensures HourlyFare(SampleSedan, 1) == CalculatedPrice(2000, 1500, 3500)
    ensures HourlyFare(SampleSedan, 1).total < SampleSedan.minimumPrice
  {
  }

  /** A failed directions reply prices the trip at 10 km. */
  lemma ExampleRouteFailure()
    ensures ResolvedDistance(Replied(RouteFailed)) == Some(10)
  {
  }
}
