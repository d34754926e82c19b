/** The reservation document written once payment is settled
    (src/lib/save-reservation.ts), over a reservations collection modelled
    as a map from document id to document. */
module ReservationRecord {
  import opened Wrappers
  import opened TripForm
  import opened Booking

  datatype PaymentMethod = Stripe | PayPal | Cash

  datatype PaymentStatus = PaymentPending | PaymentCompleted

  /** The lifecycle status every new reservation is written with. */
  const NewReservationStatus := "pending"

  datatype GuestInfo = GuestInfo(
    firstName: string,
    lastName: string,
    email: string,
    phone: string,
    passengers: string,
    flightNumber: string)

  /** The stored document; `createdAt` is the store's timestamp, passed in. */
  datatype ReservationDoc = ReservationDoc(
    tripType: TripType,
    departure: string,
    destination: string,
    waypoints: seq<string>,
    date: string,
    duration: Option<string>,
    distance: Option<nat>,
    distanceValue: nat,
    selectedVehicle: string,
    selectedOptions: seq<string>,
    guestInfo: GuestInfo,
    paymentMethod: PaymentMethod,
    paymentId: string,
    paymentStatus: PaymentStatus,
    totalPrice: Cents,
    status: string,
    createdAt: nat)

  /** `text || null` for a string field. */
  function StringOrNull(s: string): (r: Option<string>)
    ensures r.None? <==> s == ""
    ensures r.Some? ==> r.value == s
  {
    if s == "" then None else Some(s)
  }

  /** `distance || null`: a missing or zero distance is stored as null. */
  function DistanceOrNull(d: Option<nat>): (r: Option<nat>)
    ensures r.None? <==> d.None? || d.value == 0
    ensures r.Some? ==> r == d
  {
    if d.Some? && d.value != 0 then d else None
  }

  /** `distance || 0` */
  function DistanceOrZero(d: Option<nat>): (r: nat)
    ensures d.Some? ==> r == d.value
    ensures d.None? ==> r == 0
  {
    if d.Some? then d.value else 0
  }

  /** `selectedOptions.map((opt) => opt.id)` */
  function OptionIds(options: seq<AdditionalOption>): (ids: seq<string>)
    ensures |ids| == |options|
    ensures forall i :: 0 <= i < |ids| ==> ids[i] == options[i].id
  {
    seq(|options|, i requires 0 <= i < |options| => options[i].id)
  }

  function PaymentStatusFor(payment: PaymentMethod): (s: PaymentStatus)
    ensures s == PaymentPending <==> payment == Cash
  {
    if payment == Cash then PaymentPending else PaymentCompleted
  }

  /** The `reservationDoc` literal. */
  function ReservationDocFor(data: CompleteReservation, payment: PaymentMethod, paymentId: string, createdAt: nat): (doc: ReservationDoc)
    ensures doc.tripType == data.trip.tripType && doc.departure == data.trip.departure
    ensures doc.destination == data.trip.destination && doc.waypoints == data.trip.waypoints
    ensures doc.date == data.trip.date && doc.totalPrice == data.totalPrice
    ensures doc.duration == StringOrNull(data.trip.duration)
    ensures doc.distance == DistanceOrNull(data.distance) && doc.distanceValue == DistanceOrZero(data.distance)
    ensures doc.selectedVehicle == data.selectedVehicle.id
    ensures doc.selectedOptions == OptionIds(data.selectedOptions)
    ensures doc.guestInfo == GuestInfo(data.personalInfo.firstName, data.personalInfo.lastName,
      data.personalInfo.email, data.personalInfo.phone, data.trip.passengers, data.personalInfo.flightNumber)
    ensures doc.paymentMethod == payment && doc.paymentId == paymentId
    ensures doc.paymentStatus == PaymentPending <==> payment == Cash
    ensures doc.status == NewReservationStatus
  {
    ReservationDoc(
      data.trip.tripType,
      data.trip.departure,
      data.trip.destination,
      data.trip.waypoints,
      data.trip.date,
      StringOrNull(data.trip.duration),
      DistanceOrNull(data.distance),
      DistanceOrZero(data.distance),
      data.selectedVehicle.id,
      OptionIds(data.selectedOptions),
      GuestInfo(
        data.personalInfo.firstName,
        data.personalInfo.lastName,
        data.personalInfo.email,
        data.personalInfo.phone,
        data.trip.passengers,
        StringFallback(data.personalInfo.flightNumber, "")),
      payment,
      paymentId,
      PaymentStatusFor(payment),
      data.totalPrice,
      NewReservationStatus,
      createdAt)
  }

  /** `text || fallback` for a string field. */
  function StringFallback(s: string, fallback: string): (r: string)
    ensures s != "" ==> r == s
    ensures s == "" ==> r == fallback
  {
    if s == "" then fallback else s
  }

  /** The two distance fields of a stored document agree: `distance` is null
      exactly when `distanceValue` is 0, and holds it otherwise. */
  lemma DistanceFieldsAgree(data: CompleteReservation, payment: PaymentMethod, paymentId: string, createdAt: nat)
    ensures var doc := ReservationDocFor(data, payment, paymentId, createdAt);
      doc.distance == (if doc.distanceValue == 0 then None else Some(doc.distanceValue))
  {
  }

  /** The trip's time of day is not part of the document. */
  lemma DocumentIgnoresTripTime(data: CompleteReservation, time: string, payment: PaymentMethod, paymentId: string, createdAt: nat)
    ensures ReservationDocFor(data.(trip := data.trip.(time := time)), payment, paymentId, createdAt)
      == ReservationDocFor(data, payment, paymentId, createdAt)
  {
  }

  /** The answer of `addDoc`: the generated id, or the store's error. */
  datatype AddReply = Added(id: string) | AddFailed(error: string)

  /** `saveReservationToFirestore`: on success the collection gains the
      document under the generated id, which is returned; a store error is
      rethrown unchanged and nothing is written. */
  function SaveReservation(reservations: map<string, ReservationDoc>, data: CompleteReservation,
                           payment: PaymentMethod, paymentId: string, createdAt: nat, reply: AddReply)
    : (r: Result<(string, map<string, ReservationDoc>), string>)
    ensures r.Ok? <==> reply.Added?
    ensures reply.AddFailed? ==> r == Err(reply.error)
    ensures r.Ok? ==>
      r.value.0 == reply.id && r.value.1 == reservations[reply.id := ReservationDocFor(data, payment, paymentId, createdAt)]
  {
    match reply
    case Added(id) => Ok((id, reservations[id := ReservationDocFor(data, payment, paymentId, createdAt)]))
    case AddFailed(error) => Err(error)
  }

  /** A saved booking is stored under the returned id with the customer's
      e-mail and phone, and every other document is left as it was. */
  lemma SavedReservationIsStored(reservations: map<string, ReservationDoc>, data: CompleteReservation,
                                 payment: PaymentMethod, paymentId: string, createdAt: nat, reply: AddReply)
    requires SaveReservation(reservations, data, payment, paymentId, createdAt, reply).Ok?
    ensures var (id, after) := SaveReservation(reservations, data, payment, paymentId, createdAt, reply).value;
      && id in after
      && after[id].guestInfo.email == data.personalInfo.email
      && after[id].guestInfo.phone == data.personalInfo.phone
      && after[id].status == NewReservationStatus
      && after.Keys == reservations.Keys + {id}
      && forall other :: other in reservations && other != id ==> after[other] == reservations[other]
  {
  }
}
