/** The personal-data deletion route (src/app/api/delete-account/route.ts):
    the POST handler that records a deletion request for the reservations
    found by e-mail and phone, and the processing step that deletes them. */
module AccountDeletion {
  import opened Wrappers
  import Lists
  import opened ReservationRecord

  /** The body fields `email`, `phone`, `reason`; an absent field is None. */
  datatype DeletionBody = DeletionBody(email: Option<string>, phone: Option<string>, reason: Option<string>)

  datatype RequestStatus = RequestPending | RequestCompleted

  /** A document of the deletion-requests collection; timestamps are the
      store's, passed in. */
  datatype DeletionRequest = DeletionRequest(
    email: string,
    phone: Option<string>,
    reason: Option<string>,
    reservationIds: seq<string>,
    status: RequestStatus,
    createdAt: nat,
    processedAt: Option<nat>,
    processedBy: Option<string>)

  /** The route's replies. */
  datatype Response =
    | BadRequest
    | NotFound
    | Accepted(requestId: string, reservationsFound: nat)
    | ServerError

  function StatusCode(r: Response): nat
  {
    match r
    case BadRequest => 400
    case NotFound => 404
    case Accepted(_, _) => 200
    case ServerError => 500
  }

  /** The ids a reservations query returned, or a failed read. */
  datatype Snapshot = Docs(ids: seq<string>) | ReadFailed

  /** A body field is truthy when present and non-empty. */
  predicate Given(field: Option<string>)
  {
    field.Some? && field.value != ""
  }

  /** `field || null` */
  function OrNull(field: Option<string>): (r: Option<string>)
    ensures r.Some? <==> Given(field)
    ensures r.Some? ==> r == field
  {
    if Given(field) then field else None
  }

  /** The e-mail matches followed by the phone matches (these only when a
      phone was given), each id kept at its first occurrence. */
  function MatchedReservationIds(emailIds: seq<string>, phoneIds: seq<string>, phone: Option<string>): (ids: seq<string>)
    ensures Lists.NoDuplicates(ids)
    ensures forall id :: id in ids <==> id in emailIds || (Given(phone) && id in phoneIds)
  {
    Lists.Dedup(emailIds + if Given(phone) then phoneIds else [])
  }

  /** The e-mail matches (returned once each by the store) come first, in
      the store's order. */
  lemma EmailMatchesComeFirst(emailIds: seq<string>, phoneIds: seq<string>, phone: Option<string>)
    requires Lists.NoDuplicates(emailIds)
    ensures emailIds <= MatchedReservationIds(emailIds, phoneIds, phone)
  {
    var extra := if Given(phone) then phoneIds else [];
    Lists.DedupPrefix(emailIds, extra);
    Lists.DedupNoDuplicates(emailIds);
  }

  /** Both reservation queries answered: the e-mail one always, the phone
      one when a phone was given. */
  predicate ReadsSucceeded(body: DeletionBody, emailSnapshot: Snapshot, phoneSnapshot: Snapshot)
  {
    emailSnapshot.Docs? && (Given(body.phone) ==> phoneSnapshot.Docs?)
  }

  /** The unique matches of two answered queries. */
  function Matches(body: DeletionBody, emailSnapshot: Snapshot, phoneSnapshot: Snapshot): (ids: seq<string>)
    requires ReadsSucceeded(body, emailSnapshot, phoneSnapshot)
    ensures ids == [] <==> emailSnapshot.ids == [] && (Given(body.phone) ==> phoneSnapshot.ids == [])
  {
    var ids := MatchedReservationIds(emailSnapshot.ids, if Given(body.phone) then phoneSnapshot.ids else [], body.phone);
    assert emailSnapshot.ids != [] ==> emailSnapshot.ids[0] in ids;
    assert Given(body.phone) && phoneSnapshot.ids != [] ==> phoneSnapshot.ids[0] in ids;
    assert ids != [] ==> ids[0] in ids;
    ids
  }

  /** `POST`: a body without e-mail is refused before the store is read; a
      failed read or write is a server error; no match is a 404 without any
      write; otherwise the pending request is added under the id the store
      generates. Whether the confirmation e-mail went out has no effect. */
  function DeletionPost(requests: map<string, DeletionRequest>, body: DeletionBody,
                        emailSnapshot: Snapshot, phoneSnapshot: Snapshot,
                        reply: AddReply, now: nat, confirmationSent: bool)
    : (r: (Response, map<string, DeletionRequest>))
    ensures r.0 == BadRequest <==> !Given(body.email)
    ensures !Given(body.email) ==> r.1 == requests
    ensures !r.0.Accepted? ==> r.1 == requests
    ensures r.0 == NotFound <==>
      Given(body.email) && ReadsSucceeded(body, emailSnapshot, phoneSnapshot)
      && Matches(body, emailSnapshot, phoneSnapshot) == []
    ensures r.0 == ServerError <==>
      && Given(body.email)
      && (|| !ReadsSucceeded(body, emailSnapshot, phoneSnapshot)
          || (Matches(body, emailSnapshot, phoneSnapshot) != [] && reply.AddFailed?))
    ensures r.0.Accepted? <==>
      Given(body.email) && ReadsSucceeded(body, emailSnapshot, phoneSnapshot)
      && Matches(body, emailSnapshot, phoneSnapshot) != [] && reply.Added?
    ensures r.0.Accepted? ==>
      var ids := Matches(body, emailSnapshot, phoneSnapshot);
      && r.0 == Accepted(reply.id, |ids|)
      && r.1 == requests[reply.id := DeletionRequest(body.email.value, OrNull(body.phone), OrNull(body.reason),
                                                    ids, RequestPending, now, None, None)]
  {
    if !Given(body.email) then (BadRequest, requests)
    else if emailSnapshot.ReadFailed? || (Given(body.phone) && phoneSnapshot.ReadFailed?) then (ServerError, requests)
    else
      var phoneIds := if Given(body.phone) then phoneSnapshot.ids else [];
      var uniqueIds := MatchedReservationIds(emailSnapshot.ids, phoneIds, body.phone);
      if uniqueIds == [] then (NotFound, requests)
      else
        var request := DeletionRequest(body.email.value, OrNull(body.phone), OrNull(body.reason),
                                       uniqueIds, RequestPending, now, None, None);
        match reply
        case AddFailed(_) => (ServerError, requests)
        case Added(id) => (Accepted(id, |uniqueIds|), requests[id := request])
  }

  /** The HTTP status of each reply: 400 exactly without e-mail, 404
      exactly when the answered queries match nothing, 200 exactly when a
      match was recorded, and 500 for a failed read or write. */
  lemma DeletionPostStatus(requests: map<string, DeletionRequest>, body: DeletionBody,
                           emailSnapshot: Snapshot, phoneSnapshot: Snapshot, reply: AddReply, now: nat, sent: bool)
    ensures var code := StatusCode(DeletionPost(requests, body, emailSnapshot, phoneSnapshot, reply, now, sent).0);
      && (code == 400 <==> !Given(body.email))
      && (code == 404 <==> Given(body.email) && ReadsSucceeded(body, emailSnapshot, phoneSnapshot)
                           && Matches(body, emailSnapshot, phoneSnapshot) == [])
      && (code == 200 <==> Given(body.email) && ReadsSucceeded(body, emailSnapshot, phoneSnapshot)
                           && Matches(body, emailSnapshot, phoneSnapshot) != [] && reply.Added?)
      && (code == 500 <==> Given(body.email)
                           && (|| !ReadsSucceeded(body, emailSnapshot, phoneSnapshot)
                               || (Matches(body, emailSnapshot, phoneSnapshot) != [] && reply.AddFailed?)))
  {
  }

  /** A failed confirmation e-mail changes neither the reply nor the store. */
  lemma ConfirmationFailureIsSwallowed(requests: map<string, DeletionRequest>, body: DeletionBody,
                                       emailSnapshot: Snapshot, phoneSnapshot: Snapshot, reply: AddReply, now: nat)
    ensures DeletionPost(requests, body, emailSnapshot, phoneSnapshot, reply, now, false)
         == DeletionPost(requests, body, emailSnapshot, phoneSnapshot, reply, now, true)
  {
  }

  /** Without a phone the phone query is not issued: its answer is never used. */
  lemma PhoneQueryOnlyWithPhone(requests: map<string, DeletionRequest>, body: DeletionBody, emailSnapshot: Snapshot,
                                phone1: Snapshot, phone2: Snapshot, reply: AddReply, now: nat, sent: bool)
    requires !Given(body.phone)
    ensures DeletionPost(requests, body, emailSnapshot, phone1, reply, now, sent)
         == DeletionPost(requests, body, emailSnapshot, phone2, reply, now, sent)
  {
  }

  /** The snapshot lists, once each, exactly the reservations whose guest
      field `get` equals `value`. */
  ghost predicate Answers(reservations: map<string, ReservationDoc>, snapshot: Snapshot, value: string, byPhone: bool)
  {
    && snapshot.Docs?
    && Lists.NoDuplicates(snapshot.ids)
    && forall id :: id in snapshot.ids <==>
         id in reservations && (if byPhone then reservations[id].guestInfo.phone else reservations[id].guestInfo.email) == value
  }

  /** The reservations a request is about: same e-mail, or same phone when
      one was given. */
  predicate Concerns(doc: ReservationDoc, body: DeletionBody)
    requires Given(body.email)
  {
    doc.guestInfo.email == body.email.value || (Given(body.phone) && doc.guestInfo.phone == body.phone.value)
  }

  /** Against faithful query answers, the matches are the customer's
      reservations, once each, e-mail matches first. */
  lemma MatchesAreCustomerReservations(reservations: map<string, ReservationDoc>, body: DeletionBody,
                                       emailSnapshot: Snapshot, phoneSnapshot: Snapshot)
    requires Given(body.email)
    requires Answers(reservations, emailSnapshot, body.email.value, false)
    requires Given(body.phone) ==> Answers(reservations, phoneSnapshot, body.phone.value, true)
    ensures ReadsSucceeded(body, emailSnapshot, phoneSnapshot)
    ensures var ids := Matches(body, emailSnapshot, phoneSnapshot);
      && Lists.NoDuplicates(ids)
      && emailSnapshot.ids <= ids
      && (forall id :: id in ids <==> id in reservations && Concerns(reservations[id], body))
      && (ids == [] <==> forall id :: id in reservations ==> !Concerns(reservations[id], body))
  {
    var phoneIds := if Given(body.phone) then phoneSnapshot.ids else [];
    var ids := Matches(body, emailSnapshot, phoneSnapshot);
    EmailMatchesComeFirst(emailSnapshot.ids, phoneIds, body.phone);
    if ids != [] {
      assert ids[0] in ids;
    } else {
      forall id | id in reservations ensures !Concerns(reservations[id], body) {
        assert id !in ids;
      }
    }
  }

  /** Against faithful query answers, the request lists every reservation
      the customer has, exactly once, and a 404 means there is none. */
  lemma RequestCoversCustomerReservations(reservations: map<string, ReservationDoc>, requests: map<string, DeletionRequest>,
                                          body: DeletionBody, emailSnapshot: Snapshot, phoneSnapshot: Snapshot,
                                          reply: AddReply, now: nat, sent: bool)
    requires Given(body.email)
    requires Answers(reservations, emailSnapshot, body.email.value, false)
    requires Given(body.phone) ==> Answers(reservations, phoneSnapshot, body.phone.value, true)
    ensures var (response, after) := DeletionPost(requests, body, emailSnapshot, phoneSnapshot, reply, now, sent);
      && (response == NotFound <==> forall id :: id in reservations ==> !Concerns(reservations[id], body))
      && (response.Accepted? ==>
            && Lists.NoDuplicates(after[response.requestId].reservationIds)
            && emailSnapshot.ids <= after[response.requestId].reservationIds
            && forall id :: id in after[response.requestId].reservationIds <==>
                 id in reservations && Concerns(reservations[id], body))
  {
    MatchesAreCustomerReservations(reservations, body, emailSnapshot, phoneSnapshot);
  }

  /** Processing an accepted request (the reservations minus its listed ids,
      as ProcessDeletionRequest leaves them) removes every reservation of the
      customer and keeps every other one untouched. */
  lemma ProcessingErasesCustomer(reservations: map<string, ReservationDoc>, requests: map<string, DeletionRequest>,
                                 body: DeletionBody, emailSnapshot: Snapshot, phoneSnapshot: Snapshot,
                                 reply: AddReply, now: nat, sent: bool)
    requires Given(body.email)
    requires Answers(reservations, emailSnapshot, body.email.value, false)
    requires Given(body.phone) ==> Answers(reservations, phoneSnapshot, body.phone.value, true)
    ensures var (response, after) := DeletionPost(requests, body, emailSnapshot, phoneSnapshot, reply, now, sent);
      response.Accepted? ==>
        var remaining := reservations - Members(after[response.requestId].reservationIds);
        && (forall id :: id in remaining ==> !Concerns(remaining[id], body))
        && (forall id :: id in reservations && !Concerns(reservations[id], body) ==>
              id in remaining && remaining[id] == reservations[id])
  {
    RequestCoversCustomerReservations(reservations, requests, body, emailSnapshot, phoneSnapshot, reply, now, sent);
  }

  /** The ids listed in `s`, as a set. */
  function Members(s: seq<string>): set<string>
  {
    set id | id in s
  }

  /** The store's two collections; `processDeletionRequest` updates them in
      place. */
  class Database {
    var reservations: map<string, ReservationDoc>
    var deletionRequests: map<string, DeletionRequest>

    constructor (reservations: map<string, ReservationDoc>, deletionRequests: map<string, DeletionRequest>)
      ensures this.reservations == reservations && this.deletionRequests == deletionRequests
    {
      this.reservations := reservations;
      this.deletionRequests := deletionRequests;
    }

    /** The error thrown for an unknown request id. */
    static const RequestNotFound := "Demande de suppression non trouvée"

    /** `processDeletionRequest(requestId)`: an unknown request throws and
        changes nothing; otherwise each listed reservation is deleted and the
        request is marked completed by "system". The count returned is the
        number of listed ids. */
    method ProcessDeletionRequest(requestId: string, now: nat) returns (result: Result<nat, string>)
      modifies this
      ensures requestId !in old(deletionRequests) ==>
        result == Err(RequestNotFound) && reservations == old(reservations) && deletionRequests == old(deletionRequests)
      ensures requestId in old(deletionRequests) ==>
        var request := old(deletionRequests)[requestId];
        && result == Ok(|request.reservationIds|)
        && reservations == old(reservations) - Members(request.reservationIds)
        && deletionRequests == old(deletionRequests)[requestId :=
             request.(status := RequestCompleted, processedAt := Some(now), processedBy := Some("system"))]
    {
      if requestId !in deletionRequests {
        return Err(RequestNotFound);
      }
      var requestData := deletionRequests[requestId];
      var reservationIds := requestData.reservationIds;
      var i := 0;
      while i < |reservationIds|
        invariant 0 <= i <= |reservationIds|
        invariant deletionRequests == old(deletionRequests)
        invariant reservations == old(reservations) - Members(reservationIds[..i])
      {
        assert Members(reservationIds[..i + 1]) == Members(reservationIds[..i]) + {reservationIds[i]} by {
          assert reservationIds[..i + 1] == reservationIds[..i] + [reservationIds[i]];
        }
        reservations := reservations - {reservationIds[i]};
        i := i + 1;
      }
      assert reservationIds[..i] == reservationIds;
      deletionRequests := deletionRequests[requestId :=
        requestData.(status := RequestCompleted, processedAt := Some(now), processedBy := Some("system"))];
      result := Ok(|reservationIds|);
    }
  }
}
