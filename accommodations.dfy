/** The accommodation store and `AccommodationService`: look-up, insert,
    update and delete of accommodations kept in a map from id to record.
    An accommodation here is the booking entity of that service: a client,
    a bedroom and a stay, with no check of dates or overlap; only the
    database's foreign keys on the client and the bedroom refuse a row. */
module Accommodations {
  import opened Common

  /** An accommodation: the client (by id), the bedroom (by id) and the
      check-in and check-out instants. */
  datatype Accommodation = Accommodation(clientId: nat, bedroomId: nat, checkIn: int, checkOut: int)

  /** The fields a request to insert or update an accommodation carries. */
  datatype AccommodationDto = AccommodationDto(clientId: nat, bedroomId: nat, checkIn: int, checkOut: int)

  class AccommodationService {
    /** The accommodation table, keyed by id. */
    var accommodations: map<nat, Accommodation>
    /** The next id the identity column hands out. */
    var nextId: nat

    ghost predicate Valid()
      reads this
    {
      forall id :: id in accommodations ==> id < nextId
    }

    constructor ()
      ensures Valid() && accommodations == map[] && nextId == 1
    {
      accommodations := map[];
      nextId := 1;
    }

    /** The accommodation with the given id, or NotFound. */
    function FindById(id: nat): (r: Result<Accommodation, Error>)
      reads this
      ensures r.Success? <==> id in accommodations
      ensures r.Success? ==> r.value == accommodations[id]
      ensures r.Failure? ==> r.error == NotFound(AccommodationKind)
    {
      if id in accommodations then Success(accommodations[id]) else Failure(NotFound(AccommodationKind))
    }

    /** Saves a new accommodation built from the client, bedroom, check-in and
        check-out of `dto`. The service itself checks nothing (no date order,
        no overlap), but the client and bedroom columns are non-null foreign
        keys: when `dto` names a client outside `clientIds` or a bedroom
        outside `bedroomIds` (the ids stored in those tables) the database
        refuses the row, the raw integrity violation reaches the caller and
        nothing is stored. Otherwise returns the new id and the saved record. */
    method Insert(dto: AccommodationDto, clientIds: set<nat>, bedroomIds: set<nat>)
      returns (r: Result<(nat, Accommodation), Error>)
      requires Valid()
      modifies this
      ensures Valid()
      ensures dto.clientId !in clientIds || dto.bedroomId !in bedroomIds ==>
        r == Failure(IntegrityViolation) && accommodations == old(accommodations) && nextId == old(nextId)
      ensures dto.clientId in clientIds && dto.bedroomId in bedroomIds ==>
        && r.Success?
        && r.value.0 == old(nextId) && r.value.0 !in old(accommodations) && nextId == old(nextId) + 1
        && r.value.1 == Accommodation(dto.clientId, dto.bedroomId, dto.checkIn, dto.checkOut)
        && accommodations == old(accommodations)[r.value.0 := r.value.1]
      ensures r.Success? ==> FindById(r.value.0) == Success(r.value.1)
    {
      var entity := Accommodation(dto.clientId, dto.bedroomId, dto.checkIn, dto.checkOut);
      if dto.clientId !in clientIds || dto.bedroomId !in bedroomIds {
        return Failure(IntegrityViolation);
      }
      var id := nextId;
      accommodations := accommodations[id := entity];
      nextId := nextId + 1;
      r := Success((id, entity));
    }

    /** Overwrites the client, bedroom, check-in and check-out of
        accommodation `id`. A missing id is NotFound (the lazy reference fails
        at the first setter); a client outside `clientIds` or a bedroom
        outside `bedroomIds` is then refused by the foreign keys when the row
        is saved, with the raw integrity violation and no change. */
    method Update(id: nat, dto: AccommodationDto, clientIds: set<nat>, bedroomIds: set<nat>)
      returns (r: Result<Accommodation, Error>)
      requires Valid()
      modifies this
      ensures Valid() && nextId == old(nextId)
      ensures id !in old(accommodations) ==>
        r == Failure(NotFound(AccommodationKind)) && accommodations == old(accommodations)
      ensures id in old(accommodations) && (dto.clientId !in clientIds || dto.bedroomId !in bedroomIds) ==>
        r == Failure(IntegrityViolation) && accommodations == old(accommodations)
      ensures id in old(accommodations) && dto.clientId in clientIds && dto.bedroomId in bedroomIds ==>
        && r.Success?
        && r.value.clientId == dto.clientId && r.value.bedroomId == dto.bedroomId
        && r.value.checkIn == dto.checkIn && r.value.checkOut == dto.checkOut
        && accommodations == old(accommodations)[id := r.value]
      ensures r.Success? ==> FindById(id) == r
    {
      if id !in accommodations {
        return Failure(NotFound(AccommodationKind));
      }
      var entity := accommodations[id];
      entity := entity.(clientId := dto.clientId);
      entity := entity.(bedroomId := dto.bedroomId);
      entity := entity.(checkIn := dto.checkIn);
      entity := entity.(checkOut := dto.checkOut);
      if dto.clientId !in clientIds || dto.bedroomId !in bedroomIds {
        return Failure(IntegrityViolation);
      }
      accommodations := accommodations[id := entity];
      r := Success(entity);
    }

    /** Removes accommodation `id`. A missing id is NotFound. The service does
        not catch a foreign-key failure: when another table still references
        the row (`referenced` holds those ids) the raw integrity violation
        reaches the caller and nothing is removed. */
    method Delete(id: nat, referenced: set<nat>) returns (r: Result<(), Error>)
      requires Valid()
      modifies this
      ensures Valid() && nextId == old(nextId)
      ensures id !in old(accommodations) ==>
        r == Failure(NotFound(AccommodationKind)) && accommodations == old(accommodations)
      ensures id in old(accommodations) && id in referenced ==>
        r == Failure(IntegrityViolation) && accommodations == old(accommodations)
      ensures id in old(accommodations) && id !in referenced ==>
        r == Success(()) && accommodations == old(accommodations) - {id}
      ensures r.Success? ==> FindById(id) == Failure(NotFound(AccommodationKind))
    {
      if id !in accommodations {
        return Failure(NotFound(AccommodationKind));
      }
      if id in referenced {
        return Failure(IntegrityViolation);
      }
      accommodations := accommodations - {id};
      r := Success(());
    }
  }
}
