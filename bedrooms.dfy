/** The bedroom store and `BedroomService`: look-up, insert, update and
    delete of bedrooms kept in a map from id to record. */
module Bedrooms {
  import opened Common

  /** A bedroom: its description, nightly value (in cents) and image link. */
  datatype Bedroom = Bedroom(description: Option<string>, value: int, imageUrl: Option<string>)

  /** The fields a request to insert or update a bedroom carries. */
  datatype BedroomDto = BedroomDto(description: Option<string>, value: int, imageUrl: Option<string>)

  class BedroomService {
    /** The bedroom table, keyed by id. */
    var bedrooms: map<nat, Bedroom>
    /** The next id the identity column hands out. */
    var nextId: nat

    ghost predicate Valid()
      reads this
    {
      forall id :: id in bedrooms ==> id < nextId
    }

    constructor ()
      ensures Valid() && bedrooms == map[] && nextId == 1
    {
      bedrooms := map[];
      nextId := 1;
    }

    /** The bedroom with the given id, or NotFound. */
    function FindById(id: nat): (r: Result<Bedroom, Error>)
      reads this
      ensures r.Success? <==> id in bedrooms
      ensures r.Success? ==> r.value == bedrooms[id]
      ensures r.Failure? ==> r.error == NotFound(BedroomKind)
    {
      if id in bedrooms then Success(bedrooms[id]) else Failure(NotFound(BedroomKind))
    }

    /** Saves a new bedroom with the description, value and image link of
        `dto`. Returns the new id and the saved record. */
    method Insert(dto: BedroomDto) returns (id: nat, saved: Bedroom)
      requires Valid()
      modifies this
      ensures Valid()
      ensures id == old(nextId) && id !in old(bedrooms) && nextId == old(nextId) + 1
      ensures saved.description == dto.description && saved.value == dto.value
      ensures saved.imageUrl == dto.imageUrl
      ensures bedrooms == old(bedrooms)[id := saved]
      ensures FindById(id) == Success(saved)
    {
      var entity := Bedroom(None, 0, None);
      entity := entity.(description := dto.description);
      entity := entity.(value := dto.value);
      entity := entity.(imageUrl := dto.imageUrl);
      id := nextId;
      bedrooms := bedrooms[id := entity];
      nextId := nextId + 1;
      saved := entity;
    }

    /** Overwrites the description, value and image link of bedroom `id`.
        A missing id is NotFound. */
    method Update(id: nat, dto: BedroomDto) returns (r: Result<Bedroom, Error>)
      requires Valid()
      modifies this
      ensures Valid() && nextId == old(nextId)
      ensures id !in old(bedrooms) ==> r == Failure(NotFound(BedroomKind)) && bedrooms == old(bedrooms)
      ensures id in old(bedrooms) ==>
        && r.Success?
        && r.value.description == dto.description && r.value.value == dto.value
        && r.value.imageUrl == dto.imageUrl
        && bedrooms == old(bedrooms)[id := r.value]
      ensures r.Success? ==> FindById(id) == r
    {
      if id !in bedrooms {
        return Failure(NotFound(BedroomKind));
      }
      var entity := bedrooms[id];
      entity := entity.(description := dto.description);
      entity := entity.(value := dto.value);
      entity := entity.(imageUrl := dto.imageUrl);
      bedrooms := bedrooms[id := entity];
      r := Success(entity);
    }

    /** Removes bedroom `id`. A missing id is NotFound; a bedroom that another
        table still references (`referenced` holds the ids the database's
        foreign keys point at) is refused with the database error. */
    method Delete(id: nat, referenced: set<nat>) returns (r: Result<(), Error>)
      requires Valid()
      modifies this
      ensures Valid() && nextId == old(nextId)
      ensures id !in old(bedrooms) ==> r == Failure(NotFound(BedroomKind)) && bedrooms == old(bedrooms)
      ensures id in old(bedrooms) && id in referenced ==>
        r == Failure(Database) && bedrooms == old(bedrooms)
      ensures id in old(bedrooms) && id !in referenced ==>
        r == Success(()) && bedrooms == old(bedrooms) - {id}
      ensures r.Success? ==> FindById(id) == Failure(NotFound(BedroomKind))
    {
      if id !in bedrooms {
        return Failure(NotFound(BedroomKind));
      }
      if id in referenced {
        return Failure(Database);
      }
      bedrooms := bedrooms - {id};
      r := Success(());
    }
  }
}
