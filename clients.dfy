/** The client store and `ClientService`: look-up, insert, update and delete
    of clients kept in a map from id to record. */
module Clients {
  import opened Common

  datatype Role = RoleClient | RoleAdmin

  /** A client record. Every field is a nullable column. */
  datatype Client = Client(
    name: Option<string>,
    email: Option<string>,
    password: Option<string>,
    phone: Option<string>,
    address: Option<string>,
    city: Option<string>,
    role: Option<Role>)

  /** The fields a request to insert or update a client carries. */
  datatype ClientDto = ClientDto(
    name: Option<string>,
    email: Option<string>,
    password: Option<string>,
    phone: Option<string>,
    address: Option<string>,
    city: Option<string>)

  class ClientService {
    /** The client table, keyed by id. */
    var clients: map<nat, Client>
    /** The next id the identity column hands out. */
    var nextId: nat

    ghost predicate Valid()
      reads this
    {
      forall id :: id in clients ==> id < nextId
    }

    constructor ()
      ensures Valid() && clients == map[] && nextId == 1
    {
      clients := map[];
      nextId := 1;
    }

    /** The client with the given id, or NotFound. */
    function FindById(id: nat): (r: Result<Client, Error>)
      reads this
      ensures r.Success? <==> id in clients
      ensures r.Success? ==> r.value == clients[id]
      ensures r.Failure? ==> r.error == NotFound(ClientKind)
    {
      if id in clients then Success(clients[id]) else Failure(NotFound(ClientKind))
    }

    /** Saves a new client built from the name, email, password and phone of
        `dto`; its address, city and role stay unset. Returns the new id and
        the saved record. */
    method Insert(dto: ClientDto) returns (id: nat, saved: Client)
      requires Valid()
      modifies this
      ensures Valid()
      ensures id == old(nextId) && id !in old(clients) && nextId == old(nextId) + 1
      ensures saved.name == dto.name && saved.email == dto.email
      ensures saved.password == dto.password && saved.phone == dto.phone
      ensures saved.address == None && saved.city == None && saved.role == None
      ensures clients == old(clients)[id := saved]
      ensures FindById(id) == Success(saved)
    {
      var entity := Client(None, None, None, None, None, None, None);
      entity := entity.(name := dto.name);
      entity := entity.(email := dto.email);
      entity := entity.(password := dto.password);
      entity := entity.(phone := dto.phone);
      id := nextId;
      clients := clients[id := entity];
      nextId := nextId + 1;
      saved := entity;
    }

    /** Overwrites the name, email, password and phone of client `id`; its
        address, city and role are kept. A missing id is NotFound. */
    method Update(id: nat, dto: ClientDto) returns (r: Result<Client, Error>)
      requires Valid()
      modifies this
      ensures Valid() && nextId == old(nextId)
      ensures id !in old(clients) ==> r == Failure(NotFound(ClientKind)) && clients == old(clients)
      ensures id in old(clients) ==>
        && r.Success?
        && r.value.name == dto.name && r.value.email == dto.email
        && r.value.password == dto.password && r.value.phone == dto.phone
        && r.value.address == old(clients[id].address)
        && r.value.city == old(clients[id].city)
        && r.value.role == old(clients[id].role)
        && clients == old(clients)[id := r.value]
      ensures r.Success? ==> FindById(id) == r
    {
      if id !in clients {
        return Failure(NotFound(ClientKind));
      }
      var entity := clients[id];
      entity := entity.(name := dto.name);
      entity := entity.(email := dto.email);
      entity := entity.(password := dto.password);
      entity := entity.(phone := dto.phone);
      clients := clients[id := entity];
      r := Success(entity);
    }

    /** Removes client `id`. A missing id is NotFound; a client that another
        table still references (`referenced` holds the ids the database's
        foreign keys point at) is refused with the database error. */
    method Delete(id: nat, referenced: set<nat>) returns (r: Result<(), Error>)
      requires Valid()
      modifies this
      ensures Valid() && nextId == old(nextId)
      ensures id !in old(clients) ==> r == Failure(NotFound(ClientKind)) && clients == old(clients)
      ensures id in old(clients) && id in referenced ==>
        r == Failure(Database) && clients == old(clients)
      ensures id in old(clients) && id !in referenced ==>
        r == Success(()) && clients == old(clients) - {id}
      ensures r.Success? ==> FindById(id) == Failure(NotFound(ClientKind))
    {
      if id !in clients {
        return Failure(NotFound(ClientKind));
      }
      if id in referenced {
        return Failure(Database);
      }
      clients := clients - {id};
      r := Success(());
    }
  }
}
