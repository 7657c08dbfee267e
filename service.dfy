/** `ClientService`: validates requests, drives the repository and maps entities to
    views, translating store failures into the application's exceptions. */
module Service {
  import opened Wrappers
  import opened Entity
  import opened ClientModels
  import opened Exceptions
  import opened Validation
  import opened Repository

  const DuplicateMessage := "ID number or Mobile number that you have supplied already exists"
  const DatabaseMessage := "Something went wrong! Please try again later"
  const IdNullMessage := "Id cannot be null"
  const IdNotFoundMessage := "Provided id does not exist"

  /** The entity holding the five request fields under the given id. */
  function FromRequest(clientId: Option<int>, req: ClientCreateRequest): (c: Client)
    ensures c.clientId == clientId
    ensures c.firstName == req.firstName && c.lastName == req.lastName
    ensures c.idNumber == req.idNumber && c.mobileNumber == req.mobileNumber
    ensures c.physicalAddress == req.physicalAddress
  {
    Client(clientId, req.firstName, req.lastName, req.idNumber, req.mobileNumber, req.physicalAddress)
  }

  /** The views of a selection of rows (each once, ascending ids): one view per
      selected row, in that order, and nothing else. */
  lemma ViewsOfSelection(rows: map<int, Client>, cs: seq<Client>, key: Option<string>, like: (string, string) -> bool)
    requires IdsIncreasing(cs)
    requires forall c :: c in cs ==> c.clientId.Some? && c.clientId.value in rows
                                     && c == rows[c.clientId.value] && KeyMatches(c, key, like)
    requires forall id :: id in rows && KeyMatches(rows[id], key, like) ==> rows[id] in cs
    ensures var r := ToModels(cs);
            forall i, j :: 0 <= i < j < |r| ==>
              r[i].clientId.Some? && r[j].clientId.Some? && r[i].clientId.value < r[j].clientId.value
    ensures var r := ToModels(cs);
            forall id :: id in rows ==> (NewClientModel(rows[id]) in r <==> KeyMatches(rows[id], key, like))
    ensures var r := ToModels(cs);
            forall v :: v in r ==> v.clientId.Some? && v.clientId.value in rows && v == NewClientModel(rows[v.clientId.value])
  {
    var r := ToModels(cs);
    forall i, j | 0 <= i < j < |r|
      ensures r[i].clientId.Some? && r[j].clientId.Some? && r[i].clientId.value < r[j].clientId.value
    {
      assert IdBefore(cs[i], cs[j]);
    }
    forall id | id in rows && NewClientModel(rows[id]) in r
      ensures KeyMatches(rows[id], key, like)
    {
      var i :| 0 <= i < |r| && r[i] == NewClientModel(rows[id]);
      ViewDeterminesEntity(cs[i], rows[id]);
      assert cs[i] in cs;
    }
    forall id | id in rows && KeyMatches(rows[id], key, like)
      ensures NewClientModel(rows[id]) in r
    {
      var i :| 0 <= i < |cs| && cs[i] == rows[id];
      assert r[i] == NewClientModel(rows[id]);
    }
    forall v | v in r
      ensures v.clientId.Some? && v.clientId.value in rows && v == NewClientModel(rows[v.clientId.value])
    {
      var i :| 0 <= i < |r| && r[i] == v;
      assert cs[i] in cs;
    }
  }

  class ClientService {
    const clientRepository: ClientRepository

    constructor (clientRepository: ClientRepository)
      ensures this.clientRepository == clientRepository
    {
      this.clientRepository := clientRepository;
    }

    /** `createClient`. An invalid request is rejected before the store is touched.
        A valid one is saved as a new row under a fresh id. Every integrity violation
        the store raises (a collision on idNumber or mobileNumber, or any other) is
        reported with the duplicate message; any other store fault as a database
        failure; both leave the store as it was. */
    method CreateClient(request: ClientCreateRequest, fault: StoreFault)
      returns (r: Result<ClientModel, GenericException>)
      requires clientRepository.Valid()
      modifies clientRepository
      ensures clientRepository.Valid()
      ensures Validate(request).Fail? ==>
                r == Failure(Validate(request).error) && unchanged(clientRepository)
      ensures Validate(request).Pass? && fault == OtherFault ==>
                r == Failure(DatabaseFailure(DatabaseMessage)) && unchanged(clientRepository)
      ensures Validate(request).Pass? && fault == ConstraintFault ==>
                r == Failure(InvalidField(DuplicateMessage)) && unchanged(clientRepository)
      ensures Validate(request).Pass? && fault == NoFault
              && CollidesWithOthers(old(clientRepository.rows), old(clientRepository.nextId), FromRequest(None, request)) ==>
                r == Failure(InvalidField(DuplicateMessage)) && unchanged(clientRepository)
      ensures Validate(request).Pass? && fault == NoFault
              && !CollidesWithOthers(old(clientRepository.rows), old(clientRepository.nextId), FromRequest(None, request)) ==>
                var id := old(clientRepository.nextId);
                && id !in old(clientRepository.rows)
                && clientRepository.rows == old(clientRepository.rows)[id := FromRequest(Some(id), request)]
                && clientRepository.order == old(clientRepository.order) + [id]
                && clientRepository.nextId == id + 1
                && r == Success(NewClientModel(clientRepository.rows[id]))
    {
      var v := Validate(request);
      if v.Fail? {
        return Failure(v.error);
      }
      var client := FromRequest(None, request);
      var saved := clientRepository.Save(client, fault);
      match saved
      case Saved(stored) =>
        r := Success(NewClientModel(stored));
      case IntegrityViolation =>
        r := Failure(InvalidField(DuplicateMessage));
      case OtherFailure =>
        r := Failure(DatabaseFailure(DatabaseMessage));
    }

    /** `getAllClients`: one view per stored row, in the store's order. */
    method GetAllClients() returns (r: seq<ClientModel>)
      requires clientRepository.Valid()
      ensures |r| == |clientRepository.order| == |clientRepository.rows|
      ensures forall i :: 0 <= i < |r| ==> r[i] == NewClientModel(clientRepository.rows[clientRepository.order[i]])
      ensures forall id :: id in clientRepository.rows ==> NewClientModel(clientRepository.rows[id]) in r
    {
      var results := clientRepository.FindAll();
      r := ToModels(results);
      forall id | id in clientRepository.rows
        ensures NewClientModel(clientRepository.rows[id]) in r
      {
        var i :| 0 <= i < |results| && results[i] == clientRepository.rows[id];
        assert r[i] == NewClientModel(clientRepository.rows[id]);
      }
    }

    /** `getClientById`: a null id is rejected before any lookup; an unknown id is
        not found; otherwise the row's view. */
    method GetClientById(id: Option<int>) returns (r: Result<ClientModel, GenericException>)
      ensures id.None? ==> r == Failure(InvalidField(IdNullMessage))
      ensures id.Some? && id.value !in clientRepository.rows ==> r == Failure(NotFound(IdNotFoundMessage))
      ensures id.Some? && id.value in clientRepository.rows ==>
                r == Success(NewClientModel(clientRepository.rows[id.value]))
    {
      if id.None? {
        return Failure(InvalidField(IdNullMessage));
      }
      var client := clientRepository.FindById(id.value);
      if client.None? {
        return Failure(NotFound(IdNotFoundMessage));
      }
      r := Success(NewClientModel(client.value));
    }

    /** `searchForClientByKey`: the key goes to the store unchecked; the result holds
        one view per store result, in store order: the view of every row the key
        selects, once each, by ascending id, and of no other row. A null key selects
        no row. */
    method SearchForClientByKey(key: Option<string>) returns (r: seq<ClientModel>)
      requires clientRepository.Valid()
      ensures key.None? ==> r == []
      ensures r == ToModels(clientRepository.FindByKey(key))
      ensures forall i, j :: 0 <= i < j < |r| ==>
                r[i].clientId.Some? && r[j].clientId.Some? && r[i].clientId.value < r[j].clientId.value
      ensures forall id :: id in clientRepository.rows ==>
                (NewClientModel(clientRepository.rows[id]) in r
                 <==> KeyMatches(clientRepository.rows[id], key, clientRepository.like))
      ensures forall v :: v in r ==> v.clientId.Some? && v.clientId.value in clientRepository.rows
                                     && v == NewClientModel(clientRepository.rows[v.clientId.value])
    {
      var results := clientRepository.FindByKey(key);
      r := ToModels(results);
      ViewsOfSelection(clientRepository.rows, results, key, clientRepository.like);
    }

    /** `editClient`. The id checks come first (null, then unknown), then validation;
        a successful edit overwrites the five mutable fields of that row, keeps its
        clientId and touches no other row. Store failures are reported as in create
        and leave the store as it was. */
    method EditClient(id: Option<int>, request: ClientCreateRequest, fault: StoreFault)
      returns (r: Result<ClientModel, GenericException>)
      requires clientRepository.Valid()
      modifies clientRepository
      ensures clientRepository.Valid()
      ensures id.None? ==> r == Failure(InvalidField(IdNullMessage)) && unchanged(clientRepository)
      ensures id.Some? && id.value !in old(clientRepository.rows) ==>
                r == Failure(NotFound(IdNotFoundMessage)) && unchanged(clientRepository)
      ensures id.Some? && id.value in old(clientRepository.rows) && Validate(request).Fail? ==>
                r == Failure(Validate(request).error) && unchanged(clientRepository)
      ensures id.Some? && id.value in old(clientRepository.rows) && Validate(request).Pass? && fault == OtherFault ==>
                r == Failure(DatabaseFailure(DatabaseMessage)) && unchanged(clientRepository)
      ensures id.Some? && id.value in old(clientRepository.rows) && Validate(request).Pass? && fault == ConstraintFault ==>
                r == Failure(InvalidField(DuplicateMessage)) && unchanged(clientRepository)
      ensures id.Some? && id.value in old(clientRepository.rows) && Validate(request).Pass? && fault == NoFault
              && CollidesWithOthers(old(clientRepository.rows), id.value, FromRequest(id, request)) ==>
                r == Failure(InvalidField(DuplicateMessage)) && unchanged(clientRepository)
      ensures id.Some? && id.value in old(clientRepository.rows) && Validate(request).Pass? && fault == NoFault
              && !CollidesWithOthers(old(clientRepository.rows), id.value, FromRequest(id, request)) ==>
                && clientRepository.rows == old(clientRepository.rows)[id.value := FromRequest(id, request)]
                && clientRepository.order == old(clientRepository.order)
                && clientRepository.nextId == old(clientRepository.nextId)
                && r == Success(NewClientModel(FromRequest(id, request)))
    {
      if id.None? {
        return Failure(InvalidField(IdNullMessage));
      }
      var found := clientRepository.FindById(id.value);
      if found.None? {
        return Failure(NotFound(IdNotFoundMessage));
      }
      var v := Validate(request);
      if v.Fail? {
        return Failure(v.error);
      }
      var client := found.value;
      client := client.(firstName := request.firstName);
      client := client.(lastName := request.lastName);
      client := client.(idNumber := request.idNumber);
      client := client.(mobileNumber := request.mobileNumber);
      client := client.(physicalAddress := request.physicalAddress);
      assert client == FromRequest(id, request);
      var saved := clientRepository.Save(client, fault);
      match saved
      case Saved(stored) =>
        r := Success(NewClientModel(stored));
      case IntegrityViolation =>
        r := Failure(InvalidField(DuplicateMessage));
      case OtherFailure =>
        r := Failure(DatabaseFailure(DatabaseMessage));
    }
  }
}
