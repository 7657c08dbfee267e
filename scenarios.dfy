/** Sequences of service calls and what the contracts above let a caller conclude. */
module Scenarios {
  import opened Wrappers
  import opened Entity
  import opened ClientModels
  import opened Exceptions
  import opened Validation
  import opened Repository
  import opened Service

  /** Round trip: a client that was created, fetched by the id it was given, yields
      the view the create returned, holding the five request fields. */
  method CreateThenFetch(service: ClientService, request: ClientCreateRequest)
    returns (created: Result<ClientModel, GenericException>, fetched: Result<ClientModel, GenericException>)
    requires service.clientRepository.Valid() && ValidRequest(request)
    requires !CollidesWithOthers(service.clientRepository.rows, service.clientRepository.nextId,
                                 FromRequest(None, request))
    modifies service.clientRepository
    ensures created.Success? && created.value.clientId.Some?
    ensures fetched == created
    ensures created.value.firstName == request.firstName && created.value.lastName == request.lastName
    ensures created.value.idNumber == request.idNumber && created.value.mobileNumber == request.mobileNumber
    ensures created.value.physicalAddress == request.physicalAddress
  {
    created := service.CreateClient(request, NoFault);
    fetched := service.GetClientById(created.value.clientId);
  }

  /** Creating the same valid request twice: the first create succeeds, the second
      collides on both unique columns and is rejected with the duplicate message,
      leaving the store as the first create left it. */
  method CreateTwice(service: ClientService, request: ClientCreateRequest)
    returns (first: Result<ClientModel, GenericException>, second: Result<ClientModel, GenericException>)
    requires service.clientRepository.Valid() && ValidRequest(request)
    requires !CollidesWithOthers(service.clientRepository.rows, service.clientRepository.nextId,
                                 FromRequest(None, request))
    modifies service.clientRepository
    ensures first.Success?
    ensures second == Failure(InvalidField(DuplicateMessage))
    ensures service.clientRepository.rows
              == old(service.clientRepository.rows)[old(service.clientRepository.nextId)
                   := FromRequest(Some(old(service.clientRepository.nextId)), request)]
    ensures |service.clientRepository.rows| == |old(service.clientRepository.rows)| + 1
  {
    first := service.CreateClient(request, NoFault);
    ghost var id := first.value.clientId.value;
    ghost var rows := service.clientRepository.rows;
    assert Collide(rows[id], FromRequest(None, request));
    assert id != service.clientRepository.nextId;
    second := service.CreateClient(request, NoFault);
  }
}
