# Client management service, modelled in Dafny

A model of the core of a small client-records REST service: the service layer that
validates create and edit requests, drives the client table and maps stored clients
to their views, and the controller advice that turns the service's exceptions into an
HTTP status and an error body.

- `wrappers.dfy` (`Wrappers`): `Option` (Java's `null` is `None`), `Result` (a thrown
  exception is `Failure`), `Outcome`.
- `entity.dfy` (`Entity`): the `Client` row and the table's unique constraints on
  `idNumber` and `mobileNumber`, with SQL semantics (NULLs never collide).
- `client_model.dfy` (`ClientModels`): the `ClientModel` view, its constructor (a field
  copy with no links) and the stream map that turns a list of clients into views.
- `exceptions.dfy` (`Exceptions`): the three `GenericException` subclasses as the
  constructors of one datatype, each with a message, an optional error code and an
  optional cause chain.
- `validation.dfy` (`Validation`): the request shape and the seven ordered guards.
  `isBlank` follows `Character.isWhitespace`; `matches("\\d+")` is a matcher for the
  regular expression `\d\d*` over ASCII digits, proved equal to "one or more ASCII
  digits".
- `repository.dfy` (`Repository`): the table as a class: a map from generated id to
  row, the ids in insertion order (what `findAll` returns), and the identity counter.
  `save` updates the row named by the entity's id when that row exists and otherwise
  inserts under a fresh id. It fails with `IntegrityViolation` when another row
  shares a unique column or when the database rejects the row for another integrity
  reason, and with `OtherFailure` on any other store fault. The class invariant `Valid()`
  includes uniqueness, and `save` preserves it.
- `service.dfy` (`Service`): `ClientService` with `CreateClient`, `GetAllClients`,
  `GetClientById`, `SearchForClientByKey` and `EditClient`.
- `controller_advice.dfy` (`ControllerAdvice`): the handlers for InvalidField (400,
  VALIDATION_ERROR) and NotFound (404, NOT_FOUND_ERROR), and the cause-chain rule
  that picks the message.
- `scenarios.dfy` (`Scenarios`): call sequences (create then fetch, create twice) and
  what the contracts guarantee for them.

Environment inputs become parameters. What the database does on a given `save`
beyond the unique constraints is the `fault` argument (`NoFault`, `ConstraintFault`
or `OtherFault`) of `Save`, `CreateClient` and `EditClient`. The database's `LIKE`
semantics are the repository's constant `like`.

Two behaviours of the program are worth stating plainly:
- No handler is registered for `DatabaseException`. `Handle` therefore returns `None`
  for it, and the framework's default response is outside the model.
- The message the advice exposes is that of the cause's own cause (the second link
  of the chain), not that of the root cause.

## Model

| member | source | states |
|---|---|---|
| `Validation.Validate` | src/main/java/com/assessment/ClientManagementSystem/api/service/ClientService.java:98-126 | passes exactly when both names are present and not blank, idNumber is 13 ASCII digits and mobileNumber is one or more ASCII digits; otherwise yields one InvalidFieldException carrying one of the seven guard messages |
| `Validation.ReportsFirstViolatedGuard` | src/main/java/com/assessment/ClientManagementSystem/api/service/ClientService.java:98-126 | when guard k is the first that fails (order: firstName, lastName, idNumber presence, digits, length, mobileNumber presence, digits), the error carries guard k's message; every failure has such a first failing guard |
| `Validation.ValidIffAllGuardsHold` | src/main/java/com/assessment/ClientManagementSystem/api/service/ClientService.java:98-126 | a request is valid exactly when all seven guards hold |
| `Validation.DigitsRegex` | src/main/java/com/assessment/ClientManagementSystem/api/service/ClientService.java:111-113 | `\d+` matches a whole string exactly when it is non-empty and all ASCII digits |
| `Validation.AddressIsNotChecked` | src/main/java/com/assessment/ClientManagementSystem/api/service/ClientService.java:98-126 | changing physicalAddress never changes the validation outcome |
| `Validation.MobileHasNoLengthBound` | src/main/java/com/assessment/ClientManagementSystem/api/service/ClientService.java:119-125 | any non-empty digit string is accepted as mobileNumber in an otherwise valid request |
| `Validation.AlphaReportedBeforeLength` | src/main/java/com/assessment/ClientManagementSystem/api/service/ClientService.java:111-117 | "111111111111A" gives the alphanumeric message, not the length message |
| `Validation.ShortIdNumberReportedAsLength` | src/main/java/com/assessment/ClientManagementSystem/api/service/ClientService.java:115-117 | a 12-digit idNumber gives the length message |
| `Validation.DefaultRequestIsValid` | src/test/java/com/assessment/ClientManagementSystem/api/service/ClientServiceTest.java:406-414 | the request {John, Snow, 1111111111111, 000000, Home} passes validation |
| `Service.FromRequest` | src/main/java/com/assessment/ClientManagementSystem/api/service/ClientService.java:27-32 | the entity built for a request carries the five request fields and the given id (none on create) |
| `Service.ClientService.constructor` | src/main/java/com/assessment/ClientManagementSystem/api/service/ClientService.java:21-23 | the service holds the repository it is given |
| `Service.ClientService.CreateClient` | src/main/java/com/assessment/ClientManagementSystem/api/service/ClientService.java:25-42 | an invalid request fails with its validation error and leaves the store unchanged; a store fault other than an integrity violation gives DatabaseException "Something went wrong! Please try again later"; every integrity violation (a collision on idNumber or mobileNumber, or any other) gives InvalidField "ID number or Mobile number that you have supplied already exists"; both leave the store unchanged; otherwise exactly one row is added under the fresh id, holding the five request fields, all other rows untouched, the counter advances, and the returned view equals the stored row |
| `Service.ClientService.GetAllClients` | src/main/java/com/assessment/ClientManagementSystem/api/service/ClientService.java:46-51 | one view per stored row, in store order, and every stored row's view is present; the store is not changed |
| `Service.ClientService.GetClientById` | src/main/java/com/assessment/ClientManagementSystem/api/service/ClientService.java:53-62 | a null id gives InvalidField "Id cannot be null"; an unknown id gives NotFound "Provided id does not exist"; otherwise the row's view |
| `Service.ClientService.SearchForClientByKey` | src/main/java/com/assessment/ClientManagementSystem/api/service/ClientService.java:64-69 | a null key gives the empty list; otherwise the result is the views of the store results, one per result in store order: each selected row's view once, by ascending id, and no other row's view; the store is not changed |
| `Service.ClientService.EditClient` | src/main/java/com/assessment/ClientManagementSystem/api/service/ClientService.java:71-96 | null id, then unknown id, then validation are checked in that order, each failing with its own error and leaving the store unchanged (so an unknown id with an invalid request reports NotFound); store failures (integrity violation, including a collision with another row, or any other fault) are reported as in create and leave the store unchanged; otherwise only that row changes, to the five request fields under the same clientId |
| `Repository.ClientRepository.Save` | src/main/java/com/assessment/ClientManagementSystem/api/repository/entity/Client.java:12-20 | keeps the table invariant (ids assigned by the store, idNumber and mobileNumber unique); another fault, an integrity rejection or a collision with another row leaves the table unchanged; otherwise writes the entity under its existing id or under the next fresh id, with that id as clientId |
| `Repository.ClientRepository.FindById` | src/main/java/com/assessment/ClientManagementSystem/api/service/ClientService.java:58-59 | finds a row exactly when the id is a key, and then returns that row |
| `Repository.ClientRepository.FindAll` | src/main/java/com/assessment/ClientManagementSystem/api/service/ClientService.java:47 | lists every row exactly once, in insertion order |
| `Repository.ClientRepository.FindByKey` | src/main/java/com/assessment/ClientManagementSystem/api/repository/ClientRepository.java:14-19 | returns exactly the stored rows whose firstName, mobileNumber or idNumber is LIKE the key, each once, by ascending id; a null key selects no row |
| `Repository.FilterByKey` | src/main/java/com/assessment/ClientManagementSystem/api/repository/ClientRepository.java:14-19 | keeps exactly the listed clients the key selects, and none for a null key |
| `Repository.FilterByKeyAppend` | src/main/java/com/assessment/ClientManagementSystem/api/repository/ClientRepository.java:14-19 | filtering a concatenation is the concatenation of the filtered parts, so the selected elements keep their order and their multiplicity |
| `Repository.FilterKeepsIdsIncreasing` | src/main/java/com/assessment/ClientManagementSystem/api/repository/ClientRepository.java:14-19 | a list in store order (ascending ids) filters to a list in store order |
| `Service.ViewsOfSelection` | src/main/java/com/assessment/ClientManagementSystem/api/service/ClientService.java:64-69 | the views of a selection of rows in store order are in store order, contain a row's view exactly when the row is selected, and contain only stored rows' views |
| `Repository.IncreasingCardinality` | src/main/java/com/assessment/ClientManagementSystem/api/repository/entity/Client.java:12-14 | generated ids listed in ascending order are as many as the stored rows |
| `Entity.WriteKeepsUnique` | src/main/java/com/assessment/ClientManagementSystem/api/repository/entity/Client.java:17-20 | writing a record that collides with no other row keeps idNumber and mobileNumber unique |
| `Entity.NamesAndAddressNotUnique` | src/main/java/com/assessment/ClientManagementSystem/api/repository/entity/Client.java:15-21 | two rows may share firstName, lastName and physicalAddress |
| `ClientModels.NewClientModel` | src/main/java/com/assessment/ClientManagementSystem/api/controller/model/ClientModel.java:18-25 | the view carries the entity's clientId, names, idNumber, mobileNumber and physicalAddress, and no links |
| `ClientModels.ViewDeterminesEntity` | src/main/java/com/assessment/ClientManagementSystem/api/controller/model/ClientModel.java:18-25 | two views are equal exactly when their entities are equal (the copy loses nothing) |
| `ClientModels.ToModels` | src/main/java/com/assessment/ClientManagementSystem/api/service/ClientService.java:48-50 | one view per entity, at the same position |
| `ControllerAdvice.HasUnderlyingCause` | src/main/java/com/assessment/ClientManagementSystem/api/controller/GenericControllerAdvice.java:54-56 | true exactly when the cause chain starting at the argument has at least two links |
| `ControllerAdvice.ExposedMessage` | src/main/java/com/assessment/ClientManagementSystem/api/controller/GenericControllerAdvice.java:30-36 | the message of the cause's cause when there is one, else the exception's own |
| `ControllerAdvice.ValidationErrors` | src/main/java/com/assessment/ClientManagementSystem/api/controller/GenericControllerAdvice.java:23-37 | status 400, type VALIDATION_ERROR, code the exception's errorCode, the exposed message, null details |
| `ControllerAdvice.HandleNotFoundError` | src/main/java/com/assessment/ClientManagementSystem/api/controller/GenericControllerAdvice.java:39-52 | status 404, type NOT_FOUND_ERROR, code the exception's errorCode, the exposed message, null details |
| `ControllerAdvice.Handle` | src/main/java/com/assessment/ClientManagementSystem/api/controller/GenericControllerAdvice.java:18-52 | an InvalidFieldException gets exactly the `ValidationErrors` response (400) and a NotFoundException exactly the `HandleNotFoundError` response (404); DatabaseException has no handler |
| `ControllerAdvice.CauselessShowsOwnMessage` | src/main/java/com/assessment/ClientManagementSystem/api/controller/GenericControllerAdvice.java:33-36 | an exception without a cause (all the service raises) shows its own message and code |
| `ControllerAdvice.ExposesSecondCauseNotRoot` | src/main/java/com/assessment/ClientManagementSystem/api/controller/GenericControllerAdvice.java:33-34 | with a three-deep cause chain the middle message is exposed, not the root's |
| `Scenarios.CreateThenFetch` | src/main/java/com/assessment/ClientManagementSystem/api/service/ClientService.java:25-62 | fetching a freshly created client by its returned id yields the view create returned, holding the request's five fields |
| `Scenarios.CreateTwice` | src/main/java/com/assessment/ClientManagementSystem/api/service/ClientService.java:34-38 | creating the same valid request twice: the second is rejected with the duplicate message, and the store is the old one plus exactly the first create's row under the old counter value |

## Left out
- Repository.ClientRepository.FindAll: its order is fixed to insertion order (ascending id under the identity counter); the database promises no order for an unsorted `findAll`, so the positional promises of `GetAllClients`, `FindByKey` and `SearchForClientByKey` rest on this choice.
- Repository.ClientRepository.FindById, Repository.ClientRepository.FindAll, Repository.ClientRepository.FindByKey: the reads never fail in the model. In the program they sit outside the service's try blocks, so a store exception raised by a read reaches the caller unconverted; that path is not modelled.
- HTTP routing, JSON binding, the 201 status of create and dependency injection: the controller only delegates to the service.
- The self links that the controller attaches to list and search results: they are built with a hypermedia library that is not part of this model. Views leave the constructor with no links.
- SQL `LIKE` matching: it is the repository's abstract `like` relation, and the model does not say which keys match which values.
- Transactions, flushing, and the internals of identity generation. The identity counter is an unbounded integer, so the 32-bit range of `Integer` ids is not modelled.
- Detached versus managed entities: `createClient` reads the generated id from the entity that JPA filled in, and the model reads it from the row that `Save` returns. `editClient` changes the fetched entity before `save`; the model treats that entity as a copy, so a failed save leaves the table as it was.
- A null request object: validation would dereference it and fail with a NullPointerException. The HTTP layer always binds a request body, so the model's requests are never null; their fields may be.
- The `DataIntegrityViolationException` entry of the advice's 400 handler: the handler casts its argument to `GenericException`, which that exception is not. The model's handlers take only `GenericException`s, and the service itself converts integrity violations into InvalidField.
- Concurrent creates racing on the unique columns: the database resolves them. Only the sequential case (`Scenarios.CreateTwice`) is modelled.
- The response for `DatabaseException` (the framework's default error response): the advice has no handler for it.
- `InvalidFieldException.java` is not part of this model. It is taken to have the same shape as the other two subclasses: a message and an optional error code.
- The type of `ApiError.details` is not part of this model. The advice always sets it to null, and the model gives it the type `Option<string>`.
