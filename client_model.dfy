/** `ClientModel`, the view of a `Client` returned to API callers. */
module ClientModels {
  import opened Wrappers
  import opened Entity

  /** A navigational link (the hypermedia part of the view). */
  datatype Link = Link(rel: string, href: string)

  /** The six copied fields plus the links the view inherits from its
      representation-model base. */
  datatype ClientModel = ClientModel(
    clientId: Option<int>,
    firstName: Option<string>,
    lastName: Option<string>,
    idNumber: Option<string>,
    mobileNumber: Option<string>,
    physicalAddress: Option<string>,
    links: seq<Link>)

  /** The constructor `ClientModel(Client)`: a field-by-field copy that adds no link. */
  function NewClientModel(c: Client): (m: ClientModel)
    ensures m.clientId == c.clientId
    ensures m.firstName == c.firstName && m.lastName == c.lastName
    ensures m.idNumber == c.idNumber && m.mobileNumber == c.mobileNumber
    ensures m.physicalAddress == c.physicalAddress
    ensures m.links == []
  {
    ClientModel(c.clientId, c.firstName, c.lastName, c.idNumber, c.mobileNumber, c.physicalAddress, [])
  }

  /** The view loses nothing: equal views come from equal entities. */
  lemma ViewDeterminesEntity(a: Client, b: Client)
    ensures NewClientModel(a) == NewClientModel(b) <==> a == b
  {
  }

  /** `stream().map(ClientModel::new).collect(toList())`: one view per entity, in order. */
  function ToModels(cs: seq<Client>): (r: seq<ClientModel>)
    ensures |r| == |cs|
    ensures forall i :: 0 <= i < |cs| ==> r[i] == NewClientModel(cs[i])
  {
    if cs == [] then [] else [NewClientModel(cs[0])] + ToModels(cs[1..])
  }
}
