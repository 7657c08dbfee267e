/** The application's exceptions: one datatype whose constructors are the three
    `GenericException` subclasses, each carrying a message, an optional error code and
    an optional cause. */
module Exceptions {
  import opened Wrappers

  /** Any Java throwable, reduced to what the error mapping reads: its message and
      its cause. */
  datatype Throwable = Throwable(message: Option<string>, cause: Option<Throwable>)

  datatype GenericException =
    | InvalidFieldException(message: Option<string>, errorCode: Option<int>, cause: Option<Throwable>)
    | NotFoundException(message: Option<string>, errorCode: Option<int>, cause: Option<Throwable>)
    | DatabaseException(message: Option<string>, errorCode: Option<int>, cause: Option<Throwable>)

  /** The one-argument constructors `new XException(message)`: no code, no cause. */
  function InvalidField(message: string): GenericException
  {
    InvalidFieldException(Some(message), None, None)
  }

  function NotFound(message: string): GenericException
  {
    NotFoundException(Some(message), None, None)
  }

  function DatabaseFailure(message: string): GenericException
  {
    DatabaseException(Some(message), None, None)
  }

  /** The chain of causes that starts at `t`: `t`, its cause, that one's cause, ... */
  function CauseChain(t: Option<Throwable>): (chain: seq<Throwable>)
    ensures t.None? <==> chain == []
    ensures t.Some? ==> chain[0] == t.value
  {
    match t
    case None => []
    case Some(x) => [x] + CauseChain(x.cause)
  }
}
