/**
 * The error constructors the chat and users services call.  Their packages
 * (chat-service/pkg/errors, users-service/pkg/errors and pkg/platform/errors)
 * are not part of this model: each constructor is represented by an error
 * whose text is the message and whose chain holds the matching sentinel, the
 * two things callers of these errors inspect.  Attached details are dropped.
 */
module ServiceErrors {
  import opened ErrorChain

  function NewError(s: Sentinel, message: string): (e: Error)
    ensures Text(e) == message
    ensures forall t :: Is(e, t) <==> t == s
    ensures StatusCode(e).None?
  {
    var e := Wrapped(message, Sentinel(s));
    assert forall t :: Is(e, t) <==> Is(Sentinel(s), t);
    e
  }

  function NewInvalidInputError(message: string): (e: Error)
    ensures Text(e) == message && Is(e, ErrInvalidInput)
  {
    NewError(ErrInvalidInput, message)
  }

  function NewNotFoundError(message: string): (e: Error)
    ensures Text(e) == message && Is(e, ErrNotFound)
  {
    NewError(ErrNotFound, message)
  }

  function NewAlreadyExistsError(message: string): (e: Error)
    ensures Text(e) == message && Is(e, ErrAlreadyExists)
  {
    NewError(ErrAlreadyExists, message)
  }

  function NewForbiddenError(message: string): (e: Error)
    ensures Text(e) == message && Is(e, ErrForbidden)
  {
    NewError(ErrForbidden, message)
  }
}
