/**
 * users-service/internal/app/models/user.go: a user's public profile.  Ids
 * are UUID texts; UUID parsing is a parameter.
 */
module UsersModel {
  import opened Wrappers
  import opened ErrorChain
  import ServiceErrors
  import Uuids

  datatype User = User(id: string, email: string, nickname: string, description: string, avatarUrl: string)

  /** `UserID.IsEmpty`: the nil UUID. */
  predicate IsEmpty(id: string)
  {
    Uuids.IsNil(id)
  }

  /** The checks of `NewUser` in source order: id, nickname, email. */
  function CheckNewUser(id: string, email: string, nickname: string): (r: Option<Error>)
    ensures r.None? <==> !IsEmpty(id) && nickname != "" && email != ""
    ensures IsEmpty(id) ==> r == Some(ServiceErrors.NewInvalidInputError("id cannot be empty"))
    ensures !IsEmpty(id) && nickname == "" ==> r == Some(ServiceErrors.NewInvalidInputError("nickname cannot be empty"))
    ensures !IsEmpty(id) && nickname != "" && email == "" ==>
      r == Some(ServiceErrors.NewInvalidInputError("email cannot be empty"))
    ensures r.Some? ==> Is(r.value, ErrInvalidInput)
  {
    if IsEmpty(id) then Some(ServiceErrors.NewInvalidInputError("id cannot be empty"))
    else if nickname == "" then Some(ServiceErrors.NewInvalidInputError("nickname cannot be empty"))
    else if email == "" then Some(ServiceErrors.NewInvalidInputError("email cannot be empty"))
    else None
  }

  /**
   * `NewUser`: the first failed check, or a user holding exactly the
   * arguments; description and avatar URL may be empty.
   */
  function NewUser(id: string, email: string, nickname: string, description: string, avatarUrl: string)
    : (r: Result<User, Error>)
    ensures r.Err? <==> CheckNewUser(id, email, nickname).Some?
    ensures r.Err? ==> r.error == CheckNewUser(id, email, nickname).value
    ensures r.Ok? ==> r.value == User(id, email, nickname, description, avatarUrl)
  {
    var check := CheckNewUser(id, email, nickname);
    if check.Some? then Err(check.value) else Ok(User(id, email, nickname, description, avatarUrl))
  }

  /** Empty description and avatar never stop a user from being built. */
  lemma OptionalFieldsOptional(id: string, email: string, nickname: string, description: string, avatarUrl: string)
    ensures NewUser(id, email, nickname, description, avatarUrl).Ok? <==> NewUser(id, email, nickname, "", "").Ok?
  {
  }

  /**
   * `ParseUserID` with `parse` standing for `uuid.Parse`: a text the parser
   * refuses is InvalidInput naming the text; otherwise the parsed id.
   */
  function ParseUserID(s: string, parse: string -> Option<string>): (r: Result<string, Error>)
    ensures parse(s).None? ==> r.Err? && Is(r.error, ErrInvalidInput) && Text(r.error) == "invalid UUID format: " + s
    ensures parse(s).Some? ==> r == Ok(parse(s).value)
  {
    if parse(s).None? then Err(ServiceErrors.NewInvalidInputError("invalid UUID format: " + s))
    else Ok(parse(s).value)
  }
}
