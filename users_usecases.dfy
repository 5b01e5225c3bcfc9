/**
 * users-service/internal/app/usecases/user/get_by_nickname.go: the
 * `GetByNickname` use case.  The repository lookup is a parameter.
 */
module UsersUseCases {
  import opened Wrappers
  import opened ErrorChain
  import ServiceErrors
  import opened UsersModel

  /** `ports.UserDto`. */
  datatype UserDto = UserDto(id: string, email: string, nickname: string, description: string, avatarUrl: string)

  function ToDto(u: User): UserDto
  {
    UserDto(u.id, u.email, u.nickname, u.description, u.avatarUrl)
  }

  /** The answer and whether the repository was asked (with the nickname it was given). */
  datatype Outcome = Outcome(result: Result<UserDto, Error>, asked: Option<string>)

  /**
   * `GetByNickname`: an empty nickname is InvalidInput without asking the
   * repository; otherwise the repository is asked with the nickname
   * unchanged, its error returned as is, and its user copied into the DTO.
   */
  function GetByNickname(nickname: string, lookup: string -> Result<User, Error>): (r: Outcome)
    ensures nickname == "" ==> r.asked.None? && r.result.Err? && Is(r.result.error, ErrInvalidInput)
    ensures nickname != "" ==> r.asked == Some(nickname)
    ensures nickname != "" && lookup(nickname).Err? ==> r.result == Err(lookup(nickname).error)
    ensures nickname != "" && lookup(nickname).Ok? ==> r.result.Ok?
  {
    if nickname == "" then Outcome(Err(ServiceErrors.NewInvalidInputError("nickname")), None)
    else
      var user := lookup(nickname);
      if user.Err? then Outcome(Err(user.error), Some(nickname))
      else Outcome(Ok(ToDto(user.value)), Some(nickname))
  }

  /** The DTO is the repository's user field for field, so it can be turned back into that user. */
  lemma GetByNicknameCopiesUser(nickname: string, lookup: string -> Result<User, Error>)
    requires nickname != "" && lookup(nickname).Ok?
    ensures var d := GetByNickname(nickname, lookup).result.value;
      User(d.id, d.email, d.nickname, d.description, d.avatarUrl) == lookup(nickname).value
  {
  }
}
