/**
 * Signing in: look the user up by email, check the password against the
 * stored hash, and issue a token whose subject is the user's identifier.
 * An unknown email and a wrong password fail alike.
 */
module AuthenticateUser {
  import opened Core
  import opened Users
  import opened UserRepositories
  import opened UseCaseErrors

  datatype AuthenticateUserRequest = AuthenticateUserRequest(email: string, password: string)

  datatype AuthenticateUserResponse = AuthenticateUserResponse(accessToken: string)

  /** The claims handed to the encrypter. */
  datatype Claims = Claims(sub: string)

  /** The hash comparer capability: plaintext, then stored hash. */
  type HashComparer = (string, string) -> bool

  /** The encrypter capability. */
  type Encrypter = Claims -> string

  /**
   * `execute`: the use case's collaborators are passed in. It reads the
   * repository and changes nothing.
   */
  function Execute(userRepository: InMemoryUserRepository, hashComparer: HashComparer,
                   encrypter: Encrypter, request: AuthenticateUserRequest)
    : (r: Either<UseCaseError, AuthenticateUserResponse>)
    reads userRepository, userRepository.items
    ensures r.Left? ==> r.left == WrongCredentialsError
    ensures var found := userRepository.FindByEmail(request.email);
            r.Right? <==> found.Some? && hashComparer(request.password, found.value.password)
  {
    var user := userRepository.FindByEmail(request.email);
    if user.None? then
      Left(WrongCredentialsError)
    else if !hashComparer(request.password, user.value.password) then
      Left(WrongCredentialsError)
    else
      var accessToken := encrypter(Claims(user.value.id.ToString()));
      Right(AuthenticateUserResponse(accessToken))
  }

  /**
   * An unknown email fails with the credentials error whatever comparer
   * and encrypter are supplied: neither is consulted.
   */
  lemma UnknownEmailConsultsNoCapability(userRepository: InMemoryUserRepository,
                                         c1: HashComparer, e1: Encrypter,
                                         c2: HashComparer, e2: Encrypter,
                                         request: AuthenticateUserRequest)
    requires forall i :: 0 <= i < |userRepository.items| ==> userRepository.items[i].email != request.email
    ensures Execute(userRepository, c1, e1, request) == Left(WrongCredentialsError)
    ensures Execute(userRepository, c1, e1, request) == Execute(userRepository, c2, e2, request)
  {
  }

  /**
   * The comparer is consulted only on the supplied plaintext and the stored
   * hash of the user found by email, and the encrypter only on that user's
   * identifier: capabilities that agree there give the same outcome.
   */
  lemma CapabilitiesConsultedOnlyForFoundUser(userRepository: InMemoryUserRepository,
                                              c1: HashComparer, e1: Encrypter,
                                              c2: HashComparer, e2: Encrypter,
                                              request: AuthenticateUserRequest, user: User)
    requires userRepository.FindByEmail(request.email) == Some(user)
    requires c1(request.password, user.password) == c2(request.password, user.password)
    requires var claims := Claims(user.id.ToString()); e1(claims) == e2(claims)
    ensures Execute(userRepository, c1, e1, request) == Execute(userRepository, c2, e2, request)
  {
  }

  /** A wrong password fails with the credentials error whatever encrypter is supplied. */
  lemma WrongPasswordConsultsNoEncrypter(userRepository: InMemoryUserRepository,
                                         c: HashComparer, e1: Encrypter, e2: Encrypter,
                                         request: AuthenticateUserRequest, user: User)
    requires userRepository.FindByEmail(request.email) == Some(user)
    requires !c(request.password, user.password)
    ensures Execute(userRepository, c, e1, request) == Left(WrongCredentialsError)
    ensures Execute(userRepository, c, e1, request) == Execute(userRepository, c, e2, request)
  {
  }

  /**
   * The two failures cannot be told apart: a request for an unknown email
   * and a request with a wrong password produce the same value.
   */
  lemma FailuresIndistinguishable(userRepository: InMemoryUserRepository,
                                  c: HashComparer, e: Encrypter,
                                  unknown: AuthenticateUserRequest, wrong: AuthenticateUserRequest)
    requires userRepository.FindByEmail(unknown.email).None?
    requires var found := userRepository.FindByEmail(wrong.email);
             found.Some? && !c(wrong.password, found.value.password)
    ensures Execute(userRepository, c, e, unknown) == Execute(userRepository, c, e, wrong)
  {
  }

  /** On success the token is the encrypter's output for the found user's identifier. */
  lemma SuccessIssuesTokenForUser(userRepository: InMemoryUserRepository,
                                  c: HashComparer, e: Encrypter,
                                  request: AuthenticateUserRequest, user: User)
    requires userRepository.FindByEmail(request.email) == Some(user)
    requires c(request.password, user.password)
    ensures Execute(userRepository, c, e, request)
            == Right(AuthenticateUserResponse(e(Claims(user.id.ToString()))))
  {
  }

  /** A stored user whose stored hash matches the password signs in with a token for it. */
  method AuthenticateStoredUser(c: HashComparer, e: Encrypter, hashed: string, id: UniqueEntityID, now: Instant)
    requires c("123456", hashed)
  {
    var repository := new InMemoryUserRepository();
    var student := new User.Create(UserProps("johndoe@example.com", hashed, None, None, None), Some(id), id, now);
    repository.Save(student);
    var request := AuthenticateUserRequest("johndoe@example.com", "123456");
    SuccessIssuesTokenForUser(repository, c, e, request, student);
    var result := Execute(repository, c, e, request);
    assert result.Right? && result.right.accessToken == e(Claims(id.value));
  }
}
