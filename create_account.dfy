/**
 * Registering an account: refuse an email that is already stored,
 * otherwise store one new user holding the hash of the password.
 */
module CreateAccount {
  import opened Core
  import opened Users
  import opened UserRepositories

  datatype CreateAccountRequest = CreateAccountRequest(email: string, password: string)

  datatype CreateAccountResponse = CreateAccountResponse(userId: string)

  /** A plain error with a message: what `execute` throws for a taken email. */
  datatype Fault = Fault(message: string)

  const EmailInUse := "Email already in use."

  class CreateAccountUseCase {
    const userRepository: InMemoryUserRepository
    /** The hash generator capability; any function will do. */
    const hash: string -> string

    constructor (userRepository: InMemoryUserRepository, hash: string -> string)
      ensures this.userRepository == userRepository && this.hash == hash
    {
      this.userRepository := userRepository;
      this.hash := hash;
    }

    /**
     * `execute`: on a taken email the repository is left as it was and the
     * outcome is the "Email already in use." fault; otherwise exactly one
     * new user, with the given email and the hashed password, is appended,
     * and its identifier is returned. Emails stay unique.
     */
    method Execute(input: CreateAccountRequest, generatedId: UniqueEntityID, now: Instant)
      returns (r: Either<Fault, CreateAccountResponse>)
      modifies userRepository
      ensures old(userRepository.FindByEmail(input.email)).Some? ==>
                && r == Left(Fault(EmailInUse))
                && userRepository.items == old(userRepository.items)
      ensures old(userRepository.FindByEmail(input.email)).None? ==>
                && r.Right?
                && |userRepository.items| == |old(userRepository.items)| + 1
                && var user := userRepository.items[|old(userRepository.items)|];
                   && userRepository.items == old(userRepository.items) + [user]
                   && fresh(user)
                   && user.email == input.email && user.password == hash(input.password)
                   && user.taxId == None && user.id == generatedId
                   && user.createdAt == now && user.updatedAt == now
                   && r.right.userId == user.id.ToString()
      ensures old(userRepository.EmailsUnique()) ==> userRepository.EmailsUnique()
    {
      var emailAlreadyExists := userRepository.FindByEmail(input.email);
      if emailAlreadyExists.Some? {
        return Left(Fault(EmailInUse));
      }
      var hashedPassword := hash(input.password);
      var user := new User.Create(UserProps(input.email, hashedPassword, None, None, None),
                                  None, generatedId, now);
      userRepository.Save(user);
      r := Right(CreateAccountResponse(user.id.ToString()));
    }
  }

  /**
   * A repository already holding a user with the email refuses to register
   * it again and still holds only that user.
   */
  method TakenEmailRefused(hash: string -> string, storedId: UniqueEntityID, newId: UniqueEntityID, now: Instant)
  {
    var repository := new InMemoryUserRepository();
    var sut := new CreateAccountUseCase(repository, hash);
    var user := new User.Create(UserProps("john.doe@example.com", "hashed-password", None, None, None),
                                None, storedId, now);
    repository.Save(user);
    var result := sut.Execute(CreateAccountRequest("john.doe@example.com", "123456"), newId, now);
    assert result == Left(Fault(EmailInUse));
    assert repository.items == [user];
  }
}
