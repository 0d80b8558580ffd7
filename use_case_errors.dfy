/** The expected business failures the use cases report on the `Left` side. */
module UseCaseErrors {

  /** One constructor per error class of the application layer. */
  datatype UseCaseError =
    | UserAlreadyExistsError
    | TaxIdAlreadyExistsError
    | NameTooShortError
    | BirthDateInFutureError
    | WrongCredentialsError
}
