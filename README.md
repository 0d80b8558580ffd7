# Hospitality core in Dafny

A model of the domain core of a hotel-booking back end, with proofs about it:

- **Address value object.** It validates its fields in a fixed order and stops at the first problem. It stores trimmed text and a digits-only Brazilian zip code (CEP). It renders the zip code as `NNNNN-NNN` and the address as one line, and compares addresses field by field.
- **User and Hotel entities.** Each is an identity plus state that setters change in place. Every setter also "touches" `updatedAt`.
- **In-memory user repository.** It holds a list that `save` appends to and that lookups by email or tax identifier search front to back.
- **Two use cases.** Creating an account refuses an email that is already stored; otherwise it saves a user holding the password's hash. Authenticating looks the user up by email, compares the password with the stored hash, and issues a token whose subject is the user's identifier. An unknown email and a wrong password give the same error.

Modules:

- `Core`: `Option`, `Either`, entity identifiers and instants.
- `Text`: ECMAScript `trim` and the `/\D/g` strip.
- `Addresses`: the value object.
- `AddressExamples`: every case of the address test suite, worked on its literal inputs.
- `Users` and `Hotels`: the entities, as classes.
- `UserRepositories`: the repository, as a class over a `seq<User>`.
- `UseCaseErrors`: the use-case error kinds.
- `CreateAccount` and `AuthenticateUser`: the use cases.

Things the program takes from its environment become parameters:

- **The clock** is an `Instant` argument, `now`.
- **The identifier the entity base would generate** is a `generatedId` argument.
- **The hash generator, hash comparer and encrypter** are function-valued arguments. Nothing is assumed about them except that they are functions, so the same input gives the same output.

Where the code and its tests disagree, or the code leaves a gap, the model follows the code:

- **Taken email.** `CreateAccountUseCase.execute` throws a plain `Error("Email already in use.")`. Its test expects a `UserAlreadyExistsError`. The model returns `Left(Fault("Email already in use."))`.
- **Account fields.** The use case takes only an email and a password (src/domain/hospitality/application/use-cases/create-account.ts:5-8), and the model takes the same two.
- **Tax identifier.** `User` declares no `taxId`, yet the in-memory repository looks users up by `item.taxId`. The model gives users an optional `taxId` field. An account created by the use case has none.

## Model

| member | source | states |
|---|---|---|
| Text.LeadingWhitespace | src/domain/hospitality/enterprise/entities/value-objects/address.ts:21-28 | the count is the length of the longest all-whitespace prefix: every counted character is whitespace and the next one is not |
| Text.TrailingWhitespace | src/domain/hospitality/enterprise/entities/value-objects/address.ts:21-28 | the mirror image: the length of the longest all-whitespace suffix |
| Text.Trim | src/domain/hospitality/enterprise/entities/value-objects/address.ts:21-28 | the result has no whitespace at either end, and is empty iff the input is whitespace only (ECMAScript white space and line terminators) |
| Text.TrimIsSlice | src/domain/hospitality/enterprise/entities/value-objects/address.ts:21-28 | the trimmed text is the contiguous slice of the input after its leading whitespace, and what is cut off on both sides is whitespace |
| Text.LeadingWhitespaceOf | src/domain/hospitality/enterprise/entities/value-objects/address.ts:21-28 | a whitespace prefix followed by a non-whitespace character is counted exactly |
| Text.TrailingWhitespaceOf | src/domain/hospitality/enterprise/entities/value-objects/address.ts:21-28 | a whitespace suffix preceded by a non-whitespace character is counted exactly |
| Text.TrimUnique | src/domain/hospitality/enterprise/entities/value-objects/address.ts:21-28 | whitespace + t + whitespace trims to t whenever t is itself trimmed |
| Text.TrimOfTrimmed | src/domain/hospitality/enterprise/entities/value-objects/address.ts:21-28 | text with no whitespace at either end is left unchanged |
| Text.TrimIdempotent | src/domain/hospitality/enterprise/entities/value-objects/address.ts:21-28 | trimming twice is trimming once |
| Text.KeepDigits | src/domain/hospitality/enterprise/entities/value-objects/address.ts:62 | `replace(/\D/g, '')` yields only ASCII digits and is never longer than its input |
| Text.KeepDigitsOfDigits | src/domain/hospitality/enterprise/entities/value-objects/address.ts:62 | a string of digits passes through unchanged |
| Text.KeepDigitsAppend | src/domain/hospitality/enterprise/entities/value-objects/address.ts:62 | the strip distributes over concatenation |
| Text.KeepDigitsOfNonDigits | src/domain/hospitality/enterprise/entities/value-objects/address.ts:62 | a string without digits strips to empty |
| Addresses.ValidateProps | src/domain/hospitality/enterprise/entities/value-objects/address.ts:32-66 | no contract of its own: the guard chain, stated by ValidatePropsReportsFirstFailure |
| Addresses.ValidatePropsReportsFirstFailure | src/domain/hospitality/enterprise/entities/value-objects/address.ts:32-66 | validation passes iff all eight guards hold; otherwise it reports the message of the first failing guard, with every earlier guard holding |
| Addresses.NormalizeComplement | src/domain/hospitality/enterprise/entities/value-objects/address.ts:23 | no contract of its own: an absent or blank complement becomes absent, any other is trimmed, as stated by Create's ensures |
| Addresses.Normalize | src/domain/hospitality/enterprise/entities/value-objects/address.ts:19-29 | no contract of its own: the record the constructor stores, whose fields Create's ensures state one by one |
| Addresses.Create | src/domain/hospitality/enterprise/entities/value-objects/address.ts:17-30 | fails iff validation fails, with validation's error; on success every text field is the trimmed input, the zip code is the input's digits, and the complement is absent iff it was absent or blank, otherwise trimmed; the result always satisfies the address invariant (subset type) |
| Addresses.BlankFieldRejected | src/domain/hospitality/enterprise/entities/value-objects/address.ts:33-59 | a blank required field makes creation fail, with the message of that guard or an earlier one |
| Addresses.ZipDigitCountDecides | src/domain/hospitality/enterprise/entities/value-objects/address.ts:61-65 | once the presence guards pass, creation fails iff the zip code does not have exactly 8 digits, and then with "Zip code must have 8 digits" |
| Addresses.CreateOfAddress | src/domain/hospitality/enterprise/entities/value-objects/address.ts:68-70 | creating from the fields of an existing address gives back that same address (normalisation is idempotent) |
| Addresses.FormattedZipCode | src/domain/hospitality/enterprise/entities/value-objects/address.ts:104-107 | nine characters: the first five digits, a hyphen, the last three digits |
| Addresses.FormattedZipCodeRoundTrip | src/domain/hospitality/enterprise/entities/value-objects/address.ts:104-107 | stripping non-digits from the formatted zip code gives back the stored zip code |
| Addresses.FullAddress | src/domain/hospitality/enterprise/entities/value-objects/address.ts:109-112 | no contract of its own: the template rendering, stated by FullAddressJoinsSegments and FullAddressComplementInsertion |
| Addresses.FullAddressJoinsSegments | src/domain/hospitality/enterprise/entities/value-objects/address.ts:109-112 | the full address is exactly street, number, complement (when present), neighborhood, "city - state", formatted zip and country, joined by ", "; 7 segments with a complement, 6 without |
| Addresses.FullAddressComplementInsertion | src/domain/hospitality/enterprise/entities/value-objects/address.ts:110-111 | a complement inserts ", " + complement right after the number and changes nothing else |
| Addresses.ToString | src/domain/hospitality/enterprise/entities/value-objects/address.ts:131-133 | the string form is the full address, i.e. the segments joined by ", " |
| Addresses.Equals | src/domain/hospitality/enterprise/entities/value-objects/address.ts:114-129 | true iff the other operand is an address with the same fields; false for anything that is not an address |
| Addresses.EqualsIsEquivalence | src/domain/hospitality/enterprise/entities/value-objects/address.ts:114-129 | equality is reflexive and symmetric |
| Addresses.CreatedAddressesEqual | src/domain/hospitality/enterprise/entities/value-objects/address.ts:17-30 | two created addresses are equal iff their normalised inputs agree |
| AddressExamples.CreateOfPresentFields | src/domain/hospitality/enterprise/entities/value-objects/address.ts:32-66 | corollary of ZipDigitCountDecides with the presence guards written field by field: once every required text is present, creation fails iff the zip code does not have 8 digits, and then with the digit-count message |
| AddressExamples.CreateYields | src/domain/hospitality/enterprise/entities/value-objects/address.ts:17-30 | creation succeeds with exactly the record of trimmed texts, normalised complement and stripped 8-digit zip code |
| AddressExamples.CreateValidAddress | src/domain/hospitality/enterprise/entities/value-objects/address.spec.ts:5-26 | the valid sample with a hyphenated zip code is stored with the same texts and the zip code "01234567" |
| AddressExamples.CreateWithoutComplement | src/domain/hospitality/enterprise/entities/value-objects/address.spec.ts:28-40 | an absent complement stays absent |
| AddressExamples.CreateTrimsFields | src/domain/hospitality/enterprise/entities/value-objects/address.spec.ts:42-61 | blanks around every field are trimmed, and the padded hyphenated zip code keeps its eight digits |
| AddressExamples.CreateStripsZipPunctuation | src/domain/hospitality/enterprise/entities/value-objects/address.spec.ts:63-75 | "012.34-567" is stored as "01234567" |
| AddressExamples.CreateDropsBlankComplement | src/domain/hospitality/enterprise/entities/value-objects/address.ts:23 | a whitespace-only complement is stored as absent |
| AddressExamples.HyphenatedZipDigits | src/domain/hospitality/enterprise/entities/value-objects/address.ts:62 | "01234-567" strips to "01234567" |
| AddressExamples.DottedZipDigits | src/domain/hospitality/enterprise/entities/value-objects/address.ts:62 | "012.34-567" strips to "01234567" |
| AddressExamples.PaddedZipDigits | src/domain/hospitality/enterprise/entities/value-objects/address.ts:62 | "  01234-567  " strips to "01234567" |
| AddressExamples.PaddedTrim | src/domain/hospitality/enterprise/entities/value-objects/address.ts:21-28 | two blanks on both sides of a trimmed text are cut off |
| AddressExamples.FormattedZipCodeExample | src/domain/hospitality/enterprise/entities/value-objects/address.spec.ts:77-89 | "01234567" formats as "01234-567" |
| AddressExamples.FullAddressWithComplement | src/domain/hospitality/enterprise/entities/value-objects/address.spec.ts:91-105 | the sample with complement renders as "Rua das Flores, 123, Apto 45, Centro, São Paulo - SP, 01234-567, Brasil" |
| AddressExamples.ToStringIsFullAddress | src/domain/hospitality/enterprise/entities/value-objects/address.spec.ts:106 | `toString()` equals `fullAddress` for that address |
| AddressExamples.FullAddressWithoutComplement | src/domain/hospitality/enterprise/entities/value-objects/address.spec.ts:109-123 | the sample without complement renders as "Rua das Flores, 123, Centro, São Paulo - SP, 01234-567, Brasil" |
| AddressExamples.EmptyStreetRejected | src/domain/hospitality/enterprise/entities/value-objects/address.spec.ts:126-152 | an empty or whitespace-only street fails with "Street is required" |
| AddressExamples.EmptyNumberRejected | src/domain/hospitality/enterprise/entities/value-objects/address.spec.ts:154-166 | an empty number fails with "Number is required" |
| AddressExamples.EmptyNeighborhoodRejected | src/domain/hospitality/enterprise/entities/value-objects/address.spec.ts:168-180 | an empty neighborhood fails with "Neighborhood is required" |
| AddressExamples.EmptyCityRejected | src/domain/hospitality/enterprise/entities/value-objects/address.spec.ts:182-194 | an empty city fails with "City is required" |
| AddressExamples.EmptyStateRejected | src/domain/hospitality/enterprise/entities/value-objects/address.spec.ts:196-208 | an empty state fails with "State is required" |
| AddressExamples.EmptyZipCodeRejected | src/domain/hospitality/enterprise/entities/value-objects/address.spec.ts:210-222 | an empty zip code fails with "Zip code is required" |
| AddressExamples.EmptyCountryRejected | src/domain/hospitality/enterprise/entities/value-objects/address.spec.ts:224-236 | an empty country fails with "Country is required" |
| AddressExamples.SevenDigitZipRejected | src/domain/hospitality/enterprise/entities/value-objects/address.spec.ts:238-250 | seven digits fail with "Zip code must have 8 digits" |
| AddressExamples.NineDigitZipRejected | src/domain/hospitality/enterprise/entities/value-objects/address.spec.ts:252-264 | nine digits fail with "Zip code must have 8 digits" |
| AddressExamples.EqualityExamples | src/domain/hospitality/enterprise/entities/value-objects/address.spec.ts:268-316 | equal for identical fields; unequal for another street, another complement, a missing complement, and a non-address (also lines 342-407) |
| AddressExamples.DifferentNumbersUnequal | src/domain/hospitality/enterprise/entities/value-objects/address.spec.ts:318-340 | unequal for another number |
| Users.User.Create | src/domain/hospitality/enterprise/entities/user.ts:30-42 | the given identifier, or the generated one when none is given; email, password and tax id kept; each missing timestamp defaults to now |
| Users.User.SetPassword | src/domain/hospitality/enterprise/entities/user.ts:21-24 | the password is the new one and updatedAt is now; email, tax id and createdAt are unchanged |
| Users.User.Touch | src/domain/hospitality/enterprise/entities/user.ts:26-28 | updatedAt is now and no other field changes |
| Hotels.Hotel.Create | src/domain/hospitality/enterprise/entities/hotel.ts:46-58 | the given or generated identifier; name, rating and address kept; each missing timestamp defaults to now |
| Hotels.Hotel.SetName | src/domain/hospitality/enterprise/entities/hotel.ts:19-22 | the name is the new one and updatedAt is now; rating, address and createdAt are unchanged |
| Hotels.Hotel.SetRating | src/domain/hospitality/enterprise/entities/hotel.ts:28-31 | the rating is the new one and updatedAt is now; name, address and createdAt are unchanged |
| Hotels.Hotel.SetAddress | src/domain/hospitality/enterprise/entities/hotel.ts:37-40 | the address is the new one and updatedAt is now; name, rating and createdAt are unchanged |
| Hotels.Hotel.Touch | src/domain/hospitality/enterprise/entities/hotel.ts:42-44 | updatedAt is now and no other field changes |
| UserRepositories.FirstIndexOf | test/repositories/user-repository.ts:8 | `find` semantics: absent iff no element matches; otherwise a matching position with no match before it |
| UserRepositories.FirstIndexOfAppend | test/repositories/user-repository.ts:15-17 | appending leaves the first match of a key already present where it was; a new key is found at the end |
| UserRepositories.EmailsOf | test/repositories/user-repository.ts:12 | the emails of the stored users, position by position |
| UserRepositories.TaxIdsOf | test/repositories/user-repository.ts:8 | the tax identifiers of the stored users, position by position |
| UserRepositories.EmailsOfAppend | test/repositories/user-repository.ts:15-17 | the emails after an append are the emails before, then the new user's |
| UserRepositories.DistinctAppend | test/repositories/user-repository.ts:15-17 | appending an email not yet present keeps the emails distinct |
| UserRepositories.InMemoryUserRepository.constructor | test/repositories/user-repository.ts:5 | a new repository is empty |
| UserRepositories.InMemoryUserRepository.FindByTaxId | test/repositories/user-repository.ts:7-9 | none iff no stored user has that tax id; otherwise the first stored user that has it |
| UserRepositories.InMemoryUserRepository.FindByEmail | test/repositories/user-repository.ts:11-13 | none iff no stored user has that email; otherwise the first stored user that has it |
| UserRepositories.InMemoryUserRepository.Save | test/repositories/user-repository.ts:15-17 | the user is appended and nothing else changes; afterwards some user with that email is found, and it is this user if the email was new; appending a new email keeps emails unique |
| CreateAccount.CreateAccountUseCase.constructor | src/domain/hospitality/application/use-cases/create-account.ts:11-14 | the use case holds the given repository and hash generator |
| CreateAccount.CreateAccountUseCase.Execute | src/domain/hospitality/application/use-cases/create-account.ts:16-37 | a stored email is refused with "Email already in use." and the repository is unchanged; otherwise exactly one fresh user is appended, with the given email, the hash of the password, no tax id, the generated identifier and both timestamps now, and its identifier is returned; unique emails stay unique |
| AuthenticateUser.Execute | src/domain/hospitality/application/use-cases/authenticate-user.ts:26-52 | every failure is the wrong-credentials error; success iff a user is stored under the email and the comparer accepts the password against that user's stored hash |
| AuthenticateUser.UnknownEmailConsultsNoCapability | src/domain/hospitality/application/use-cases/authenticate-user.ts:30-34 | an unknown email fails whatever comparer and encrypter are supplied |
| AuthenticateUser.CapabilitiesConsultedOnlyForFoundUser | src/domain/hospitality/application/use-cases/authenticate-user.ts:36-47 | the comparer is consulted only on the given password and the found user's hash, the encrypter only on that user's identifier |
| AuthenticateUser.WrongPasswordConsultsNoEncrypter | src/domain/hospitality/application/use-cases/authenticate-user.ts:41-43 | a rejected password fails whatever encrypter is supplied |
| AuthenticateUser.FailuresIndistinguishable | src/domain/hospitality/application/use-cases/authenticate-user.ts:32-43 | an unknown email and a wrong password produce the same outcome |
| AuthenticateUser.SuccessIssuesTokenForUser | src/domain/hospitality/application/use-cases/authenticate-user.ts:45-51 | on success the token is the encrypter's output for claims whose subject is the found user's identifier |

The methods `CreateAccount.TakenEmailRefused` and `AuthenticateUser.AuthenticateStoredUser` follow two use-case test scenarios. In the first, a repository already holding a user refuses to register that user's email again. In the second, a stored user signs in.

## Left out

- Asynchrony: every repository, hashing and encryption call is awaited in the source. The model makes each a synchronous call, because nothing runs between the awaits.
- Exceptions: `Address.create` and `CreateAccountUseCase.execute` throw. The model returns the error as the `Left` side of `Either`, because Dafny has no exceptions.
- The real hash, compare and encrypt implementations are not part of this model. They are passed in as functions.
- The clock and identifier generation are not modelled. They are the `now` and `generatedId` parameters.
- `Users.User.Create` and `Hotels.Hotel.Create` use one `now` for both timestamp defaults. The source reads the clock separately for each, so it can give two instants a moment apart.
- The `Entity` base class and its identifier-based equality are not part of this model. Entities are Dafny objects with an `id` field.
- The `Either` helper's own methods are not part of this model. Results are matched directly on `Left`/`Right`.
- Getters are field reads of the classes, or fields of the `Address` datatype.
- Null and undefined checks are not modelled (`props.street?.trim()`, and `equals` being called with `null`): every field of `AddressProps` is a string. A non-address operand of `equals` is the `NotAnAddress` case.
- Strings are sequences of Unicode characters, not UTF-16 code units. For the ASCII and Latin inputs used here this is the same.
- `Hotels.Hotel.SetRating`: the rating is a mathematical real, not an IEEE double. Rounding and NaN are not modelled.
- `UserRepositories.InMemoryUserRepository.FindByTaxId`: `User` (src/domain/hospitality/enterprise/entities/user.ts:12-43) has no `taxId` accessor. Unless the entity base class, which is not part of this model, supplies one, `item.taxId` is `undefined` and the source's `findByTaxId` returns `null` for every string. The model instead returns the first stored user whose optional `taxId` field is that string.
- The storage interface (the `UserRepository` contract) is only modelled through its in-memory implementation.
- The user factory for tests is not part of this model.
- `UserRepositories.InMemoryUserRepository.Save`: the repository stores references to `User` objects, as the source does. Its ensures says nothing about users it already held being changed later through other references.
