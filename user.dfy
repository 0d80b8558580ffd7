/**
 * The `User` entity: an identity plus mutable props. Changing the password
 * also refreshes `updatedAt` ("touch").
 */
module Users {
  import opened Core

  /**
   * What `User.create` is given. `taxId` is not among the entity's declared
   * props, but the in-memory repository looks users up by it, so the model
   * carries it as an optional field.
   */
  datatype UserProps = UserProps(
    email: string,
    password: string,
    taxId: Option<string>,
    createdAt: Option<Instant>,
    updatedAt: Option<Instant>)

  class User {
    const id: UniqueEntityID
    var email: string
    var password: string
    var taxId: Option<string>
    var createdAt: Instant
    var updatedAt: Instant

    /**
     * `User.create(props, id?)`: missing timestamps default to `now`, a
     * missing identifier to `generatedId` (the one the entity base would
     * generate); everything supplied is kept.
     */
    constructor Create(props: UserProps, id: Option<UniqueEntityID>, generatedId: UniqueEntityID, now: Instant)
      ensures this.id == id.GetOr(generatedId)
      ensures email == props.email && password == props.password && taxId == props.taxId
      ensures createdAt == props.createdAt.GetOr(now)
      ensures updatedAt == props.updatedAt.GetOr(now)
    {
      this.id := id.GetOr(generatedId);
      email := props.email;
      password := props.password;
      taxId := props.taxId;
      createdAt := props.createdAt.GetOr(now);
      updatedAt := props.updatedAt.GetOr(now);
    }

    /** The `password` setter: stores the new value and touches the entity. */
    method SetPassword(newPassword: string, now: Instant)
      modifies this
      ensures password == newPassword && updatedAt == now
      ensures email == old(email) && taxId == old(taxId) && createdAt == old(createdAt)
    {
      password := newPassword;
      Touch(now);
    }

    /** `touch`: records `now` as the time of the last change, and changes nothing else. */
    method Touch(now: Instant)
      modifies this`updatedAt
      ensures updatedAt == now
    {
      updatedAt := now;
    }
  }
}
