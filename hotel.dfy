/**
 * The `Hotel` entity: an identity plus mutable props; each setter writes
 * its field and touches `updatedAt`.
 */
module Hotels {
  import opened Core
  import opened Addresses

  /** What `Hotel.create` is given. The rating is a number that is only stored. */
  datatype HotelProps = HotelProps(
    name: string,
    rating: real,
    address: Address,
    createdAt: Option<Instant>,
    updatedAt: Option<Instant>)

  class Hotel {
    const id: UniqueEntityID
    var name: string
    var rating: real
    var address: Address
    var createdAt: Instant
    var updatedAt: Instant

    /**
     * `Hotel.create(props, id?)`: missing timestamps default to `now`, a
     * missing identifier to `generatedId`; everything supplied is kept.
     */
    constructor Create(props: HotelProps, id: Option<UniqueEntityID>, generatedId: UniqueEntityID, now: Instant)
      ensures this.id == id.GetOr(generatedId)
      ensures name == props.name && rating == props.rating && address == props.address
      ensures createdAt == props.createdAt.GetOr(now)
      ensures updatedAt == props.updatedAt.GetOr(now)
    {
      this.id := id.GetOr(generatedId);
      name := props.name;
      rating := props.rating;
      address := props.address;
      createdAt := props.createdAt.GetOr(now);
      updatedAt := props.updatedAt.GetOr(now);
    }

    /** The `name` setter. */
    method SetName(newName: string, now: Instant)
      modifies this
      ensures name == newName && updatedAt == now
      ensures rating == old(rating) && address == old(address) && createdAt == old(createdAt)
    {
      name := newName;
      Touch(now);
    }

    /** The `rating` setter. */
    method SetRating(newRating: real, now: Instant)
      modifies this
      ensures rating == newRating && updatedAt == now
      ensures name == old(name) && address == old(address) && createdAt == old(createdAt)
    {
      rating := newRating;
      Touch(now);
    }

    /** The `address` setter: the hotel now holds the given (immutable) address value. */
    method SetAddress(newAddress: Address, now: Instant)
      modifies this
      ensures address == newAddress && updatedAt == now
      ensures name == old(name) && rating == old(rating) && createdAt == old(createdAt)
    {
      address := newAddress;
      Touch(now);
    }

    /** `touch`: records `now` as the time of the last change, and changes nothing else. */
    method Touch(now: Instant)
      modifies this`updatedAt
      ensures updatedAt == now
    {
      updatedAt := now;
    }
  }
}
