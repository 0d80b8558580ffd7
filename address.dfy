/**
 * The `Address` value object: a postal address that is validated once,
 * normalised once and never changed afterwards.
 */
module Addresses {
  import opened Core
  import opened Text

  /** The fields a caller passes to `Address.create`; `complement` is optional. */
  datatype AddressProps = AddressProps(
    street: string,
    number: string,
    complement: Option<string>,
    neighborhood: string,
    city: string,
    state: string,
    zipCode: string,
    country: string)

  /** The single error kind of construction, parametrised by its reason. */
  datatype InvalidAddressError = InvalidAddressError(message: string)

  const StreetRequired := "Street is required"
  const NumberRequired := "Number is required"
  const NeighborhoodRequired := "Neighborhood is required"
  const CityRequired := "City is required"
  const StateRequired := "State is required"
  const ZipCodeRequired := "Zip code is required"
  const CountryRequired := "Country is required"
  const ZipCodeLength := "Zip code must have 8 digits"

  /** Number of guards construction runs. */
  const GuardCount := 8

  /** The guards' messages, in the order the guards run. */
  const Messages: seq<string> := [
    StreetRequired, NumberRequired, NeighborhoodRequired, CityRequired,
    StateRequired, ZipCodeRequired, CountryRequired, ZipCodeLength]

  /** `!s?.trim()`: the text is empty or whitespace only. */
  predicate Blank(s: string) { Trim(s) == [] }

  /** The `k`-th guard of construction, counted from 0 in the order they run. */
  predicate GuardHolds(p: AddressProps, k: nat)
    requires k < GuardCount
  {
    if k == 0 then !Blank(p.street)
    else if k == 1 then !Blank(p.number)
    else if k == 2 then !Blank(p.neighborhood)
    else if k == 3 then !Blank(p.city)
    else if k == 4 then !Blank(p.state)
    else if k == 5 then !Blank(p.zipCode)
    else if k == 6 then !Blank(p.country)
    else |KeepDigits(p.zipCode)| == 8
  }

  /** The seven fields whose presence is checked, in guard order. */
  function RequiredText(p: AddressProps): seq<string> {
    [p.street, p.number, p.neighborhood, p.city, p.state, p.zipCode, p.country]
  }

  /**
   * `validateProps`: the chain of guard clauses, stopping at the first one
   * that fails and reporting it (`None` when every guard passes).
   */
  function ValidateProps(p: AddressProps): Option<InvalidAddressError> {
    if Blank(p.street) then Some(InvalidAddressError(StreetRequired))
    else if Blank(p.number) then Some(InvalidAddressError(NumberRequired))
    else if Blank(p.neighborhood) then Some(InvalidAddressError(NeighborhoodRequired))
    else if Blank(p.city) then Some(InvalidAddressError(CityRequired))
    else if Blank(p.state) then Some(InvalidAddressError(StateRequired))
    else if Blank(p.zipCode) then Some(InvalidAddressError(ZipCodeRequired))
    else if Blank(p.country) then Some(InvalidAddressError(CountryRequired))
    else if |KeepDigits(p.zipCode)| != 8 then Some(InvalidAddressError(ZipCodeLength))
    else None
  }

  /**
   * Validation passes iff every guard holds, and otherwise reports the
   * message of the first guard that fails, every earlier guard holding.
   */
  lemma ValidatePropsReportsFirstFailure(p: AddressProps)
    ensures ValidateProps(p).None? <==> forall k :: 0 <= k < GuardCount ==> GuardHolds(p, k)
    ensures ValidateProps(p).Some? ==>
              exists k :: 0 <= k < GuardCount && !GuardHolds(p, k)
                          && (forall j :: 0 <= j < k ==> GuardHolds(p, j))
                          && ValidateProps(p).value == InvalidAddressError(Messages[k])
  {
    if ValidateProps(p).None? {
      forall k | 0 <= k < GuardCount ensures GuardHolds(p, k) { }
    } else {
      var k: nat :=
        if Blank(p.street) then 0 else if Blank(p.number) then 1
        else if Blank(p.neighborhood) then 2 else if Blank(p.city) then 3
        else if Blank(p.state) then 4 else if Blank(p.zipCode) then 5
        else if Blank(p.country) then 6 else 7;
      assert !GuardHolds(p, k);
      forall j | 0 <= j < k ensures GuardHolds(p, j) { }
      assert ValidateProps(p).value == InvalidAddressError(Messages[k]);
    }
  }

  /** `complement?.trim() || undefined`: a blank complement becomes absent. */
  function NormalizeComplement(c: Option<string>): Option<string> {
    match c
    case None => None
    case Some(s) => if Trim(s) == [] then None else Some(Trim(s))
  }

  /** The record the constructor stores: trimmed text, digits-only zip code. */
  function Normalize(p: AddressProps): AddressProps {
    AddressProps(
      Trim(p.street), Trim(p.number), NormalizeComplement(p.complement),
      Trim(p.neighborhood), Trim(p.city), Trim(p.state),
      KeepDigits(p.zipCode), Trim(p.country))
  }

  /** A non-empty text without whitespace at either end. */
  predicate IsFilledTrimmed(s: string) { s != [] && IsTrimmed(s) }

  /**
   * The invariant every constructed address satisfies: required text
   * present and trimmed, an 8-digit zip code, and a complement that is
   * either absent or present, non-empty and trimmed.
   */
  predicate Canonical(p: AddressProps) {
    && IsFilledTrimmed(p.street) && IsFilledTrimmed(p.number)
    && IsFilledTrimmed(p.neighborhood) && IsFilledTrimmed(p.city)
    && IsFilledTrimmed(p.state) && IsFilledTrimmed(p.country)
    && |p.zipCode| == 8 && AllDigits(p.zipCode)
    && (p.complement.Some? ==> IsFilledTrimmed(p.complement.value))
  }

  /** An `Address` instance: only canonical records can be built. */
  type Address = p: AddressProps | Canonical(p)
    witness AddressProps("-", "-", None, "-", "-", "-", "00000000", "-")

  /**
   * `Address.create`: the guards, then the normalised record. The source
   * throws the error; here it is the `Left` side.
   */
  function Create(p: AddressProps): (r: Either<InvalidAddressError, Address>)
    ensures r.Left? <==> ValidateProps(p).Some?
    ensures r.Left? ==> r.left == ValidateProps(p).value
    ensures r.Right? ==>
              && r.right.street == Trim(p.street) && r.right.number == Trim(p.number)
              && r.right.neighborhood == Trim(p.neighborhood) && r.right.city == Trim(p.city)
              && r.right.state == Trim(p.state) && r.right.country == Trim(p.country)
              && r.right.zipCode == KeepDigits(p.zipCode)
    ensures r.Right? ==>
              (r.right.complement.None? <==> p.complement.None? || Blank(p.complement.value))
    ensures r.Right? && r.right.complement.Some? ==>
              r.right.complement.value == Trim(p.complement.value)
  {
    match ValidateProps(p)
    case Some(e) => Left(e)
    case None => Right(Normalize(p))
  }

  /** Any blank required text field makes construction fail, at that guard or an earlier one. */
  lemma BlankFieldRejected(p: AddressProps, k: nat)
    requires k < |RequiredText(p)| && Blank(RequiredText(p)[k])
    ensures Create(p).Left?
    ensures Create(p).left.message in Messages[..k + 1]
  {
    assert !GuardHolds(p, k);
    ValidatePropsReportsFirstFailure(p);
    var j :| && 0 <= j < GuardCount && !GuardHolds(p, j)
             && (forall i :: 0 <= i < j ==> GuardHolds(p, i))
             && ValidateProps(p).value == InvalidAddressError(Messages[j]);
    assert j <= k;
    assert Messages[..k + 1][j] == Messages[j];
  }

  /**
   * Once every presence guard passes, construction fails iff the zip code
   * does not have exactly 8 digits, and then with the digit-count message.
   */
  lemma ZipDigitCountDecides(p: AddressProps)
    requires forall k :: 0 <= k < GuardCount - 1 ==> GuardHolds(p, k)
    ensures Create(p).Left? <==> |KeepDigits(p.zipCode)| != 8
    ensures Create(p).Left? ==> Create(p).left.message == ZipCodeLength
  {
    assert GuardHolds(p, 0) && GuardHolds(p, 1) && GuardHolds(p, 2) && GuardHolds(p, 3);
    assert GuardHolds(p, 4) && GuardHolds(p, 5) && GuardHolds(p, 6);
  }

  /** An address given back to `create` comes back unchanged: normalisation is idempotent. */
  lemma CreateOfAddress(a: Address)
    ensures Create(a) == Right(a)
  {
    TrimOfTrimmed(a.street);
    TrimOfTrimmed(a.number);
    TrimOfTrimmed(a.neighborhood);
    TrimOfTrimmed(a.city);
    TrimOfTrimmed(a.state);
    TrimOfTrimmed(a.country);
    KeepDigitsOfDigits(a.zipCode);
    if a.complement.Some? {
      TrimOfTrimmed(a.complement.value);
    }
  }

  /** `formattedZipCode`: five digits, a hyphen, three digits. */
  function FormattedZipCode(a: Address): (r: string)
    ensures |r| == 9 && r[5] == '-'
    ensures r[..5] == a.zipCode[..5] && r[6..] == a.zipCode[5..]
    ensures forall i :: 0 <= i < |r| && i != 5 ==> IsDigit(r[i])
  {
    a.zipCode[..5] + "-" + a.zipCode[5..]
  }

  /** Dropping the hyphen from the formatted zip code gives back the stored digits. */
  lemma FormattedZipCodeRoundTrip(a: Address)
    ensures KeepDigits(FormattedZipCode(a)) == a.zipCode
  {
    var z := a.zipCode;
    var front, back := z[..5], z[5..];
    assert FormattedZipCode(a) == front + ("-" + back);
    assert KeepDigits("-" + back) == back by {
      KeepDigitsAppend("-", back);
      KeepDigitsOfNonDigits("-");
      KeepDigitsOfDigits(back);
    }
    assert KeepDigits(front + ("-" + back)) == front + back by {
      KeepDigitsAppend(front, "-" + back);
      KeepDigitsOfDigits(front);
    }
    assert z == front + back;
  }

  /** `", " + complement` when the complement is truthy, otherwise nothing. */
  function ComplementSegment(c: Option<string>): string {
    match c
    case Some(s) => if s != [] then ", " + s else ""
    case None => ""
  }

  /** `fullAddress`: the canonical one-line rendering. */
  function FullAddress(a: Address): string {
    a.street + ", " + a.number + ComplementSegment(a.complement) + ", " + a.neighborhood
    + ", " + a.city + " - " + a.state + ", " + FormattedZipCode(a) + ", " + a.country
  }

  /**
   * Reference definition of joining `parts` with `sep` between consecutive
   * parts; `FullAddress` is proved equal to the segments joined this way.
   */
  function Join(sep: string, parts: seq<string>): string {
    if |parts| == 0 then ""
    else if |parts| == 1 then parts[0]
    else Join(sep, parts[..|parts| - 1]) + sep + parts[|parts| - 1]
  }

  /** The comma-separated segments of the full address; the complement is one iff present. */
  function Segments(a: Address): seq<string> {
    [a.street, a.number]
    + (if a.complement.Some? then [a.complement.value] else [])
    + [a.neighborhood, a.city + " - " + a.state, FormattedZipCode(a), a.country]
  }

  /** Joining one more part appends one separator and the part. */
  lemma JoinSnoc(sep: string, init: seq<string>, x: string)
    requires init != []
    ensures Join(sep, init + [x]) == Join(sep, init) + sep + x
  {
    assert (init + [x])[..|init|] == init;
  }

  /** The full address is exactly its segments joined by `", "`: no stray punctuation. */
  lemma FullAddressJoinsSegments(a: Address)
    ensures FullAddress(a) == Join(", ", Segments(a))
    ensures |Segments(a)| == if a.complement.Some? then 7 else 6
  {
    var sep := ", ";
    var head: seq<string> := [a.street, a.number];
    assert Join(sep, [a.street]) == a.street;
    JoinSnoc(sep, [a.street], a.number);
    assert [a.street] + [a.number] == head;
    var prefix := a.street + sep + a.number;
    var numbered := head + (if a.complement.Some? then [a.complement.value] else []);
    if a.complement.Some? {
      JoinSnoc(sep, head, a.complement.value);
      assert Join(sep, numbered) == prefix + ComplementSegment(a.complement);
    } else {
      assert numbered == head;
      assert prefix == prefix + ComplementSegment(a.complement);
    }
    var cityState := a.city + " - " + a.state;
    var z := FormattedZipCode(a);
    JoinSnoc(sep, numbered, a.neighborhood);
    JoinSnoc(sep, numbered + [a.neighborhood], cityState);
    JoinSnoc(sep, numbered + [a.neighborhood] + [cityState], z);
    JoinSnoc(sep, numbered + [a.neighborhood] + [cityState] + [z], a.country);
    assert Segments(a) == numbered + [a.neighborhood] + [cityState] + [z] + [a.country];
    var x := prefix + ComplementSegment(a.complement) + sep + a.neighborhood + sep;
    assert x + cityState == x + a.city + " - " + a.state;
  }

  /**
   * The complement adds `", " + complement` right after the number and
   * changes nothing else in the full address.
   */
  lemma FullAddressComplementInsertion(a: Address)
    requires a.complement.Some?
    ensures var bare := FullAddress(a.(complement := None));
            var k := |a.street| + 2 + |a.number|;
            k <= |bare| && FullAddress(a) == bare[..k] + ", " + a.complement.value + bare[k..]
  {
    var rest := ", " + a.neighborhood + ", " + a.city + " - " + a.state + ", "
                + FormattedZipCode(a) + ", " + a.country;
    var head := a.street + ", " + a.number;
    var b: Address := a.(complement := None);
    assert FormattedZipCode(b) == FormattedZipCode(a);
    assert FullAddress(b) == head + rest;
    assert FullAddress(a) == head + (", " + a.complement.value) + rest;
    assert (head + rest)[..|head|] == head;
    assert (head + rest)[|head|..] == rest;
  }

  /** `toString()` renders the full address: the segments joined by `", "`. */
  function ToString(a: Address): (r: string)
    ensures r == Join(", ", Segments(a))
  {
    FullAddressJoinsSegments(a);
    FullAddress(a)
  }

  /** Whatever `equals` may be handed: an `Address` or any other value (`null`, `{}`, a string). */
  datatype Operand = AnAddress(address: Address) | NotAnAddress

  /** `equals`: field-by-field comparison, false for anything that is not an `Address`. */
  function Equals(a: Address, other: Operand): (r: bool)
    ensures r <==> other == AnAddress(a)
  {
    match other
    case NotAnAddress => false
    case AnAddress(b) =>
      && a.street == b.street && a.number == b.number && a.complement == b.complement
      && a.neighborhood == b.neighborhood && a.city == b.city && a.state == b.state
      && a.zipCode == b.zipCode && a.country == b.country
  }

  /** `equals` is reflexive and symmetric. */
  lemma EqualsIsEquivalence(a: Address, b: Address)
    ensures Equals(a, AnAddress(a))
    ensures Equals(a, AnAddress(b)) == Equals(b, AnAddress(a))
  {
  }

  /** Two constructions denote equal addresses iff their normalised inputs agree. */
  lemma CreatedAddressesEqual(p: AddressProps, q: AddressProps)
    requires Create(p).Right? && Create(q).Right?
    ensures Equals(Create(p).right, AnAddress(Create(q).right)) <==> Normalize(p) == Normalize(q)
  {
  }
}
