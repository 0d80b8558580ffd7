/**
 * Worked examples of the `Address` value object: each lemma pins the
 * model to one concrete input of the address test suite and the outcome
 * the suite expects.
 *
 * Facts about single literal strings are proved in small lemmas of their
 * own and only combined afterwards, so that no proof has to evaluate many
 * literal strings at once.
 */
module AddressExamples {
  import opened Core
  import opened Text
  import opened Addresses

  /** The sample address of the suite, with the street, complement and zip code varied. */
  function Sample(street: string, complement: Option<string>, zipCode: string): AddressProps {
    AddressProps(street, "123", complement, "Centro", "São Paulo", "SP", zipCode, "Brasil")
  }

  /**
   * Corollary of `ZipDigitCountDecides`, with the presence guards spelt out
   * field by field so that literal inputs can discharge them one at a time.
   */
  lemma CreateOfPresentFields(p: AddressProps)
    requires !Blank(p.street) && !Blank(p.number) && !Blank(p.neighborhood) && !Blank(p.city)
    requires !Blank(p.state) && !Blank(p.zipCode) && !Blank(p.country)
    ensures Create(p).Left? <==> |KeepDigits(p.zipCode)| != 8
    ensures Create(p).Left? ==> Create(p).left == InvalidAddressError(ZipCodeLength)
  {
    forall k | 0 <= k < GuardCount - 1 ensures GuardHolds(p, k) { }
    ZipDigitCountDecides(p);
  }

  /**
   * `create` succeeds with `q` when `q` holds the trimmed texts, the
   * normalised complement and an 8-digit strip of the zip code of `p`.
   */
  lemma CreateYields(p: AddressProps, q: AddressProps)
    requires Trim(p.street) == q.street && Trim(p.number) == q.number
    requires Trim(p.neighborhood) == q.neighborhood && Trim(p.city) == q.city
    requires Trim(p.state) == q.state && Trim(p.country) == q.country
    requires NormalizeComplement(p.complement) == q.complement
    requires KeepDigits(p.zipCode) == q.zipCode && |q.zipCode| == 8
    requires Trim(p.zipCode) != []
    requires q.street != [] && q.number != [] && q.neighborhood != [] && q.city != []
    requires q.state != [] && q.country != []
    ensures Create(p) == Right(q)
  {
  }

  // ---- Facts about single literals of the suite ----

  lemma StreetKept() ensures Trim("Rua das Flores") == "Rua das Flores" { TrimOfTrimmed("Rua das Flores"); }
  lemma NumberKept() ensures Trim("123") == "123" { TrimOfTrimmed("123"); }
  lemma ComplementKept() ensures Trim("Apto 45") == "Apto 45" { TrimOfTrimmed("Apto 45"); }
  lemma NeighborhoodKept() ensures Trim("Centro") == "Centro" { TrimOfTrimmed("Centro"); }
  lemma CityKept() ensures Trim("São Paulo") == "São Paulo" { TrimOfTrimmed("São Paulo"); }
  lemma StateKept() ensures Trim("SP") == "SP" { TrimOfTrimmed("SP"); }
  lemma CountryKept() ensures Trim("Brasil") == "Brasil" { TrimOfTrimmed("Brasil"); }
  lemma PlainZipKept() ensures Trim("01234567") == "01234567" { TrimOfTrimmed("01234567"); }
  lemma HyphenatedZipKept() ensures Trim("01234-567") == "01234-567" { TrimOfTrimmed("01234-567"); }
  lemma DottedZipKept() ensures Trim("012.34-567") == "012.34-567" { TrimOfTrimmed("012.34-567"); }
  lemma ShortZipKept() ensures Trim("0123456") == "0123456" { TrimOfTrimmed("0123456"); }
  lemma LongZipKept() ensures Trim("012345678") == "012345678" { TrimOfTrimmed("012345678"); }
  lemma PlainZipDigits() ensures KeepDigits("01234567") == "01234567" { KeepDigitsOfDigits("01234567"); }
  lemma ShortZipDigits() ensures KeepDigits("0123456") == "0123456" { KeepDigitsOfDigits("0123456"); }
  lemma LongZipDigits() ensures KeepDigits("012345678") == "012345678" { KeepDigitsOfDigits("012345678"); }

  /** The fields the sample shares with every test are kept by `trim`. */
  lemma SharedFieldsKept()
    ensures Trim("123") == "123" && Trim("Centro") == "Centro" && Trim("São Paulo") == "São Paulo"
    ensures Trim("SP") == "SP" && Trim("Brasil") == "Brasil"
  {
    NumberKept(); NeighborhoodKept(); CityKept(); StateKept(); CountryKept();
  }

  lemma SampleTextsTrimmed()
    ensures IsTrimmed("Rua das Flores") && IsTrimmed("123") && IsTrimmed("Apto 45") && IsTrimmed("Centro")
    ensures IsTrimmed("São Paulo") && IsTrimmed("SP") && IsTrimmed("Brasil") && IsTrimmed("01234-567")
  {
  }

  lemma HyphenatedZipSplit()
    ensures "01234-567" == "01234" + "-" + "567"
  {
  }

  lemma HyphenatedZipParts()
    ensures KeepDigits("01234") == "01234" && KeepDigits("-") == [] && KeepDigits("567") == "567"
  {
  }

  lemma HyphenJoin()
    ensures "01234" + [] + "567" == "01234567"
  {
  }

  /** The hyphen is stripped from the hyphenated zip code. */
  lemma HyphenatedZipDigits()
    ensures KeepDigits("01234-567") == "01234567"
  {
    HyphenatedZipSplit();
    HyphenatedZipParts();
    KeepDigitsAppend("01234" + "-", "567");
    KeepDigitsAppend("01234", "-");
    HyphenJoin();
  }

  lemma DottedZipSplit()
    ensures "012.34-567" == "012" + "." + "34" + "-" + "567"
  {
  }

  lemma DottedZipParts()
    ensures KeepDigits("012") == "012" && KeepDigits(".") == [] && KeepDigits("34") == "34"
    ensures KeepDigits("-") == [] && KeepDigits("567") == "567"
  {
  }

  lemma DigitsJoin()
    ensures "012" + [] + "34" + [] + "567" == "01234567"
  {
  }

  /** Dots and hyphens are both stripped from the zip code. */
  lemma DottedZipDigits()
    ensures KeepDigits("012.34-567") == "01234567"
  {
    DottedZipSplit();
    DottedZipParts();
    KeepDigitsAppend("012" + "." + "34" + "-", "567");
    KeepDigitsAppend("012" + "." + "34", "-");
    KeepDigitsAppend("012" + ".", "34");
    KeepDigitsAppend("012", ".");
    DigitsJoin();
  }

  lemma Spaces()
    ensures AllWhitespace("  ") && AllWhitespace("   ") && KeepDigits("  ") == []
  {
  }

  /** Two blanks on either side of a trimmed text are cut off again. */
  lemma PaddedTrim(t: string)
    requires IsTrimmed(t)
    ensures Trim("  " + t + "  ") == t
  {
    Spaces();
    TrimUnique("  ", t, "  ");
  }

  lemma PaddedStreetSplit() ensures "  " + "Rua das Flores" + "  " == "  Rua das Flores  " { }
  lemma PaddedStreetTrimmed() ensures Trim("  Rua das Flores  ") == "Rua das Flores" {
    SampleTextsTrimmed();
    PaddedStreetSplit();
    PaddedTrim("Rua das Flores");
  }

  lemma PaddedNumberSplit() ensures "  " + "123" + "  " == "  123  " { }
  lemma PaddedNumberTrimmed() ensures Trim("  123  ") == "123" {
    SampleTextsTrimmed();
    PaddedNumberSplit();
    PaddedTrim("123");
  }

  lemma PaddedComplementSplit() ensures "  " + "Apto 45" + "  " == "  Apto 45  " { }
  lemma PaddedComplementTrimmed() ensures Trim("  Apto 45  ") == "Apto 45" {
    SampleTextsTrimmed();
    PaddedComplementSplit();
    PaddedTrim("Apto 45");
  }

  lemma PaddedNeighborhoodSplit() ensures "  " + "Centro" + "  " == "  Centro  " { }
  lemma PaddedNeighborhoodTrimmed() ensures Trim("  Centro  ") == "Centro" {
    SampleTextsTrimmed();
    PaddedNeighborhoodSplit();
    PaddedTrim("Centro");
  }

  lemma PaddedCitySplit() ensures "  " + "São Paulo" + "  " == "  São Paulo  " { }
  lemma PaddedCityTrimmed() ensures Trim("  São Paulo  ") == "São Paulo" {
    SampleTextsTrimmed();
    PaddedCitySplit();
    PaddedTrim("São Paulo");
  }

  lemma PaddedStateSplit() ensures "  " + "SP" + "  " == "  SP  " { }
  lemma PaddedStateTrimmed() ensures Trim("  SP  ") == "SP" {
    SampleTextsTrimmed();
    PaddedStateSplit();
    PaddedTrim("SP");
  }

  lemma PaddedZipSplit() ensures "  " + "01234-567" + "  " == "  01234-567  " { }
  lemma PaddedZipTrimmed() ensures Trim("  01234-567  ") == "01234-567" {
    SampleTextsTrimmed();
    PaddedZipSplit();
    PaddedTrim("01234-567");
  }

  lemma PaddedCountrySplit() ensures "  " + "Brasil" + "  " == "  Brasil  " { }
  lemma PaddedCountryTrimmed() ensures Trim("  Brasil  ") == "Brasil" {
    SampleTextsTrimmed();
    PaddedCountrySplit();
    PaddedTrim("Brasil");
  }

  /** The padded zip code strips to its eight digits. */
  lemma PaddedZipDigits()
    ensures KeepDigits("  01234-567  ") == "01234567"
  {
    PaddedZipSplit();
    Spaces();
    HyphenatedZipDigits();
    KeepDigitsAppend("  " + "01234-567", "  ");
    KeepDigitsAppend("  ", "01234-567");
  }

  // ---- Creation ----

  /** A valid address with a hyphenated zip code is stored with that zip code's digits. */
  lemma CreateValidAddress()
    ensures Create(Sample("Rua das Flores", Some("Apto 45"), "01234-567"))
            == Right(Sample("Rua das Flores", Some("Apto 45"), "01234567"))
  {
    StreetKept();
    SharedFieldsKept();
    ComplementKept();
    HyphenatedZipKept();
    HyphenatedZipDigits();
    CreateYields(Sample("Rua das Flores", Some("Apto 45"), "01234-567"),
                 Sample("Rua das Flores", Some("Apto 45"), "01234567"));
  }

  /** An absent complement stays absent. */
  lemma CreateWithoutComplement()
    ensures Create(Sample("Rua das Flores", None, "01234567")) == Right(Sample("Rua das Flores", None, "01234567"))
  {
    StreetKept();
    SharedFieldsKept();
    PlainZipKept();
    PlainZipDigits();
    CreateYields(Sample("Rua das Flores", None, "01234567"),
                 Sample("Rua das Flores", None, "01234567"));
  }

  /** Surrounding blanks are trimmed from every field, and the zip code keeps its digits. */
  lemma CreateTrimsFields()
    ensures Create(AddressProps("  Rua das Flores  ", "  123  ", Some("  Apto 45  "), "  Centro  ",
                                "  São Paulo  ", "  SP  ", "  01234-567  ", "  Brasil  "))
            == Right(Sample("Rua das Flores", Some("Apto 45"), "01234567"))
  {
    PaddedStreetTrimmed();
    PaddedNumberTrimmed();
    PaddedComplementTrimmed();
    PaddedNeighborhoodTrimmed();
    PaddedCityTrimmed();
    PaddedStateTrimmed();
    PaddedZipTrimmed();
    PaddedCountryTrimmed();
    PaddedZipDigits();
    CreateYields(AddressProps("  Rua das Flores  ", "  123  ", Some("  Apto 45  "), "  Centro  ",
                              "  São Paulo  ", "  SP  ", "  01234-567  ", "  Brasil  "),
                 Sample("Rua das Flores", Some("Apto 45"), "01234567"));
  }

  /** Dots and hyphens are stripped from the zip code. */
  lemma CreateStripsZipPunctuation()
    ensures Create(Sample("Rua das Flores", None, "012.34-567")) == Right(Sample("Rua das Flores", None, "01234567"))
  {
    StreetKept();
    SharedFieldsKept();
    DottedZipKept();
    DottedZipDigits();
    CreateYields(Sample("Rua das Flores", None, "012.34-567"),
                 Sample("Rua das Flores", None, "01234567"));
  }

  lemma BlankComplementDropped() ensures NormalizeComplement(Some("   ")) == None {
    assert AllWhitespace("   ");
  }

  /** A whitespace-only complement is stored as absent. */
  lemma CreateDropsBlankComplement()
    ensures Create(Sample("Rua das Flores", Some("   "), "01234567")) == Right(Sample("Rua das Flores", None, "01234567"))
  {
    StreetKept();
    SharedFieldsKept();
    PlainZipKept();
    PlainZipDigits();
    BlankComplementDropped();
    CreateYields(Sample("Rua das Flores", Some("   "), "01234567"),
                 Sample("Rua das Flores", None, "01234567"));
  }

  // ---- Rendering ----

  lemma FormattedZipCodeExample()
    ensures FormattedZipCode(Sample("Rua das Flores", None, "01234567")) == "01234-567"
  {
  }

  lemma FormattedZipCodeWithComplement()
    ensures FormattedZipCode(Sample("Rua das Flores", Some("Apto 45"), "01234567")) == "01234-567"
  {
  }

  lemma RenderHeadWithComplement()
    ensures "Rua das Flores" + ", " + "123" + (", " + "Apto 45") == "Rua das Flores, 123, Apto 45"
  {
  }

  lemma RenderMiddleWithComplement()
    ensures "Rua das Flores, 123, Apto 45" + ", " + "Centro" + ", " + "São Paulo"
            == "Rua das Flores, 123, Apto 45, Centro, São Paulo"
  {
  }

  lemma RenderStateWithComplement()
    ensures "Rua das Flores, 123, Apto 45, Centro, São Paulo" + " - " + "SP" + ", "
            == "Rua das Flores, 123, Apto 45, Centro, São Paulo - SP, "
  {
  }

  lemma RenderTailWithComplement()
    ensures "Rua das Flores, 123, Apto 45, Centro, São Paulo - SP, " + "01234-567" + ", " + "Brasil"
            == "Rua das Flores, 123, Apto 45, Centro, São Paulo - SP, 01234-567, Brasil"
  {
  }

  lemma FullAddressWithComplement()
    ensures FullAddress(Sample("Rua das Flores", Some("Apto 45"), "01234567"))
            == "Rua das Flores, 123, Apto 45, Centro, São Paulo - SP, 01234-567, Brasil"
  {
    FormattedZipCodeWithComplement();
    RenderHeadWithComplement();
    RenderMiddleWithComplement();
    RenderStateWithComplement();
    RenderTailWithComplement();
  }

  /** `toString()` gives the same text as `fullAddress`. */
  lemma ToStringIsFullAddress()
    ensures ToString(Sample("Rua das Flores", Some("Apto 45"), "01234567"))
            == FullAddress(Sample("Rua das Flores", Some("Apto 45"), "01234567"))
  {
    FullAddressJoinsSegments(Sample("Rua das Flores", Some("Apto 45"), "01234567"));
  }

  lemma RenderHead()
    ensures "Rua das Flores" + ", " + "123" + "" + ", " + "Centro" == "Rua das Flores, 123, Centro"
  {
  }

  lemma RenderState()
    ensures "Rua das Flores, 123, Centro" + ", " + "São Paulo" + " - " + "SP" + ", "
            == "Rua das Flores, 123, Centro, São Paulo - SP, "
  {
  }

  lemma RenderTail()
    ensures "Rua das Flores, 123, Centro, São Paulo - SP, " + "01234-567" + ", " + "Brasil"
            == "Rua das Flores, 123, Centro, São Paulo - SP, 01234-567, Brasil"
  {
  }

  lemma FullAddressWithoutComplement()
    ensures FullAddress(Sample("Rua das Flores", None, "01234567"))
            == "Rua das Flores, 123, Centro, São Paulo - SP, 01234-567, Brasil"
  {
    FormattedZipCodeExample();
    RenderHead();
    RenderState();
    RenderTail();
  }

  // ---- Validation ----

  /** An empty or whitespace-only street is the first thing reported. */
  lemma EmptyStreetRejected()
    ensures Create(Sample("", None, "01234567")) == Left(InvalidAddressError("Street is required"))
    ensures Create(Sample("   ", None, "01234567")) == Left(InvalidAddressError("Street is required"))
  {
    Spaces();
  }

  lemma EmptyNumberRejected()
    ensures Create(AddressProps("Rua das Flores", "", None, "Centro", "São Paulo", "SP", "01234567", "Brasil"))
            == Left(InvalidAddressError("Number is required"))
  {
    StreetKept();
  }

  lemma EmptyNeighborhoodRejected()
    ensures Create(AddressProps("Rua das Flores", "123", None, "", "São Paulo", "SP", "01234567", "Brasil"))
            == Left(InvalidAddressError("Neighborhood is required"))
  {
    StreetKept();
    NumberKept();
  }

  lemma EmptyCityRejected()
    ensures Create(AddressProps("Rua das Flores", "123", None, "Centro", "", "SP", "01234567", "Brasil"))
            == Left(InvalidAddressError("City is required"))
  {
    StreetKept();
    NumberKept();
    NeighborhoodKept();
  }

  lemma EmptyStateRejected()
    ensures Create(AddressProps("Rua das Flores", "123", None, "Centro", "São Paulo", "", "01234567", "Brasil"))
            == Left(InvalidAddressError("State is required"))
  {
    StreetKept();
    NumberKept();
    NeighborhoodKept();
    CityKept();
  }

  lemma EmptyZipCodeRejected()
    ensures Create(Sample("Rua das Flores", None, "")) == Left(InvalidAddressError("Zip code is required"))
  {
    StreetKept();
    NumberKept();
    NeighborhoodKept();
    CityKept();
    StateKept();
  }

  lemma EmptyCountryRejected()
    ensures Create(AddressProps("Rua das Flores", "123", None, "Centro", "São Paulo", "SP", "01234567", ""))
            == Left(InvalidAddressError("Country is required"))
  {
    StreetKept();
    NumberKept();
    NeighborhoodKept();
    CityKept();
    StateKept();
    PlainZipKept();
  }

  /** Seven digits are rejected with the digit-count message. */
  lemma SevenDigitZipRejected()
    ensures Create(Sample("Rua das Flores", None, "0123456")) == Left(InvalidAddressError("Zip code must have 8 digits"))
  {
    StreetKept();
    SharedFieldsKept();
    ShortZipKept();
    ShortZipDigits();
    CreateOfPresentFields(Sample("Rua das Flores", None, "0123456"));
  }

  /** Nine digits are rejected with the digit-count message. */
  lemma NineDigitZipRejected()
    ensures Create(Sample("Rua das Flores", None, "012345678")) == Left(InvalidAddressError("Zip code must have 8 digits"))
  {
    StreetKept();
    SharedFieldsKept();
    LongZipKept();
    LongZipDigits();
    CreateOfPresentFields(Sample("Rua das Flores", None, "012345678"));
  }

  // ---- Equality ----

  /**
   * Equal for identical fields; unequal for another street, another
   * complement, a missing complement, and any operand that is not an address.
   */
  lemma EqualityExamples()
    ensures Equals(Sample("Rua das Flores", Some("Apto 45"), "01234567"),
                   AnAddress(Sample("Rua das Flores", Some("Apto 45"), "01234567")))
    ensures !Equals(Sample("Rua das Flores", None, "01234567"),
                    AnAddress(Sample("Rua das Rosas", None, "01234567")))
    ensures !Equals(Sample("Rua das Flores", Some("Apto 45"), "01234567"),
                    AnAddress(Sample("Rua das Flores", Some("Apto 46"), "01234567")))
    ensures !Equals(Sample("Rua das Flores", Some("Apto 45"), "01234567"),
                    AnAddress(Sample("Rua das Flores", None, "01234567")))
    ensures !Equals(Sample("Rua das Flores", None, "01234567"), NotAnAddress)
  {
  }

  /** Unequal for another number. */
  lemma DifferentNumbersUnequal()
    ensures !Equals(Sample("Rua das Flores", None, "01234567"),
                    AnAddress(AddressProps("Rua das Flores", "456", None, "Centro", "São Paulo", "SP", "01234567", "Brasil")))
  {
  }
}
