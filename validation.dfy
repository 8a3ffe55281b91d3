/** The event form schema: one check per field, each with its own message.
    A field that fails gets the message of its first failing check; the
    form is accepted when no field fails. The URL format check is a
    parameter (`isUrl`). */
module Validation {
  import opened Wrappers
  import Models

  /** A `Date` object: its identity and the instant it holds. */
  datatype DateRef = DateRef(obj: nat, instant: Models.Time)

  /** The values the event form holds. */
  datatype EventValues = EventValues(
    title: string, description: string, location: string, url: string,
    imageUrl: string, price: Models.Money, category: string, isFree: bool,
    startDateTime: Option<DateRef>, endDateTime: Option<DateRef>)

  datatype Field =
    | Title | Description | Location | Url | ImageUrl | Price | CategoryName
    | IsFree | StartDateTime | EndDateTime

  const AllFields: set<Field> :=
    {Title, Description, Location, Url, ImageUrl, Price, CategoryName, IsFree, StartDateTime, EndDateTime}

  const MaxPrice: Models.Money := 10000000000.0

  const TitleTooShort := "Title must be at least 3 characters"
  const TitleTooLong := "Title must be less than 40 characters"
  const DescriptionTooShort := "Description must be at least 10 characters"
  const DescriptionTooLong := "Description must be less than 400 characters"
  const LocationTooShort := "Location must be at least 3 characters"
  const LocationTooLong := "Location must be less than 150 characters"
  const InvalidUrl := "Invalid URL"
  const InvalidImageUrl := "Invalid image URL"
  const PriceTooHigh := "ARE YOU SERIOUS? Price must be less than 10000000000."
  const CategoryTooShort := "Category must be at least 3 characters"
  const CategoryTooLong := "Category must be less than 35 characters"
  const StartRequired := "Start date and time is required"
  const EndRequired := "End date and time is required"

  /** `z.string().min(lo).max(hi)`: the message of the first bound broken. */
  function LengthIssue(s: string, lo: nat, hi: nat, tooShort: string, tooLong: string): (r: Option<string>)
    requires lo <= hi
    ensures r.None? <==> lo <= |s| <= hi
    ensures |s| < lo ==> r == Some(tooShort)
    ensures |s| > hi ==> r == Some(tooLong)
  {
    if |s| < lo then Some(tooShort) else if |s| > hi then Some(tooLong) else None
  }

  /** The message for one field, if it fails. */
  function Issue(v: EventValues, isUrl: string -> bool, f: Field): Option<string>
  {
    match f
    case Title => LengthIssue(v.title, 3, 40, TitleTooShort, TitleTooLong)
    case Description => LengthIssue(v.description, 10, 400, DescriptionTooShort, DescriptionTooLong)
    case Location => LengthIssue(v.location, 3, 150, LocationTooShort, LocationTooLong)
    case Url => if isUrl(v.url) then None else Some(InvalidUrl)
    case ImageUrl => if isUrl(v.imageUrl) then None else Some(InvalidImageUrl)
    case Price => if v.price <= MaxPrice then None else Some(PriceTooHigh)
    case CategoryName => LengthIssue(v.category, 3, 35, CategoryTooShort, CategoryTooLong)
    case IsFree => None
    case StartDateTime => if v.startDateTime.Some? then None else Some(StartRequired)
    case EndDateTime => if v.endDateTime.Some? then None else Some(EndRequired)
  }

  /** The errors the resolver reports: field to message. */
  function Validate(v: EventValues, isUrl: string -> bool): (errs: map<Field, string>)
    ensures forall f :: f in errs <==> Issue(v, isUrl, f).Some?
    ensures forall f :: f in errs ==> Some(errs[f]) == Issue(v, isUrl, f)
  {
    map f | f in AllFields && Issue(v, isUrl, f).Some? :: Issue(v, isUrl, f).value
  }

  /** Which fields the resolver rejects: each bound of the schema, both ways. */
  lemma ValidateBounds(v: EventValues, isUrl: string -> bool)
    ensures var errs := Validate(v, isUrl);
            && (Title !in errs <==> 3 <= |v.title| <= 40)
            && (Description !in errs <==> 10 <= |v.description| <= 400)
            && (Location !in errs <==> 3 <= |v.location| <= 150)
            && (CategoryName !in errs <==> 3 <= |v.category| <= 35)
            && (Url !in errs <==> isUrl(v.url))
            && (ImageUrl !in errs <==> isUrl(v.imageUrl))
            && (Price !in errs <==> v.price <= MaxPrice)
            && IsFree !in errs
            && (StartDateTime !in errs <==> v.startDateTime.Some?)
            && (EndDateTime !in errs <==> v.endDateTime.Some?)
  {
  }

  /** The message each rejected field shows. */
  lemma ValidateMessages(v: EventValues, isUrl: string -> bool)
    ensures var errs := Validate(v, isUrl);
            && (Title in errs ==> errs[Title] == if |v.title| < 3 then TitleTooShort else TitleTooLong)
            && (Description in errs ==>
                  errs[Description] == if |v.description| < 10 then DescriptionTooShort else DescriptionTooLong)
            && (Location in errs ==>
                  errs[Location] == if |v.location| < 3 then LocationTooShort else LocationTooLong)
            && (CategoryName in errs ==>
                  errs[CategoryName] == if |v.category| < 3 then CategoryTooShort else CategoryTooLong)
            && (Url in errs ==> errs[Url] == InvalidUrl)
            && (ImageUrl in errs ==> errs[ImageUrl] == InvalidImageUrl)
            && (Price in errs ==> errs[Price] == PriceTooHigh)
            && (StartDateTime in errs ==> errs[StartDateTime] == StartRequired)
            && (EndDateTime in errs ==> errs[EndDateTime] == EndRequired)
  {
    var errs := Validate(v, isUrl);
    assert Title in errs ==> Some(errs[Title]) == Issue(v, isUrl, Title);
    assert Description in errs ==> Some(errs[Description]) == Issue(v, isUrl, Description);
    assert Location in errs ==> Some(errs[Location]) == Issue(v, isUrl, Location);
    assert CategoryName in errs ==> Some(errs[CategoryName]) == Issue(v, isUrl, CategoryName);
  }

  /** The form may be submitted. */
  predicate Accepts(v: EventValues, isUrl: string -> bool)
  {
    Validate(v, isUrl) == map[]
  }

  /** Acceptance is exactly the conjunction of the field bounds. */
  lemma AcceptsIff(v: EventValues, isUrl: string -> bool)
    ensures Accepts(v, isUrl) <==>
      && 3 <= |v.title| <= 40 && 10 <= |v.description| <= 400 && 3 <= |v.location| <= 150
      && 3 <= |v.category| <= 35 && isUrl(v.url) && isUrl(v.imageUrl) && v.price <= MaxPrice
      && v.startDateTime.Some? && v.endDateTime.Some?
  {
    ValidateBounds(v, isUrl);
    var errs := Validate(v, isUrl);
    if !Accepts(v, isUrl) {
      var f :| f in errs;
      assert Issue(v, isUrl, f).Some?;
    }
  }

  /** A form with the given price and dates and every other field in range. */
  function Sample(price: Models.Money, start: DateRef, end: DateRef): EventValues
  {
    EventValues("Meetup", "An evening of talks", "Berlin", "u", "i", price, "Tech", false,
                Some(start), Some(end))
  }

  /** There is no lower bound on the price: a negative price is accepted. */
  lemma NegativePriceAccepted(isUrl: string -> bool)
    requires isUrl("u") && isUrl("i")
    ensures Accepts(Sample(-5.0, DateRef(0, 0), DateRef(1, 10)), isUrl)
  {
    AcceptsIff(Sample(-5.0, DateRef(0, 0), DateRef(1, 10)), isUrl);
  }

  /** The schema does not compare the dates: a start after the end is accepted. */
  lemma StartAfterEndAccepted(isUrl: string -> bool)
    requires isUrl("u") && isUrl("i")
    ensures Accepts(Sample(20.0, DateRef(0, 10), DateRef(1, 0)), isUrl)
  {
    AcceptsIff(Sample(20.0, DateRef(0, 10), DateRef(1, 0)), isUrl);
  }

  /** A missing date is reported on its own field. */
  lemma MissingDateRejected(v: EventValues, isUrl: string -> bool)
    requires v.startDateTime.None?
    ensures !Accepts(v, isUrl) && Validate(v, isUrl)[StartDateTime] == StartRequired
  {
    assert StartDateTime in Validate(v, isUrl);
  }
}
