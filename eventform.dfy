/** The event form: its default values, the "unchanged" test for edits, and
    what a submit does. A submit is refused while one is in flight and when
    the dates are out of order or are one and the same `Date` object;
    otherwise `isFree` is derived from the price, the uploaded image (if any)
    replaces the image URL, and a create or update request is issued. */
module EventForm {
  import opened Wrappers
  import opened Validation

  datatype FormType = Create | Update

  /** The initial price when the event being edited has a falsy price. */
  const DefaultPrice: Models.Money := 100.0

  const StartAfterEnd := "Start date and time must be before end date and time"
  const SameDates := "Start date and time must be different"

  /** `initialValues?.x || default` for every field: strings default to "",
      a price of 0 to 100, `isFree` to false and the dates to undefined.
      (An empty string or false is already its own default.) */
  function DefaultValues(init: Option<EventValues>): (d: EventValues)
    ensures init.None? ==> d == EventValues("", "", "", "", "", DefaultPrice, "", false, None, None)
    ensures init.Some? ==> d.(price := init.value.price) == init.value
    ensures init.Some? && init.value.price != 0.0 ==> d.price == init.value.price
    ensures init.Some? && init.value.price == 0.0 ==> d.price == DefaultPrice
    ensures d.price != 0.0
  {
    match init
    case None => EventValues("", "", "", "", "", DefaultPrice, "", false, None, None)
    case Some(v) => v.(price := if v.price == 0.0 then DefaultPrice else v.price)
  }

  /** Editing with no dirty field. */
  predicate IsFormUnchanged(kind: FormType, dirty: set<Field>)
  {
    kind == Update && dirty == {}
  }

  /** The date checks of `onSubmit`, in order: start after end, then the two
      values being the same `Date` object (identity, not instant). */
  function DateError(v: EventValues): (r: Option<string>)
    ensures r == Some(StartAfterEnd) <==>
      v.startDateTime.Some? && v.endDateTime.Some? && v.startDateTime.value.instant > v.endDateTime.value.instant
    ensures r == Some(SameDates) <==>
      && v.startDateTime.Some? && v.endDateTime.Some?
      && v.startDateTime.value.instant <= v.endDateTime.value.instant
      && v.startDateTime.value.obj == v.endDateTime.value.obj
    ensures r.None? || r == Some(StartAfterEnd) || r == Some(SameDates)
  {
    if v.startDateTime.Some? && v.endDateTime.Some? && v.startDateTime.value.instant > v.endDateTime.value.instant then
      Some(StartAfterEnd)
    else if v.startDateTime.Some? && v.endDateTime.Some? && v.startDateTime.value.obj == v.endDateTime.value.obj then
      Some(SameDates)
    else
      None
  }

  /** Two different `Date` objects for the same instant pass both checks. */
  lemma SameInstantDistinctObjectsPass(v: EventValues, t: Models.Time)
    requires v.startDateTime == Some(DateRef(1, t)) && v.endDateTime == Some(DateRef(2, t))
    ensures DateError(v).None?
  {
  }

  /** What the image upload gave. */
  datatype Upload = NoFiles | Uploaded(urls: seq<string>) | UploadFailed

  /** The first uploaded URL if there is one; the old URL otherwise,
      including after a failed upload. */
  function ResolveImageUrl(current: string, upload: Upload): (r: string)
    ensures upload.Uploaded? && |upload.urls| > 0 ==> r == upload.urls[0]
    ensures !(upload.Uploaded? && |upload.urls| > 0) ==> r == current
  {
    match upload
    case Uploaded(urls) => if |urls| > 0 then urls[0] else current
    case _ => current
  }

  /** The event sent with the request: `isFree` is `price == 0`, whatever the
      checkbox said, a free event has price 0, and the image URL is resolved. */
  function Normalize(v: EventValues, upload: Upload): (r: EventValues)
  {
    var isFree := v.price == 0.0;
    v.(isFree := isFree, price := if isFree then 0.0 else v.price,
       imageUrl := ResolveImageUrl(v.imageUrl, upload))
  }

  /** Normalizing decides `isFree` from the price alone, keeps the price, and
      changes nothing else but the image URL. */
  lemma NormalizeContract(v: EventValues, upload: Upload)
    ensures var r := Normalize(v, upload);
            && (r.isFree <==> v.price == 0.0)
            && r.price == v.price
            && r.(imageUrl := v.imageUrl, isFree := v.isFree) == v
  {
  }

  /** Editing a free event (price 0) without touching the price resubmits it
      as a paid event at 100. */
  lemma FreeEventResubmittedAtDefaultPrice(init: EventValues, upload: Upload)
    requires init.price == 0.0 && init.isFree
    ensures var submitted := Normalize(DefaultValues(Some(init)), upload);
            !submitted.isFree && submitted.price == DefaultPrice
  {
  }

  /** The server call a submit makes. */
  datatype Request =
    | NoRequest
    | CreateRequest(userId: string, event: EventValues)
    | UpdateRequest(userId: string, eventId: string, event: EventValues)

  /** Create is always sent; update only with a (non-empty) event id and at
      least one dirty field. */
  function RequestFor(kind: FormType, userId: string, eventId: Option<string>, dirty: set<Field>,
                      event: EventValues): (r: Request)
    ensures kind == Create ==> r == CreateRequest(userId, event)
    ensures r.UpdateRequest? <==> kind == Update && eventId.Some? && eventId.value != "" && dirty != {}
    ensures r.UpdateRequest? ==> r == UpdateRequest(userId, eventId.value, event)
    ensures kind == Update && IsFormUnchanged(kind, dirty) ==> r == NoRequest
  {
    if kind == Create then CreateRequest(userId, event)
    else if eventId.Some? && eventId.value != "" && !IsFormUnchanged(kind, dirty) then
      UpdateRequest(userId, eventId.value, event)
    else NoRequest
  }

  /** The state of one mounted form. */
  class Form {
    var isSubmitting: bool
    var startError: Option<string>
    /** The `isFree` checkbox as the form holds it. */
    var isFree: bool

    constructor (init: Option<EventValues>)
      ensures !isSubmitting && startError.None? && isFree == DefaultValues(init).isFree
    {
      isSubmitting := false;
      startError := None;
      isFree := DefaultValues(init).isFree;
    }

    /** `onSubmit` with the validated values, the dirty fields and the upload
        result. Nothing resets `isSubmitting`: after one submit gets past the
        date checks, every later submit of the same form does nothing. */
    method OnSubmit(kind: FormType, userId: string, eventId: Option<string>, dirty: set<Field>,
                    values: EventValues, upload: Upload) returns (req: Request)
      modifies this
      ensures old(isSubmitting) ==> req == NoRequest && isSubmitting && startError == old(startError) && isFree == old(isFree)
      ensures !old(isSubmitting) && DateError(values).Some? ==>
        req == NoRequest && !isSubmitting && startError == DateError(values) && isFree == old(isFree)
      ensures !old(isSubmitting) && DateError(values).None? ==>
        && isSubmitting && startError == old(startError) && (isFree <==> values.price == 0.0)
        && req == RequestFor(kind, userId, eventId, dirty, Normalize(values, upload))
    {
      if isSubmitting {
        return NoRequest;
      }
      var dateError := DateError(values);
      if dateError.Some? {
        startError := dateError;
        return NoRequest;
      }
      isSubmitting := true;
      var price := values.price;
      isFree := price == 0.0;
      var submitted := values.(isFree := price == 0.0);
      submitted := submitted.(price := if submitted.isFree then 0.0 else submitted.price);
      var uploadImageUrl := ResolveImageUrl(submitted.imageUrl, upload);
      req := RequestFor(kind, userId, eventId, dirty, submitted.(imageUrl := uploadImageUrl));
    }
  }
}
