# Evently: a verified model of the store rules and query helpers

Evently is an event-listing web application backed by a Mongo database. This
project models, in Dafny, the parts of it that are rules rather than rendering:

- **Documents and the store.** The four document schemas (category, event,
  user, order) are datatypes, with their required paths, defaults and unique
  indexes (`models.dfy`). The four collections are maps from document id to
  document (`catalog.dfy`).
- **Server actions as functions.** `createEvent`, `createUser`, `updateUser`,
  `deleteUser` and `getUserByClerkId` are functions from an old store to a new
  store and a result. Lemmas about them state:
  - what each action changes and what it leaves alone;
  - which errors it raises;
  - that it keeps two invariants: `Valid` (the unique indexes hold and ids
    come from a counter) and `Linked` (every event is filed in its category,
    and every listed event points back at that category).
- **Server actions as writes** (`persistence.dfy`). The `Store` class holds
  the collections as fields. Its methods perform the action's writes one after
  the other, in source order: the upsert, the `$addToSet`s, the inserts, the
  `deleteMany`s and the `$pull`. Each method is proved to end in exactly the
  state the corresponding function gives, and to keep both invariants.
- **The two category listings** (`listing.dfy`). `getAllCategories` and
  `getUserCategories` filter, sort by a key chosen by a switch, skip and limit,
  and compute `isNext`. A Mongo sort leaves the order of ties open. So a
  returned page is specified as a window of *some* sorted permutation of the
  matching documents (`IsPage`), and a stable insertion sort shows that such a
  page exists.
- **The event form** (`validation.dfy`, `eventform.dfy`): the zod schema's
  per-field bounds and messages, the default values, the "unchanged" test,
  and `onSubmit`.
  - `onSubmit` runs the date checks, then derives `isFree` from the price,
    resolves the uploaded image and chooses the create or update request.
  - `onSubmit` is a method on a `Form` class, since it updates the form's
    `isSubmitting`, `startError` and `isFree` state.
- **The URL query helpers** (`urlquery.dfy`, `searchbar.dfy`, `filter.dfy`):
  - `formUrlQuery` and `removeKeysFromQuery`, over the query as a finite map;
  - the search bar's query transform;
  - the filter select's toggle, with its disabled state.
- **The orders table** (`orderstable.dfy`): the event-id row filter, the
  case-insensitive global filter over four columns, the fixed page size, and
  `clearFilter`.
- **The category picker** (`dropdown.dfy`): `handleAddCategory` (trim, refuse
  an exact duplicate, append, reset the dialog) and Cancel.
- **String operations** (`text.dfy`): JavaScript `toLowerCase`, `includes`
  and `trim`, and the binary string order a Mongo sort on `name` uses.

A few modelling choices recur:

- Document ids are natural numbers from one counter (`nextId`). A new document
  therefore gets a fresh id, and natural order, the order `findOne` and an
  unsorted `find` return, is increasing id.
- The current time, the uploaded file's URL and the URL-format check of the
  schema are parameters.
- A Mongoose required `String` refuses both a missing value and `""`. A
  required `Number` or `Date` refuses only a missing value.
- `findOneAndUpdate` runs no validators, but the unique indexes still apply.

## Model

| member | source | states |
|---|---|---|
| Models.NewCategory | lib/database/models/category.model.ts:10-15 | a category is refused iff `name` is missing or empty; `events` and `followers` default to empty lists and `createdAt` to now; given values are kept |
| Models.NewEvent | lib/database/models/event.model.ts:19-33 | an event is refused iff one of title, description, location, imageUrl, url, the two dates or price is missing; `savedCount` defaults to 0, `isFree` to false, `createdAt` to now; `category` and `organizer` are single optional references copied as given |
| Models.NewUser | lib/database/models/user.model.ts:18-31 | a user is refused iff one of clerkId, firstName, lastName, username, email is missing or empty; `joinDate` defaults to now, `savedEvents` to the empty list; the optional fields are copied |
| Models.WriteKeepsUserKeysUnique | lib/database/models/user.model.ts:19-23 | writing a user whose clerkId, username and email collide with no other user keeps all three indexes unique |
| Models.NewOrder | lib/database/models/order.model.ts:20-26 | an order is refused iff `stripeId` is missing or empty or `totalAmount` is missing; `createdAt` defaults to now; the event and buyer references are copied |
| Models.FindFirst | lib/actions/user.actions.ts:119 | `findOne` returns the first matching document in natural order, and none exactly when no document in range matches |
| Models.AddToSet | lib/actions/events.actions.ts:33-36 | `$addToSet`: the result holds exactly the old ids plus the new one; it is unchanged if the id was present and appended otherwise; it stays duplicate-free |
| Models.Pull | lib/actions/user.actions.ts:66-69 | `$pull` with `$in`: the result holds exactly the ids not pulled; it is unchanged when none is pulled |
| Models.PullConcat | lib/actions/user.actions.ts:66-69 | `$pull` distributes over concatenation, so the ids that stay keep their order |
| Catalog.CreateEventSingleError | lib/actions/events.actions.ts:59-62 | every failure of `createEvent` is the one error "Error creating event" |
| Catalog.CreateEventUnknownOrganizer | lib/actions/events.actions.ts:14-17 | with no user of that id, `createEvent` fails and the store is unchanged |
| Catalog.CreateEventResolvesCategory | lib/actions/events.actions.ts:20-30 | the category is matched by exact name: an existing one is reused (its `createdAt` kept); otherwise one is created with that name, the organizer as only follower, `createdAt` now, and only the new event in `events` |
| Catalog.CreateEventFilesEvent | lib/actions/events.actions.ts:33-55 | on success the organizer is among the category's followers and the new event id among its events, each without creating a duplicate |
| Catalog.CreateEventInsertsEvent | lib/actions/events.actions.ts:38-50 | on success exactly one event is added under a fresh id; it copies the scalar inputs, points to the resolved category and to the organizer, has `savedCount` 0 and `createdAt` now; earlier events are unchanged |
| Catalog.CreateEventFrame | lib/actions/events.actions.ts:10-63 | `createEvent` leaves users, orders and every category other than the resolved one unchanged |
| Catalog.CreateEventRejectedKeepsCategory | lib/actions/events.actions.ts:20-50 | when `Event.create` refuses the document (shown for an empty title), the action fails but the category upsert and follower add stay written and no event is added |
| Catalog.CreateEventKeepsValid | lib/actions/events.actions.ts:10-63 | `createEvent` keeps the unique indexes and the id counter invariant |
| Catalog.CreateEventKeepsLinked | lib/actions/events.actions.ts:10-63 | `createEvent` keeps events, categories and organizers linked |
| Catalog.CreateEventCountsOrganizer | lib/actions/events.actions.ts:38-50 | the organizer's number of created events, derived from the events collection, goes up by exactly one; every other user's stays the same |
| Catalog.GetUserByClerkId | lib/actions/user.actions.ts:116-125 | the result is present iff some user has that clerkId, and it is that user's id and document |
| Catalog.CreateUserContract | lib/actions/user.actions.ts:12-23 | `createUser` succeeds iff all required fields are non-empty and no user shares the clerkId, username or email; then exactly the new record is added under a fresh id: the given clerkId, names, username, email and photo, no password, bio, location or website, `joinDate` now, no saved events, and nothing else changed; otherwise "Error creating user" and nothing changes; validity is kept |
| Catalog.UpdateUserContract | lib/actions/user.actions.ts:25-43 | with no user of that clerkId the result is null and nothing changes; otherwise only that user changes, each of the eight fields present in `updateData` overwriting and every other field kept; for the found user the call fails with "Error updating user" (changing nothing) exactly when the updated record clashes with another user's key, and otherwise returns the updated record; validity is kept |
| Catalog.CreateUserKeepsLinked | lib/actions/user.actions.ts:12-23 | `createUser` keeps the store linked |
| Catalog.UpdateUserKeepsLinked | lib/actions/user.actions.ts:25-43 | `updateUser` keeps the store linked |
| Catalog.DeleteUserUnknown | lib/actions/user.actions.ts:51-54 | with no user of that clerkId, `deleteUser` fails before deleting anything |
| Catalog.DeleteUserRemovesEverything | lib/actions/user.actions.ts:57-71 | afterwards the user record is gone, no order has them as buyer, no event has them as organizer, no category lists one of their events, and their count of created events is 0; the returned document is the deleted user |
| Catalog.DeleteUserFrame | lib/actions/user.actions.ts:57-71 | `deleteUser` leaves category names, followers and `createdAt`, every other user (with their saved events), every other buyer's order and every other organizer's event unchanged; each category's event list loses exactly the user's events, the rest kept in order |
| Catalog.DeleteUserKeepsOtherEventsInOrder | lib/actions/user.actions.ts:66-69 | a category none of whose events the user organized is left exactly as it was |
| Catalog.DeleteUserKeepsValid | lib/actions/user.actions.ts:45-79 | `deleteUser` keeps the unique indexes and the id counter invariant |
| Catalog.DeleteUserKeepsLinked | lib/actions/user.actions.ts:45-79 | `deleteUser` keeps events, categories and organizers linked |
| Catalog.DeleteUserCanOrphanOrders | lib/actions/user.actions.ts:57-63 | a concrete valid, linked store in which deleting an organizer leaves another buyer's order pointing at a deleted event |
| Catalog.DuplicateCategoryNamesAllowed | lib/database/models/category.model.ts:11 | a valid, linked store may hold two categories of the same name, and `createEvent` then files the event in the one first in natural order |
| Persistence.Store.CreateEvent | lib/actions/events.actions.ts:10-63 | the writes of `createEvent` end in the state and result of `Catalog.CreateEvent`, and keep the store valid and linked |
| Persistence.Store.CreateEventWrites | lib/actions/events.actions.ts:14-55 | the organizer lookup, upsert, follower `$addToSet`, insert and event `$addToSet`, performed in that order, produce the state and result of `Catalog.CreateEvent` |
| Persistence.Store.CreateUser | lib/actions/user.actions.ts:12-23 | the one insert of `createUser` ends in the state and result of `Catalog.CreateUser`, and keeps the store valid and linked |
| Persistence.Store.UpdateUser | lib/actions/user.actions.ts:25-43 | the one `findOneAndUpdate` ends in the state and result of `Catalog.UpdateUser`, and keeps the store valid and linked |
| Persistence.Store.DeleteUser | lib/actions/user.actions.ts:45-79 | the writes of `deleteUser` end in the state and result of `Catalog.DeleteUser`, and keep the store valid and linked |
| Persistence.Store.DeleteUserWrites | lib/actions/user.actions.ts:51-71 | the lookup, order delete, event find and delete, category `$pull` and user delete, in that order, produce the state and result of `Catalog.DeleteUser` |
| Listing.NaturalOrder | lib/actions/category.actions.ts:34 | the collection as a cursor reads it: exactly the documents with ids in range, each with its stored document, in increasing id order |
| Listing.InOrderTotal | lib/actions/category.actions.ts:17-33 | every sort key orders any two categories one way or the other |
| Listing.InOrderTransitive | lib/actions/category.actions.ts:17-33 | every sort key is transitive |
| Listing.Insert | lib/actions/category.actions.ts:34 | inserting into a sorted list gives a sorted list holding the old elements plus the new one (as a multiset) |
| Listing.SortBy | lib/actions/category.actions.ts:34 | the result is sorted by the key and is a permutation of the input |
| Listing.UnorderedAllowsAnyOrder | lib/actions/category.actions.ts:30-32 | under the fallback key, which no category has, every permutation counts as sorted |
| Listing.SortFor | lib/actions/category.actions.ts:17-33 | "recent" sorts by `createdAt` descending, "old" ascending, "name" by name ascending; an absent or other filter ("popular" included) leaves the order open |
| Listing.Window | lib/actions/category.actions.ts:34 | `.skip(s).limit(l)` returns the elements from position `s` on, at most `l` of them, in order |
| Listing.WindowSorted | lib/actions/category.actions.ts:34 | a page of a sorted list is sorted |
| Listing.WindowsTile | lib/actions/category.actions.ts:34 | two consecutive pages concatenate to the page of their combined size |
| Listing.PageOf | lib/actions/category.actions.ts:34-36 | the page is a window of a sorted permutation of the matching documents, at most `limit` long, drawn from them; `isNext` holds iff more than `skip + limit` documents match |
| Listing.IsNextIffNextPageNonEmpty | lib/actions/category.actions.ts:35-36 | `isNext` holds iff the next page of the same size is non-empty |
| Listing.FindLimit | lib/actions/category.actions.ts:34 | `limit(0)` returns everything, and a negative limit acts as its absolute value |
| Listing.SearchByName | lib/actions/category.actions.ts:12-14 | keeps exactly the categories whose name contains the query, ignoring case, each as often as in the input (so `countDocuments` counts them); an absent query keeps all |
| Listing.EmptyQueryMatchesAll | lib/actions/category.actions.ts:12-14 | an absent or empty query keeps every category |
| Listing.GetAllCategories | lib/actions/category.actions.ts:8-42 | a call without a params object fails with "Error getting all categories"; page and size default to 1 and 10; a negative skip fails with "Error getting all categories"; otherwise the page is one that the search, sort key switch, skip and limit allow, sorted by the chosen key; it has at most `|pageSize|` stored, matching documents (all of them for size 0); `isNext` iff more than skip plus that many match |
| Listing.MissingParamsFails | lib/actions/category.actions.ts:11 | `getAllCategories()` with no argument fails: destructuring `undefined` throws inside the `try` |
| Listing.EmptyParamsListsFirstPage | lib/actions/category.actions.ts:11-36 | `getAllCategories({})` returns at most ten stored categories, any ten when there are more (ties and the fallback key leave the order open), with `isNext` iff there are more than ten |
| Listing.ZeroPageSizeListsAll | lib/actions/category.actions.ts:34-36 | with page size 0 every matching category is returned, each once, and `isNext` is false |
| Listing.UnlimitedPageIsEverything | lib/actions/category.actions.ts:34-36 | a page that skips nothing and is as long as the matching list holds all of it and has no next page |
| Listing.RecentFilterListsNewestFirst | lib/actions/category.actions.ts:21-23 | with the "recent" filter a page lists newer categories before older ones |
| Listing.FollowedBy | lib/actions/user.actions.ts:89 | keeps exactly the categories the user follows, each as often as in the input (so the count stage counts them) |
| Listing.GetUserCategories | lib/actions/user.actions.ts:81-114 | page and size default to 1 and 10; a negative skip or a size that is not positive fails with "Error fetching user categories"; otherwise at most `pageSize` categories the user follows, most events first, starting at `(page-1)*pageSize`; `isNext` iff the user follows more than skip plus page size categories |
| Validation.LengthIssue | lib/validations/index.ts:4-6 | a string passes `min(lo).max(hi)` iff `lo <= length <= hi`; too short gives the minimum message, too long the maximum one |
| Validation.Validate | lib/validations/index.ts:3-14 | a field is reported iff its check fails, with that check's message |
| Validation.ValidateBounds | lib/validations/index.ts:4-13 | each field's acceptance in both directions: title 3..40, description 10..400, location 3..150, category 3..35, both URLs by the format check, price at most 10000000000, isFree always, both dates present |
| Validation.ValidateMessages | lib/validations/index.ts:4-13 | the message each rejected field shows |
| Validation.AcceptsIff | lib/validations/index.ts:3-14 | the form is accepted iff all the field bounds hold |
| Validation.NegativePriceAccepted | lib/validations/index.ts:9 | there is no lower bound: a negative price is accepted |
| Validation.StartAfterEndAccepted | lib/validations/index.ts:12-13 | the schema does not compare the dates: a start after the end is accepted |
| Validation.MissingDateRejected | lib/validations/index.ts:12 | a missing start date is reported on that field with its message |
| EventForm.DefaultValues | components/shared/EventForm.tsx:52-63 | with no initial values the form starts empty with price 100; otherwise every initial value is kept except a falsy price, which becomes exactly 100; the initial price is never 0 |
| EventForm.DateError | components/shared/EventForm.tsx:71-91 | "before end" is reported iff both dates are set and start is after end; "must be different" iff both are set, in order, and are the same `Date` object |
| EventForm.SameInstantDistinctObjectsPass | components/shared/EventForm.tsx:82-91 | two distinct `Date` objects for one instant pass both checks |
| EventForm.ResolveImageUrl | components/shared/EventForm.tsx:100-117 | a non-empty upload result replaces the image URL with its first URL; no files, an empty result or a failed upload keep the old URL |
| EventForm.NormalizeContract | components/shared/EventForm.tsx:93-98 | the submitted `isFree` is `price == 0` whatever the checkbox said, the price is kept, and only `isFree` and the image URL change |
| EventForm.FreeEventResubmittedAtDefaultPrice | components/shared/EventForm.tsx:58-98 | editing a free event without touching the price submits it as a paid event at 100 |
| EventForm.RequestFor | components/shared/EventForm.tsx:119-150 | create always sends a create request; an update is sent iff an event id is given and some field is dirty; an unchanged update form sends nothing |
| EventForm.Form.constructor | components/shared/EventForm.tsx:48-64 | a new form is not submitting, has no date error, and its `isFree` is the default value |
| EventForm.Form.OnSubmit | components/shared/EventForm.tsx:69-150 | a submit while one is in flight does nothing; a date error is set and nothing is sent; otherwise the form becomes submitting, `isFree` is set from the price and the request for the normalized values is sent |
| UrlQuery.Serialize | lib/utils.ts:36-42 | `skipNull` keeps exactly the keys with a value, with that value |
| UrlQuery.Parse | lib/utils.ts:34 | parsing a serialized query and serializing it again gives the same query |
| UrlQuery.FormUrlQuery | lib/utils.ts:33-43 | the path is kept; `key` maps to the value, or is absent when the value is null; every other parsed key with a value keeps it |
| UrlQuery.WithoutKeys | lib/utils.ts:52-55 | exactly the keys not in `keys` remain, with their values |
| UrlQuery.RemoveKeysFromQuery | lib/utils.ts:45-63 | deleting the keys one by one and serializing gives the path unchanged and the serialized query without `keys` |
| UrlQuery.RemovedKeysContract | lib/utils.ts:52-60 | the resulting query has none of `keys`; every other key with a value keeps it; no key is added |
| UrlQuery.WithoutKeysIdempotent | lib/utils.ts:53-55 | removing the same keys twice is removing them once |
| UrlQuery.WithoutAbsentKeys | lib/utils.ts:53-55 | removing keys that are not present changes nothing |
| UrlQuery.SetThenRemove | lib/utils.ts:33-63 | setting a key and then removing it leaves the other keys as they were |
| SearchBar.OrFalsy | components/shared/SearchBar.tsx:40-44 | `o \|\| d`: a present, non-empty value is used; otherwise the default; with a non-empty default the result is never empty |
| SearchBar.InitialSearch | components/shared/SearchBar.tsx:30-31 | the search starts from the `q` parameter, or "" |
| SearchBar.SearchNavigation | components/shared/SearchBar.tsx:35-57 | a non-empty search sets the search key (default "q") to the text, after removing the page key (default "page") when asked to; an empty search removes the search key and keeps the page key; every other key is unchanged; the path is kept |
| Filter.FilterControl.constructor | components/shared/Filter.tsx:27-29 | the selection starts from the `filter` parameter (or "") and the control is enabled |
| Filter.FilterControl.HandleTypeClick | components/shared/Filter.tsx:31-46 | choosing the selected value removes `filter` from the query; choosing another sets `filter` to it; nothing else changes |
| Filter.FilterControl.HandleButtonClick | components/shared/Filter.tsx:48-56 | a choice while disabled is ignored; otherwise the control is disabled, the selection toggles, and the query has `filter` iff the old selection differed (for a non-empty choice: iff the new one is non-empty), with every other key unchanged |
| Filter.FilterControl.TimerFired | components/shared/Filter.tsx:52 | the timer re-enables the control and keeps the selection |
| OrdersTable.RowsOfEvent | components/shared/ordersTable/DataTable.tsx:45 | keeps exactly the rows of that event |
| OrdersTable.RowsOfEventConcat | components/shared/ordersTable/DataTable.tsx:44-46 | the event filter distributes over concatenation, so the original order is kept |
| OrdersTable.FilteredData | components/shared/ordersTable/DataTable.tsx:44-46 | with no (or an empty) event id every row is kept, otherwise exactly that event's rows |
| OrdersTable.GlobalFilter | components/shared/ordersTable/DataTable.tsx:57-69 | keeps a row iff the search, ignoring case, occurs in the event title or description or the buyer's username or email |
| OrdersTable.EmptySearchKeepsAll | components/shared/ordersTable/DataTable.tsx:62-68 | an empty search keeps every row |
| OrdersTable.PageRows | components/shared/ordersTable/DataTable.tsx:51 | page `i` holds at most 10 rows, rows `10*i` onwards in order, and exactly 10 when there are enough |
| OrdersTable.Table.constructor | components/shared/ordersTable/DataTable.tsx:40 | the global filter starts empty |
| OrdersTable.Table.SetGlobalFilter | components/shared/ordersTable/DataTable.tsx:56 | sets the global filter |
| OrdersTable.Table.ClearFilter | components/shared/ordersTable/DataTable.tsx:72-80 | on an event's table it navigates to the query without `eventId` and keeps the search; otherwise it clears the search and stays |
| Dropdown.AfterAdd | components/shared/Dropdown.tsx:42-54 | a trimmed name already in the list (exact comparison) leaves it unchanged; otherwise the list is the old one followed by the trimmed name; distinct names stay distinct |
| Dropdown.AddsKeepDistinct | components/shared/Dropdown.tsx:45-50 | a list of distinct names stays distinct under any sequence of adds |
| Dropdown.AddsKeepOrder | components/shared/Dropdown.tsx:50 | adds only append: the old list is a prefix of the new one |
| Dropdown.BlankInputAddsEmptyName | components/shared/Dropdown.tsx:43-50 | input of white space alone adds "" when "" is not already listed |
| Dropdown.CategoryPicker.constructor | components/shared/Dropdown.tsx:36-40 | the picker starts with the given list, an empty input, the dialog closed and no error |
| Dropdown.CategoryPicker.SetNewCategory | components/shared/Dropdown.tsx:87 | typing replaces the input and nothing else |
| Dropdown.CategoryPicker.SetDialogOpen | components/shared/Dropdown.tsx:72-75 | opening or closing the dialog changes nothing else |
| Dropdown.CategoryPicker.HandleAddCategory | components/shared/Dropdown.tsx:42-54 | the list becomes `AfterAdd` of the old list and input; a duplicate sets "Category already exists" and keeps the input and dialog; otherwise the input and error are cleared and the dialog closed |
| Dropdown.CategoryPicker.Cancel | components/shared/Dropdown.tsx:97-101 | Cancel clears the error and the input and leaves the list unchanged |
| Text.Lower | components/shared/ordersTable/DataTable.tsx:62-67 | lower-casing keeps the length, maps each character, leaves no upper-case letter and keeps every other character |
| Text.Includes | components/shared/ordersTable/DataTable.tsx:64-67 | `includes` holds iff the needle occurs at some position |
| Text.EmptyNeedleMatches | components/shared/ordersTable/DataTable.tsx:62-68 | the empty search occurs in every string |
| Text.SelfMatches | components/shared/ordersTable/DataTable.tsx:64-67 | every string contains itself, ignoring case |
| Text.Trim | components/shared/Dropdown.tsx:43 | `trim` returns a slice with only white space around it, and the slice neither starts nor ends with white space |
| Text.TrimUnique | components/shared/Dropdown.tsx:43 | any slice with only white space around it and none at its ends is the result of `trim` |
| Text.TrimAllSpace | components/shared/Dropdown.tsx:43 | white space alone trims to "" |
| Text.TrimIdempotent | components/shared/Dropdown.tsx:43 | trimming twice is trimming once |
| Text.LexLeTotal | lib/actions/category.actions.ts:25 | the binary string order is total |
| Text.LexLeTransitive | lib/actions/category.actions.ts:25 | the binary string order is transitive |

## Left out

- Stripe checkout, the webhook and `createOrder` (lib/actions/order.actions.ts, app/api/webhook/stripe/route.ts): thin calls into the Stripe SDK, plus floating-point cent conversions. Order documents are modelled only as the schema and as the targets of `deleteUser`.
- `updateEvent`, `deleteEventById`, `saveEvent` and `profileSchema`: imported by the form and the cards but not defined in the sources. No event update, event delete, save toggle or saved counter is modelled.
- The category search is a regular expression built from the query. It is modelled as a literal case-insensitive substring test, so regular-expression metacharacters in a query are not modelled.
- The "popular" sort is on the `followers` array. Mongo's ordering of array values is not modelled, so that order is left open, like the fallback key.
- `ObjectId` parsing of the user id in `getUserCategories`, the aggregation framework beyond the stages used, `connectToDB` and `revalidatePath`: connection and cache calls with no effect on the store.
- Atomicity and concurrency: `createEvent` and `deleteUser` are modelled as sequential writes by one caller. Interleaving with other requests is not modelled. The partial state a failure leaves behind is modelled.
- Errors raised by the database itself (lost connection, timeouts): the only failures modelled are the ones the documents and the indexes cause.
- Timers: the 300 ms debounce of the search bar and its `clearTimeout`, and the 1500 ms re-enable of the filter. The re-enable is a separate `TimerFired` method. Also React render and effect scheduling, router navigation, toasts and scrolling.
- The `qs` library's encoding, array values and duplicate keys: a query is a map from key to at most one value.
- The zod `url()` format check is a parameter (`isUrl`). `formatDateTime`, `cn`, `stringifyObject`, `convertFileToUrl`, the file upload service, Clerk authentication and the route matcher are not part of this model.
- Text.Lower: only ASCII letters are lower-cased; full Unicode case mapping is not modelled.
- Lengths are counted in code points, whereas JavaScript counts UTF-16 units, so the schema's bounds on strings outside the Basic Multilingual Plane are not modelled exactly.
- Prices are real numbers rather than double-precision floats, and an invalid `Date` is not modelled.
- EventForm.Form.OnSubmit: the price watched by the form is taken to be the submitted `values.price`.
- A `Date` object is modelled as an identity number next to the instant it holds; time zones are not modelled.
- OrdersTable.GlobalFilter: the table library calls the filter once per filterable column and keeps a row if any call matches. Since the filter ignores its column argument, this is modelled as one call per row.
- The Cancel button also closes the dialog through the dialog component. That close is not part of `Dropdown.CategoryPicker.Cancel`, which models the click handler only.
- Which pages call which listing is not modelled. The categories page and the create-event page call `getAllCategories()` with no argument; the model gives that call as `None`, and it always fails (`Listing.MissingParamsFails`). Only the event update page passes `{}`.
- SearchBar.SearchNavigation: `resetPageCount` is a boolean; a truthy non-boolean value is not distinguished.
