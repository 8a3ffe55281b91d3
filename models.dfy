/** The four document schemas: Category, Event, User and Order. Each schema
    is a record type holding every path the schema declares and a
    "fields" type for the document handed to `Model.create`, where a path may
    be absent. `NewX` applies the schema: it rejects a document missing a
    required path and fills in the declared defaults. The unique indexes
    are predicates over a whole collection. */
module Models {
  import opened Wrappers

  /** Document ids. The store hands them out in increasing order, so the
      natural order of a collection is the order of its ids. */
  type Id = nat

  /** A `Date`, as milliseconds since the epoch. */
  type Time = int

  /** A JavaScript number used as an amount of money. */
  type Money = real

  /** What a rejected `Model.create` reports (the actions catch it and rethrow
      their own message, so its text is never seen by a caller). */
  const ValidationFailed := "ValidationError"

  /** A required String path rejects an absent value and the empty string. */
  predicate RequiredString(o: Option<string>)
  {
    o.Some? && o.value != ""
  }

  function OrDefault<T>(o: Option<T>, d: T): (r: T)
    ensures o.None? ==> r == d
    ensures o.Some? ==> r == o.value
  {
    if o.Some? then o.value else d
  }

  /** No id occurs twice. */
  predicate NoDup(xs: seq<Id>)
  {
    forall i, j :: 0 <= i < j < |xs| ==> xs[i] != xs[j]
  }

  // ---------------------------------------------------------------- Category

  datatype Category = Category(name: string, events: seq<Id>, followers: seq<Id>, createdAt: Time)

  datatype CategoryFields = CategoryFields(
    name: Option<string>, events: Option<seq<Id>>, followers: Option<seq<Id>>, createdAt: Option<Time>)

  /** `name` is required; `events` and `followers` default to empty lists and
      `createdAt` to the time of creation. */
  function NewCategory(f: CategoryFields, now: Time): (r: Result<Category>)
    ensures r.Success? <==> RequiredString(f.name)
    ensures r.Success? ==> r.value.name == f.name.value
    ensures r.Success? && f.events.None? ==> r.value.events == []
    ensures r.Success? && f.followers.None? ==> r.value.followers == []
    ensures r.Success? && f.createdAt.None? ==> r.value.createdAt == now
    ensures r.Success? && f.events.Some? ==> r.value.events == f.events.value
    ensures r.Success? && f.followers.Some? ==> r.value.followers == f.followers.value
    ensures r.Success? && f.createdAt.Some? ==> r.value.createdAt == f.createdAt.value
  {
    if !RequiredString(f.name) then Failure(ValidationFailed)
    else Success(Category(f.name.value, OrDefault(f.events, []), OrDefault(f.followers, []),
                          OrDefault(f.createdAt, now)))
  }

  // ------------------------------------------------------------------- Event

  datatype Event = Event(
    title: string, description: string, location: string, createdAt: Time,
    imageUrl: string, startDateTime: Time, endDateTime: Time, price: Money,
    isFree: bool, url: string, category: Option<Id>, organizer: Option<Id>,
    savedCount: int)

  datatype EventFields = EventFields(
    title: Option<string>, description: Option<string>, location: Option<string>,
    createdAt: Option<Time>, imageUrl: Option<string>, startDateTime: Option<Time>,
    endDateTime: Option<Time>, price: Option<Money>, isFree: Option<bool>,
    url: Option<string>, category: Option<Id>, organizer: Option<Id>,
    savedCount: Option<int>)

  /** The required paths of an event: five strings, two dates and the price. */
  predicate EventRequiredPresent(f: EventFields)
  {
    && RequiredString(f.title) && RequiredString(f.description) && RequiredString(f.location)
    && RequiredString(f.imageUrl) && RequiredString(f.url)
    && f.startDateTime.Some? && f.endDateTime.Some? && f.price.Some?
  }

  /** Creating an event document: rejected iff a required path is missing;
      `savedCount` defaults to 0, `isFree` to false, `createdAt` to now; the
      category and organizer references are copied and may be absent. */
  function NewEvent(f: EventFields, now: Time): (r: Result<Event>)
    ensures r.Success? <==> EventRequiredPresent(f)
    ensures r.Success? ==>
      && r.value.title == f.title.value && r.value.description == f.description.value
      && r.value.location == f.location.value && r.value.imageUrl == f.imageUrl.value
      && r.value.url == f.url.value && r.value.price == f.price.value
      && r.value.startDateTime == f.startDateTime.value
      && r.value.endDateTime == f.endDateTime.value
      && r.value.category == f.category && r.value.organizer == f.organizer
    ensures r.Success? && f.savedCount.None? ==> r.value.savedCount == 0
    ensures r.Success? && f.isFree.None? ==> !r.value.isFree
    ensures r.Success? && f.createdAt.None? ==> r.value.createdAt == now
    ensures r.Success? && f.isFree.Some? ==> r.value.isFree == f.isFree.value
  {
    if !EventRequiredPresent(f) then Failure(ValidationFailed)
    else Success(Event(
      f.title.value, f.description.value, f.location.value, OrDefault(f.createdAt, now),
      f.imageUrl.value, f.startDateTime.value, f.endDateTime.value, f.price.value,
      OrDefault(f.isFree, false), f.url.value, f.category, f.organizer,
      OrDefault(f.savedCount, 0)))
  }

  // -------------------------------------------------------------------- User

  /** A user record. There is no counter of created events: that number is
      only ever derived from the events collection. */
  datatype User = User(
    clerkId: string, firstName: string, lastName: string, username: string, email: string,
    password: Option<string>, photo: Option<string>, bio: Option<string>,
    location: Option<string>, personalWebsite: Option<string>, joinDate: Time,
    savedEvents: seq<Id>)

  datatype UserFields = UserFields(
    clerkId: Option<string>, firstName: Option<string>, lastName: Option<string>,
    username: Option<string>, email: Option<string>, password: Option<string>,
    photo: Option<string>, bio: Option<string>, location: Option<string>,
    personalWebsite: Option<string>, joinDate: Option<Time>, savedEvents: Option<seq<Id>>)

  predicate UserRequiredPresent(f: UserFields)
  {
    && RequiredString(f.clerkId) && RequiredString(f.firstName) && RequiredString(f.lastName)
    && RequiredString(f.username) && RequiredString(f.email)
  }

  /** Creating a user document: the three keys and both names are required;
      `joinDate` defaults to now and `savedEvents` to the empty list. */
  function NewUser(f: UserFields, now: Time): (r: Result<User>)
    ensures r.Success? <==> UserRequiredPresent(f)
    ensures r.Success? ==>
      && r.value.clerkId == f.clerkId.value && r.value.username == f.username.value
      && r.value.email == f.email.value && r.value.firstName == f.firstName.value
      && r.value.lastName == f.lastName.value && r.value.photo == f.photo
      && r.value.password == f.password && r.value.bio == f.bio
      && r.value.location == f.location && r.value.personalWebsite == f.personalWebsite
    ensures r.Success? && f.joinDate.None? ==> r.value.joinDate == now
    ensures r.Success? && f.savedEvents.None? ==> r.value.savedEvents == []
  {
    if !UserRequiredPresent(f) then Failure(ValidationFailed)
    else Success(User(
      f.clerkId.value, f.firstName.value, f.lastName.value, f.username.value, f.email.value,
      f.password, f.photo, f.bio, f.location, f.personalWebsite,
      OrDefault(f.joinDate, now), OrDefault(f.savedEvents, [])))
  }

  /** Two users collide on one of the three unique keys. */
  predicate Collide(u: User, v: User)
  {
    u.clerkId == v.clerkId || u.username == v.username || u.email == v.email
  }

  /** The unique indexes on `clerkId`, `username` and `email`. */
  ghost predicate UniqueUserKeys(users: map<Id, User>)
  {
    forall a, b :: a in users && b in users && a != b ==> !Collide(users[a], users[b])
  }

  /** Writing `u` under id `self` keeps the user indexes unique: no other
      user collides with it. */
  predicate UserKeysFree(users: map<Id, User>, self: Id, u: User)
  {
    forall id | id in users && id != self :: !Collide(users[id], u)
  }

  lemma WriteKeepsUserKeysUnique(users: map<Id, User>, self: Id, u: User)
    requires UniqueUserKeys(users) && UserKeysFree(users, self, u)
    ensures UniqueUserKeys(users[self := u])
  {
    var m := users[self := u];
    forall a, b | a in m && b in m && a != b ensures !Collide(m[a], m[b]) {
      if a == self {
        assert m[b] == users[b];
      } else if b == self {
        assert m[a] == users[a];
      }
    }
  }

  // ------------------------------------------------------------------- Order

  datatype Order = Order(createdAt: Time, stripeId: string, totalAmount: Money,
                         event: Option<Id>, buyer: Option<Id>)

  datatype OrderFields = OrderFields(createdAt: Option<Time>, stripeId: Option<string>,
                                     totalAmount: Option<Money>, event: Option<Id>,
                                     buyer: Option<Id>)

  /** Creating an order document: `stripeId` and `totalAmount` are required,
      `createdAt` defaults to now, and the two references are copied. */
  function NewOrder(f: OrderFields, now: Time): (r: Result<Order>)
    ensures r.Success? <==> RequiredString(f.stripeId) && f.totalAmount.Some?
    ensures r.Success? ==>
      && r.value.stripeId == f.stripeId.value && r.value.totalAmount == f.totalAmount.value
      && r.value.event == f.event && r.value.buyer == f.buyer
    ensures r.Success? && f.createdAt.None? ==> r.value.createdAt == now
  {
    if !(RequiredString(f.stripeId) && f.totalAmount.Some?) then Failure(ValidationFailed)
    else Success(Order(OrDefault(f.createdAt, now), f.stripeId.value, f.totalAmount.value,
                       f.event, f.buyer))
  }

  /** The unique index on `stripeId`. */
  ghost predicate UniqueStripeIds(orders: map<Id, Order>)
  {
    forall a, b :: a in orders && b in orders && a != b ==> orders[a].stripeId != orders[b].stripeId
  }

  // ------------------------------------------------ collection-level helpers

  /** `findOne`: the first document, in natural order among the ids in
      `[lo, hi)`, that satisfies `p`. */
  function FindFirst<T>(m: map<Id, T>, p: T -> bool, lo: nat, hi: nat): (r: Option<Id>)
    ensures r.Some? ==> lo <= r.value < hi && r.value in m && p(m[r.value])
    ensures r.Some? ==> forall k :: lo <= k < r.value && k in m ==> !p(m[k])
    ensures r.None? ==> forall k :: lo <= k < hi && k in m ==> !p(m[k])
    decreases hi - lo
  {
    if lo >= hi then None
    else if lo in m && p(m[lo]) then Some(lo)
    else FindFirst(m, p, lo + 1, hi)
  }

  /** `$addToSet`: appends `x` unless it is already there. */
  function AddToSet(xs: seq<Id>, x: Id): (r: seq<Id>)
    ensures forall y :: y in r <==> y in xs || y == x
    ensures x in xs ==> r == xs
    ensures x !in xs ==> r == xs + [x]
    ensures NoDup(xs) ==> NoDup(r)
  {
    if x in xs then xs else xs + [x]
  }

  /** `$pull` with `$in`: removes every occurrence of every id in `gone`,
      keeping the order of the rest. */
  function Pull(xs: seq<Id>, gone: set<Id>): (r: seq<Id>)
    ensures forall y :: y in r <==> y in xs && y !in gone
    ensures |r| <= |xs|
    ensures (forall y :: y in xs ==> y !in gone) ==> r == xs
  {
    if xs == [] then []
    else (if xs[0] in gone then [] else [xs[0]]) + Pull(xs[1..], gone)
  }

  /** `$pull` keeps the relative order of what stays: it distributes over
      concatenation. */
  lemma {:induction false} PullConcat(a: seq<Id>, b: seq<Id>, gone: set<Id>)
    ensures Pull(a + b, gone) == Pull(a, gone) + Pull(b, gone)
  {
    if a == [] {
      assert a + b == b;
    } else {
      assert (a + b)[0] == a[0];
      assert (a + b)[1..] == a[1..] + b;
      PullConcat(a[1..], b, gone);
    }
  }
}
