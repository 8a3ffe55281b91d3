/** The four collections as one value, and what the user and event actions
    do to it. Each action is a function from the old state to the new state
    and the action's result; `Persistence.Store` performs the same writes
    one at a time and is proved to end in the state given here. */
module Catalog {
  import opened Wrappers
  import opened Models

  datatype Db = Db(
    categories: map<Id, Category>,
    events: map<Id, Event>,
    users: map<Id, User>,
    orders: map<Id, Order>,
    nextId: nat)

  /** A document together with its id, as the actions return it. */
  datatype Stored<T> = Stored(id: Id, doc: T)

  /** What the store guarantees by itself: every id in use was handed out
      before `nextId`, and the unique indexes hold. */
  ghost predicate Valid(db: Db)
  {
    && (forall id :: id in db.categories ==> id < db.nextId)
    && (forall id :: id in db.events ==> id < db.nextId)
    && (forall id :: id in db.users ==> id < db.nextId)
    && (forall id :: id in db.orders ==> id < db.nextId)
    && UniqueUserKeys(db.users)
    && UniqueStripeIds(db.orders)
  }

  /** Event `e` is filed in its category, and its organizer is an existing
      user who follows that category. */
  ghost predicate EventLinked(db: Db, e: Id)
    requires e in db.events
  {
    var ev := db.events[e];
    && ev.category.Some? && ev.category.value in db.categories
    && e in db.categories[ev.category.value].events
    && ev.organizer.Some? && ev.organizer.value in db.users
    && ev.organizer.value in db.categories[ev.category.value].followers
  }

  /** The relationship between events, categories and organizers that the
      actions of this model keep: every event is filed in the category it
      points to, and a category lists only existing events that point back
      to it (so no event is filed in two categories). */
  ghost predicate Linked(db: Db)
  {
    && (forall e :: e in db.events ==> EventLinked(db, e))
    && (forall c, e :: c in db.categories && e in db.categories[c].events ==>
          e in db.events && db.events[e].category == Some(c))
  }

  /** The number of events a user has organized. No record stores it. */
  function EventsCreatedCount(db: Db, user: Id): nat
  {
    CountOrganized(db.events, user)
  }

  // ============================================================ createEvent

  const CreateEventError := "Error creating event"

  /** The event part of the parameters of `createEvent`. */
  datatype EventInput = EventInput(
    title: string, description: string, location: string, imageUrl: string,
    startDateTime: Time, endDateTime: Time, category: string, price: Money,
    isFree: bool, url: string)

  /** The first category named exactly `name`. */
  function CategoryNamed(db: Db, name: string): Option<Id>
  {
    FindFirst(db.categories, (c: Category) => c.name == name, 0, db.nextId)
  }

  /** The category the event is filed in: the first one with the name, or
      the one the upsert creates. */
  function ResolvedCategory(db: Db, name: string): Id
  {
    match CategoryNamed(db, name)
    case Some(cid) => cid
    case None => db.nextId
  }

  /** The id the new event receives. */
  function NewEventId(db: Db, name: string): Id
  {
    if CategoryNamed(db, name).Some? then db.nextId else db.nextId + 1
  }

  /** The document `Event.create` is given: the scalar inputs and the two
      references; `createdAt` and `savedCount` are left to their defaults. */
  function EventFieldsFor(input: EventInput, category: Id, organizer: Id): EventFields
  {
    EventFields(
      Some(input.title), Some(input.description), Some(input.location), None,
      Some(input.imageUrl), Some(input.startDateTime), Some(input.endDateTime),
      Some(input.price), Some(input.isFree), Some(input.url), Some(category),
      Some(organizer), None)
  }

  /** The state after the category get-or-create and the follower add. */
  function WithCategory(db: Db, organizer: Id, name: string, now: Time): Db
  {
    match CategoryNamed(db, name)
    case Some(cid) =>
      var c := db.categories[cid];
      db.(categories := db.categories[cid := c.(followers := AddToSet(c.followers, organizer))])
    case None =>
      db.(categories := db.categories[db.nextId := Category(name, [], [organizer], now)],
          nextId := db.nextId + 1)
  }

  /** `createEvent`: look up the organizer, get or create the category by
      name, add the organizer to its followers, insert the event, and add the
      event to the category. The steps are not one transaction: when the event
      document is rejected, the category changes stay. */
  function CreateEvent(db: Db, userId: Id, input: EventInput, now: Time): (Db, Outcome)
  {
    if userId !in db.users then
      (db, Fail(CreateEventError))
    else
      var cid := ResolvedCategory(db, input.category);
      var db1 := WithCategory(db, userId, input.category, now);
      match NewEvent(EventFieldsFor(input, cid, userId), now)
      case Failure(_) => (db1, Fail(CreateEventError))
      case Success(ev) =>
        var eid := db1.nextId;
        var c := db1.categories[cid];
        (db1.(events := db1.events[eid := ev],
              categories := db1.categories[cid := c.(events := AddToSet(c.events, eid))],
              nextId := eid + 1),
         Pass)
  }

  /** Every failure of `createEvent` is the one error "Error creating event". */
  lemma CreateEventSingleError(db: Db, userId: Id, input: EventInput, now: Time)
    ensures CreateEvent(db, userId, input, now).1 in {Pass, Fail(CreateEventError)}
  {
  }

  /** With no user of that id, nothing is written. */
  lemma CreateEventUnknownOrganizer(db: Db, userId: Id, input: EventInput, now: Time)
    requires userId !in db.users
    ensures CreateEvent(db, userId, input, now) == (db, Fail(CreateEventError))
  {
  }

  /** The category is matched by exact name: an existing one is reused, and
      otherwise a new one is created with the organizer as its only follower. */
  lemma {:induction false} CreateEventResolvesCategory(db: Db, userId: Id, input: EventInput, now: Time)
    requires Valid(db) && userId in db.users
    ensures var db' := CreateEvent(db, userId, input, now).0;
            var cid := ResolvedCategory(db, input.category);
            && cid in db'.categories && db'.categories[cid].name == input.category
            && (cid in db.categories <==> exists c :: c in db.categories && db.categories[c].name == input.category)
            && (cid !in db.categories ==>
                  && db'.categories[cid].followers == [userId]
                  && db'.categories[cid].createdAt == now
                  && db'.categories[cid].events == (if CreateEvent(db, userId, input, now).1.Pass?
                                                    then [NewEventId(db, input.category)] else []))
            && (cid in db.categories ==>
                  db'.categories[cid].createdAt == db.categories[cid].createdAt)
  {
    var found := CategoryNamed(db, input.category);
    if found.None? {
      assert forall c :: c in db.categories ==> c < db.nextId;
    }
  }

  /** On success the organizer follows the category and the new event is
      filed in it, each exactly once if the lists had no duplicates before. */
  lemma CreateEventFilesEvent(db: Db, userId: Id, input: EventInput, now: Time)
    requires CreateEvent(db, userId, input, now).1.Pass?
    ensures var db' := CreateEvent(db, userId, input, now).0;
            var cid := ResolvedCategory(db, input.category);
            var eid := NewEventId(db, input.category);
            && cid in db'.categories
            && userId in db'.categories[cid].followers
            && eid in db'.categories[cid].events
            && (cid in db.categories && NoDup(db.categories[cid].followers) ==> NoDup(db'.categories[cid].followers))
            && (cid in db.categories && NoDup(db.categories[cid].events) ==> NoDup(db'.categories[cid].events))
            && (cid !in db.categories ==> NoDup(db'.categories[cid].followers) && NoDup(db'.categories[cid].events))
  {
  }

  /** On success exactly one event is added: it copies the scalar inputs,
      points to the resolved category and to the organizer, has
      `savedCount` 0, `createdAt` now; every earlier event is unchanged. */
  lemma {:induction false} CreateEventInsertsEvent(db: Db, userId: Id, input: EventInput, now: Time)
    requires Valid(db)
    requires CreateEvent(db, userId, input, now).1.Pass?
    ensures var db' := CreateEvent(db, userId, input, now).0;
            var eid := NewEventId(db, input.category);
            && eid !in db.events
            && db'.events.Keys == db.events.Keys + {eid}
            && (forall e :: e in db.events ==> db'.events[e] == db.events[e])
            && var ev := db'.events[eid];
               && ev.title == input.title && ev.description == input.description
               && ev.location == input.location && ev.imageUrl == input.imageUrl
               && ev.startDateTime == input.startDateTime && ev.endDateTime == input.endDateTime
               && ev.price == input.price && ev.isFree == input.isFree && ev.url == input.url
               && ev.category == Some(ResolvedCategory(db, input.category))
               && ev.organizer == Some(userId)
               && ev.savedCount == 0 && ev.createdAt == now
  {
    var f := EventFieldsFor(input, ResolvedCategory(db, input.category), userId);
    assert NewEvent(f, now).Success?;
  }

  /** `createEvent` writes no user, no order and no category other than the
      resolved one. */
  lemma CreateEventFrame(db: Db, userId: Id, input: EventInput, now: Time)
    ensures var db' := CreateEvent(db, userId, input, now).0;
            var cid := ResolvedCategory(db, input.category);
            && db'.users == db.users && db'.orders == db.orders
            && (forall c :: c in db.categories && c != cid ==>
                  c in db'.categories && db'.categories[c] == db.categories[c])
            && (forall c :: c in db'.categories ==> c in db.categories || c == cid)
  {
  }

  /** When the event document is rejected (a required string left empty),
      the action fails but the category get-or-create and the follower add
      have already been written. */
  lemma CreateEventRejectedKeepsCategory(db: Db, userId: Id, input: EventInput, now: Time)
    requires userId in db.users && input.title == ""
    ensures var (db', r) := CreateEvent(db, userId, input, now);
            && r == Fail(CreateEventError)
            && db'.events == db.events
            && db' == WithCategory(db, userId, input.category, now)
            && userId in db'.categories[ResolvedCategory(db, input.category)].followers
  {
  }

  lemma {:induction false} CreateEventKeepsValid(db: Db, userId: Id, input: EventInput, now: Time)
    requires Valid(db)
    ensures Valid(CreateEvent(db, userId, input, now).0)
  {
  }

  /** The state after the get-or-create step differs from the old one only
      in the resolved category, which the organizer now follows; an existing
      category keeps its events and followers, a new one has no events. */
  lemma {:induction false} WithCategoryShape(db: Db, userId: Id, name: string, now: Time)
    requires Valid(db)
    ensures var db1 := WithCategory(db, userId, name, now);
            var cid := ResolvedCategory(db, name);
            && db1.events == db.events && db1.users == db.users && db1.orders == db.orders
            && cid in db1.categories
            && db1.categories == db.categories[cid := db1.categories[cid]]
            && userId in db1.categories[cid].followers
            && (cid in db.categories ==>
                  && db1.categories[cid].events == db.categories[cid].events
                  && forall x :: x in db.categories[cid].followers ==> x in db1.categories[cid].followers)
            && (cid !in db.categories ==> db1.categories[cid].events == [])
            && cid < db1.nextId && db.nextId <= db1.nextId
  {
  }

  /** The conditions under which filing a new event `eid` in category `cid`
      (now `c'`) keeps the store linked: the organizer exists and follows the
      category, and the category only gains the new event and followers. */
  ghost predicate FilingOk(db: Db, cid: Id, c': Category, eid: Id, ev: Event)
  {
    && Linked(db) && eid !in db.events
    && ev.category == Some(cid) && ev.organizer.Some? && ev.organizer.value in db.users
    && ev.organizer.value in c'.followers && eid in c'.events
    && (cid in db.categories ==>
          && (forall x :: x in db.categories[cid].followers ==> x in c'.followers)
          && (forall x :: x in c'.events ==> x == eid || x in db.categories[cid].events)
          && (forall x :: x in db.categories[cid].events ==> x in c'.events))
    && (cid !in db.categories ==> forall x :: x in c'.events ==> x == eid)
  }

  lemma FilingKeepsEventLinked(db: Db, cid: Id, c': Category, eid: Id, ev: Event, e: Id)
    requires FilingOk(db, cid, c', eid, ev)
    requires e in db.events[eid := ev]
    ensures EventLinked(db.(categories := db.categories[cid := c'], events := db.events[eid := ev]), e)
  {
    if e != eid {
      assert EventLinked(db, e);
    }
  }

  lemma FilingKeepsCategoryLinked(db: Db, cid: Id, c': Category, eid: Id, ev: Event, c: Id, e: Id)
    requires FilingOk(db, cid, c', eid, ev)
    requires c in db.categories[cid := c'] && e in db.categories[cid := c'][c].events
    ensures e in db.events[eid := ev] && db.events[eid := ev][e].category == Some(c)
  {
    if c != cid {
      assert e in db.categories[c].events;
    } else if e != eid {
      assert e in db.categories[cid].events;
    }
  }

  /** Filing a new event keeps the store linked. */
  lemma FilingKeepsLinked(db: Db, cid: Id, c': Category, eid: Id, ev: Event, db': Db)
    requires FilingOk(db, cid, c', eid, ev)
    requires db'.categories == db.categories[cid := c'] && db'.events == db.events[eid := ev]
    requires db'.users == db.users
    ensures Linked(db')
  {
    forall e | e in db'.events ensures EventLinked(db', e) {
      FilingKeepsEventLinked(db, cid, c', eid, ev, e);
    }
    forall c, e | c in db'.categories && e in db'.categories[c].events
      ensures e in db'.events && db'.events[e].category == Some(c)
    {
      FilingKeepsCategoryLinked(db, cid, c', eid, ev, c, e);
    }
  }

  /** The state after a successful `createEvent`, relative to the old state. */
  lemma {:induction false} CreateEventPassShape(db: Db, userId: Id, input: EventInput, now: Time)
    requires Valid(db) && CreateEvent(db, userId, input, now).1.Pass?
    ensures var db' := CreateEvent(db, userId, input, now).0;
            var cid := ResolvedCategory(db, input.category);
            var eid := NewEventId(db, input.category);
            var db1 := WithCategory(db, userId, input.category, now);
            && userId in db.users
            && eid == db1.nextId
            && db'.users == db.users
            && db'.categories == db.categories[cid := db1.categories[cid].(events := AddToSet(db1.categories[cid].events, eid))]
            && db'.events == db.events[eid := NewEvent(EventFieldsFor(input, cid, userId), now).value]
  {
    WithCategoryShape(db, userId, input.category, now);
  }

  /** `createEvent` keeps events, categories and organizers linked. */
  lemma {:induction false} CreateEventKeepsLinked(db: Db, userId: Id, input: EventInput, now: Time)
    requires Valid(db) && Linked(db)
    ensures Linked(CreateEvent(db, userId, input, now).0)
  {
    var (db', r) := CreateEvent(db, userId, input, now);
    if userId in db.users {
      var cid := ResolvedCategory(db, input.category);
      var db1 := WithCategory(db, userId, input.category, now);
      WithCategoryShape(db, userId, input.category, now);
      var c1 := db1.categories[cid];
      if r.Pass? {
        CreateEventPassShape(db, userId, input, now);
        var eid := db1.nextId;
        var ev := NewEvent(EventFieldsFor(input, cid, userId), now).value;
        var c' := c1.(events := AddToSet(c1.events, eid));
        assert eid !in db.events;
        FilingKeepsLinked(db, cid, c', eid, ev, db');
      } else {
        assert db' == db1;
        forall e | e in db1.events ensures EventLinked(db1, e) {
          assert EventLinked(db, e);
        }
        forall c, e | c in db1.categories && e in db1.categories[c].events
          ensures e in db1.events && db1.events[e].category == Some(c)
        {
          assert e in db.categories[c].events;
        }
      }
    }
  }

  /** The events of `events` that `user` organizes. */
  function OrganizedIn(events: map<Id, Event>, user: Id): set<Id>
  {
    set e | e in events && events[e].organizer == Some(user)
  }

  /** How many events of `events` `user` organizes. */
  function CountOrganized(events: map<Id, Event>, user: Id): nat
  {
    |OrganizedIn(events, user)|
  }

  /** Inserting one event organized by `user` adds it to that user's events
      and to nobody else's. */
  lemma InsertOrganizedIn(events: map<Id, Event>, eid: Id, ev: Event, user: Id)
    requires eid !in events
    ensures ev.organizer == Some(user) ==> OrganizedIn(events[eid := ev], user) == OrganizedIn(events, user) + {eid}
    ensures ev.organizer != Some(user) ==> OrganizedIn(events[eid := ev], user) == OrganizedIn(events, user)
  {
    var after := events[eid := ev];
    assert forall e :: e in after && e != eid ==> after[e] == events[e];
  }

  /** Inserting one event organized by `user` raises that user's count by
      one and nobody else's. */
  lemma InsertCountsOrganizer(events: map<Id, Event>, eid: Id, ev: Event, user: Id, other: Id)
    requires eid !in events && ev.organizer == Some(user)
    ensures CountOrganized(events[eid := ev], user) == CountOrganized(events, user) + 1
    ensures other != user ==> CountOrganized(events[eid := ev], other) == CountOrganized(events, other)
  {
    InsertOrganizedIn(events, eid, ev, user);
    InsertOrganizedIn(events, eid, ev, other);
    assert eid !in OrganizedIn(events, user);
  }

  /** The organizer's count of created events goes up by one; everyone
      else's stays. */
  lemma {:induction false} CreateEventCountsOrganizer(db: Db, userId: Id, input: EventInput, now: Time, other: Id)
    requires Valid(db) && CreateEvent(db, userId, input, now).1.Pass?
    ensures EventsCreatedCount(CreateEvent(db, userId, input, now).0, userId) == EventsCreatedCount(db, userId) + 1
    ensures other != userId ==>
      EventsCreatedCount(CreateEvent(db, userId, input, now).0, other) == EventsCreatedCount(db, other)
  {
    var db' := CreateEvent(db, userId, input, now).0;
    var eid := NewEventId(db, input.category);
    CreateEventInsertsEvent(db, userId, input, now);
    assert db'.events == db.events[eid := db'.events[eid]];
    InsertCountsOrganizer(db.events, eid, db'.events[eid], userId, other);
  }

  // ============================================================= users

  const CreateUserError := "Error creating user"
  const UpdateUserError := "Error updating user"
  const DeleteUserError := "Error deleting user and related data"

  /** The parameters of `createUser`. */
  datatype CreateUserParams = CreateUserParams(
    clerkId: string, firstName: string, lastName: string, username: string,
    email: string, photo: string)

  /** The optional fields of an `updateUser` request. */
  datatype UpdateData = UpdateData(
    firstName: Option<string>, lastName: Option<string>, username: Option<string>,
    email: Option<string>, photo: Option<string>, bio: Option<string>,
    location: Option<string>, personalWebsite: Option<string>)

  function UserFieldsFor(p: CreateUserParams): UserFields
  {
    UserFields(Some(p.clerkId), Some(p.firstName), Some(p.lastName), Some(p.username),
               Some(p.email), None, Some(p.photo), None, None, None, None, None)
  }

  /** `User.findOne({ clerkId })`. */
  function UserByClerkId(db: Db, clerkId: string): Option<Id>
  {
    FindFirst(db.users, (u: User) => u.clerkId == clerkId, 0, db.nextId)
  }

  /** `getUserByClerkId`: the user with that identity-provider id, if any. */
  function GetUserByClerkId(db: Db, clerkId: string): (r: Option<Stored<User>>)
    requires Valid(db)
    ensures r.Some? <==> exists id :: id in db.users && db.users[id].clerkId == clerkId
    ensures forall id :: id in db.users && db.users[id].clerkId == clerkId ==>
              r == Some(Stored(id, db.users[id]))
  {
    match UserByClerkId(db, clerkId)
    case None => None
    case Some(id) => Some(Stored(id, db.users[id]))
  }

  /** `createUser`: insert the new user document; a missing required field or
      a clash on `clerkId`, `username` or `email` makes it fail. */
  function CreateUser(db: Db, p: CreateUserParams, now: Time): (Db, Result<Stored<User>>)
  {
    match NewUser(UserFieldsFor(p), now)
    case Failure(_) => (db, Failure(CreateUserError))
    case Success(u) =>
      if !UserKeysFree(db.users, db.nextId, u) then (db, Failure(CreateUserError))
      else (db.(users := db.users[db.nextId := u], nextId := db.nextId + 1),
            Success(Stored(db.nextId, u)))
  }

  /** `createUser` succeeds iff all required fields are non-empty and no user
      shares one of the three keys; then exactly the new record is added,
      with `joinDate` now and no saved events. */
  lemma {:induction false} CreateUserContract(db: Db, p: CreateUserParams, now: Time)
    requires Valid(db)
    ensures var (db', r) := CreateUser(db, p, now);
            && (r.Success? <==>
                  && p.clerkId != "" && p.firstName != "" && p.lastName != ""
                  && p.username != "" && p.email != ""
                  && forall id :: id in db.users ==>
                       db.users[id].clerkId != p.clerkId && db.users[id].username != p.username
                       && db.users[id].email != p.email)
            && (r.Failure? ==> db' == db && r.error == CreateUserError)
            && (r.Success? ==>
                  && r.value.id !in db.users
                  && db'.users == db.users[r.value.id := r.value.doc]
                  && r.value.doc == User(p.clerkId, p.firstName, p.lastName, p.username, p.email,
                                         None, Some(p.photo), None, None, None, now, [])
                  && db'.events == db.events && db'.categories == db.categories
                  && db'.orders == db.orders)
            && Valid(db')
  {
    var (db', r) := CreateUser(db, p, now);
    var made := NewUser(UserFieldsFor(p), now);
    if made.Success? && UserKeysFree(db.users, db.nextId, made.value) {
      assert db.nextId !in db.users;
      WriteKeepsUserKeysUnique(db.users, db.nextId, made.value);
    }
  }

  /** The user record after `findOneAndUpdate` with `updateData`: each field
      that is present overwrites, every other field keeps its value. */
  function ApplyUpdate(u: User, d: UpdateData): User
  {
    u.(firstName := OrDefault(d.firstName, u.firstName),
       lastName := OrDefault(d.lastName, u.lastName),
       username := OrDefault(d.username, u.username),
       email := OrDefault(d.email, u.email),
       photo := if d.photo.Some? then d.photo else u.photo,
       bio := if d.bio.Some? then d.bio else u.bio,
       location := if d.location.Some? then d.location else u.location,
       personalWebsite := if d.personalWebsite.Some? then d.personalWebsite else u.personalWebsite)
  }

  /** `updateUser`: no validators run on the update, but the unique indexes
      do; with no user of that `clerkId` the result is null. */
  function UpdateUser(db: Db, clerkId: string, d: UpdateData): (Db, Result<Option<Stored<User>>>)
  {
    match UserByClerkId(db, clerkId)
    case None => (db, Success(None))
    case Some(id) =>
      var u := ApplyUpdate(db.users[id], d);
      if !UserKeysFree(db.users, id, u) then (db, Failure(UpdateUserError))
      else (db.(users := db.users[id := u]), Success(Some(Stored(id, u))))
  }

  /** `updateUser` changes only the fields present in `updateData` of the one
      user with that `clerkId`; with no such user it returns null and changes
      nothing; a clash on `username` or `email` with another user fails and
      changes nothing. */
  lemma {:induction false} UpdateUserContract(db: Db, clerkId: string, d: UpdateData)
    requires Valid(db)
    ensures var (db', r) := UpdateUser(db, clerkId, d);
            && ((forall id :: id in db.users ==> db.users[id].clerkId != clerkId) ==>
                  db' == db && r == Success(None))
            && (r.Failure? ==> db' == db && r.error == UpdateUserError)
            && (forall id :: id in db.users && db.users[id].clerkId == clerkId ==>
                  && (r.Failure? <==> !UserKeysFree(db.users, id, ApplyUpdate(db.users[id], d)))
                  && (r.Success? ==> r.value == Some(Stored(id, ApplyUpdate(db.users[id], d)))))
            && (r.Success? && r.value.Some? ==>
                  var id := r.value.value.id;
                  var u := db.users[id];
                  var u' := db'.users[id];
                  && id in db.users && u.clerkId == clerkId
                  && db'.users == db.users[id := u']
                  && r.value.value.doc == u'
                  && u'.clerkId == u.clerkId && u'.joinDate == u.joinDate
                  && u'.savedEvents == u.savedEvents && u'.password == u.password
                  && u'.firstName == (if d.firstName.Some? then d.firstName.value else u.firstName)
                  && u'.lastName == (if d.lastName.Some? then d.lastName.value else u.lastName)
                  && u'.username == (if d.username.Some? then d.username.value else u.username)
                  && u'.email == (if d.email.Some? then d.email.value else u.email)
                  && u'.photo == (if d.photo.Some? then d.photo else u.photo)
                  && u'.bio == (if d.bio.Some? then d.bio else u.bio)
                  && u'.location == (if d.location.Some? then d.location else u.location)
                  && u'.personalWebsite ==
                     (if d.personalWebsite.Some? then d.personalWebsite else u.personalWebsite))
            && db'.events == db.events && db'.categories == db.categories && db'.orders == db.orders
            && Valid(db')
  {
    var found := UserByClerkId(db, clerkId);
    if found.Some? {
      var u := ApplyUpdate(db.users[found.value], d);
      if UserKeysFree(db.users, found.value, u) {
        WriteKeepsUserKeysUnique(db.users, found.value, u);
      }
    }
  }

  /** Adding a user, or rewriting one in place, keeps the store linked: the
      links only need every organizer to exist. */
  lemma UsersGrowKeepsLinked(db: Db, db': Db)
    requires Linked(db)
    requires db'.events == db.events && db'.categories == db.categories
    requires db.users.Keys <= db'.users.Keys
    ensures Linked(db')
  {
    forall e | e in db'.events ensures EventLinked(db', e) {
      assert EventLinked(db, e);
    }
  }

  lemma CreateUserKeepsLinked(db: Db, p: CreateUserParams, now: Time)
    requires Linked(db)
    ensures Linked(CreateUser(db, p, now).0)
  {
    UsersGrowKeepsLinked(db, CreateUser(db, p, now).0);
  }

  lemma UpdateUserKeepsLinked(db: Db, clerkId: string, d: UpdateData)
    requires Linked(db)
    ensures Linked(UpdateUser(db, clerkId, d).0)
  {
    UsersGrowKeepsLinked(db, UpdateUser(db, clerkId, d).0);
  }

  /** The events organized by `user`. */
  function OrganizedBy(db: Db, user: Id): set<Id>
  {
    OrganizedIn(db.events, user)
  }

  /** `deleteUser`: find the user, delete their orders, delete the events
      they organized, pull those event ids from every category, delete the
      user. */
  function DeleteUser(db: Db, clerkId: string): (Db, Result<Stored<User>>)
  {
    match UserByClerkId(db, clerkId)
    case None => (db, Failure(DeleteUserError))
    case Some(uid) => (WithoutUser(db, uid), Success(Stored(uid, db.users[uid])))
  }

  /** The state after the four deletions of `deleteUser` for user `uid`. */
  function WithoutUser(db: Db, uid: Id): Db
  {
    var gone := OrganizedBy(db, uid);
    Db(
      map c | c in db.categories :: db.categories[c].(events := Pull(db.categories[c].events, gone)),
      map e | e in db.events && e !in gone :: db.events[e],
      map u | u in db.users && u != uid :: db.users[u],
      map o | o in db.orders && db.orders[o].buyer != Some(uid) :: db.orders[o],
      db.nextId)
  }

  /** With no user of that `clerkId`, `deleteUser` fails before deleting anything. */
  lemma DeleteUserUnknown(db: Db, clerkId: string)
    requires forall id :: id in db.users ==> db.users[id].clerkId != clerkId
    ensures DeleteUser(db, clerkId) == (db, Failure(DeleteUserError))
  {
  }

  /** After `deleteUser` the user is gone, and so is every order they bought
      and every event they organized; no category lists a deleted event. */
  lemma DeleteUserRemovesEverything(db: Db, clerkId: string)
    requires DeleteUser(db, clerkId).1.Success?
    ensures var (db', r) := DeleteUser(db, clerkId);
            var uid := r.value.id;
            && uid in db.users && db.users[uid].clerkId == clerkId && r.value.doc == db.users[uid]
            && uid !in db'.users
            && (forall o :: o in db'.orders ==> db'.orders[o].buyer != Some(uid))
            && (forall e :: e in db'.events ==> db'.events[e].organizer != Some(uid))
            && (forall c, e :: c in db'.categories && e in db'.categories[c].events ==>
                  !(e in db.events && db.events[e].organizer == Some(uid)))
            && EventsCreatedCount(db', uid) == 0
  {
    var (db', r) := DeleteUser(db, clerkId);
    var uid := r.value.id;
    assert (set e | e in db'.events && db'.events[e].organizer == Some(uid)) == {};
  }

  /** `deleteUser` does not touch category followers (the deleted user stays
      listed), any other user (with their saved events), the orders of other
      buyers (even those for the deleted events), or other organizers' events. */
  lemma DeleteUserFrame(db: Db, clerkId: string)
    requires DeleteUser(db, clerkId).1.Success?
    ensures var (db', r) := DeleteUser(db, clerkId);
            var uid := r.value.id;
            && db'.categories.Keys == db.categories.Keys
            && (forall c :: c in db.categories ==>
                  db'.categories[c].followers == db.categories[c].followers
                  && db'.categories[c].name == db.categories[c].name
                  && db'.categories[c].createdAt == db.categories[c].createdAt)
            && (forall u :: u in db.users && u != uid ==> u in db'.users && db'.users[u] == db.users[u])
            && (forall o :: o in db.orders && db.orders[o].buyer != Some(uid) ==>
                  o in db'.orders && db'.orders[o] == db.orders[o])
            && (forall c :: c in db.categories ==>
                  db'.categories[c].events == Pull(db.categories[c].events, OrganizedBy(db, uid)))
            && (forall e :: e in db.events && db.events[e].organizer != Some(uid) ==>
                  e in db'.events && db'.events[e] == db.events[e])
            && db'.nextId == db.nextId
  {
  }

  /** A category none of whose events the user organized is left exactly as it was. */
  lemma DeleteUserKeepsOtherEventsInOrder(db: Db, clerkId: string, c: Id)
    requires DeleteUser(db, clerkId).1.Success? && c in db.categories
    requires forall e :: e in db.categories[c].events ==> e in db.events && db.events[e].organizer != Some(DeleteUser(db, clerkId).1.value.id)
    ensures DeleteUser(db, clerkId).0.categories[c] == db.categories[c]
  {
  }

  lemma {:induction false} DeleteUserKeepsValid(db: Db, clerkId: string)
    requires Valid(db)
    ensures Valid(DeleteUser(db, clerkId).0)
  {
    var (db', r) := DeleteUser(db, clerkId);
    if r.Success? {
      assert forall a :: a in db'.users ==> a in db.users && db'.users[a] == db.users[a];
      assert forall a :: a in db'.orders ==> a in db.orders && db'.orders[a] == db.orders[a];
    }
  }

  lemma WithoutUserKeepsEventLinked(db: Db, uid: Id, e: Id)
    requires Linked(db) && e in WithoutUser(db, uid).events
    ensures EventLinked(WithoutUser(db, uid), e)
  {
    var db' := WithoutUser(db, uid);
    assert EventLinked(db, e);
    var c := db.events[e].category.value;
    assert e in db.categories[c].events && e !in OrganizedBy(db, uid);
    assert db'.events[e] == db.events[e];
    assert e in db'.categories[c].events;
  }

  lemma WithoutUserKeepsCategoryLinked(db: Db, uid: Id, c: Id, e: Id)
    requires Linked(db)
    requires c in WithoutUser(db, uid).categories && e in WithoutUser(db, uid).categories[c].events
    ensures e in WithoutUser(db, uid).events && WithoutUser(db, uid).events[e].category == Some(c)
  {
    assert e in db.categories[c].events && e !in OrganizedBy(db, uid);
  }

  /** `deleteUser` keeps events, categories and organizers linked. */
  lemma DeleteUserKeepsLinked(db: Db, clerkId: string)
    requires Linked(db)
    ensures Linked(DeleteUser(db, clerkId).0)
  {
    var (db', r) := DeleteUser(db, clerkId);
    if r.Success? {
      var uid := r.value.id;
      assert db' == WithoutUser(db, uid);
      forall e | e in db'.events ensures EventLinked(db', e) {
        WithoutUserKeepsEventLinked(db, uid, e);
      }
      forall c, e | c in db'.categories && e in db'.categories[c].events
        ensures e in db'.events && db'.events[e].category == Some(c)
      {
        WithoutUserKeepsCategoryLinked(db, uid, c, e);
      }
    }
  }

  /** `deleteUser` can leave an order that refers to an event it deleted:
      another buyer's ticket for one of the user's events survives it. */
  lemma DeleteUserCanOrphanOrders()
    ensures var u1 := User("c1", "A", "A", "a", "a@x", None, None, None, None, None, 0, []);
            var u2 := User("c2", "B", "B", "b", "b@x", None, None, None, None, None, 0, []);
            var ev := Event("Title", "Description", "Here", 0, "i", 0, 1, 5.0, false, "u",
                            Some(0), Some(1), 0);
            var db := Db(map[0 := Category("Music", [3], [1], 0)], map[3 := ev],
                         map[1 := u1, 2 := u2], map[4 := Order(0, "s", 5.0, Some(3), Some(2))], 5);
            var db' := DeleteUser(db, "c1").0;
            && Valid(db) && Linked(db)
            && 4 in db'.orders && db'.orders[4].event == Some(3) && 3 !in db'.events
  {
    var u1 := User("c1", "A", "A", "a", "a@x", None, None, None, None, None, 0, []);
    var u2 := User("c2", "B", "B", "b", "b@x", None, None, None, None, None, 0, []);
    var ev := Event("Title", "Description", "Here", 0, "i", 0, 1, 5.0, false, "u",
                    Some(0), Some(1), 0);
    var db := Db(map[0 := Category("Music", [3], [1], 0)], map[3 := ev],
                 map[1 := u1, 2 := u2], map[4 := Order(0, "s", 5.0, Some(3), Some(2))], 5);
    assert Valid(db) by {
      assert u1.clerkId != u2.clerkId && u1.username != u2.username && u1.email != u2.email;
    }
    assert Linked(db) by {
      assert EventLinked(db, 3);
    }
    var found := UserByClerkId(db, "c1");
    assert found == Some(1) by {
      assert db.users[1].clerkId == "c1" && db.users[2].clerkId != "c1";
    }
    assert DeleteUser(db, "c1").0 == WithoutUser(db, 1);
    assert 3 in OrganizedBy(db, 1);
    var db' := WithoutUser(db, 1);
    assert 4 in db'.orders && db'.orders[4] == db.orders[4];
  }

  /** Category names are not unique: a valid, linked store may hold two
      categories with the same name, and `createEvent` then files the event in
      the first of them. */
  lemma DuplicateCategoryNamesAllowed()
    ensures var db := Db(map[0 := Category("Music", [], [], 0), 1 := Category("Music", [], [], 0)],
                         map[], map[2 := User("c", "A", "A", "a", "a@x", None, None, None, None, None, 0, [])],
                         map[], 3);
            && Valid(db) && Linked(db)
            && ResolvedCategory(db, "Music") == 0
  {
  }
}
