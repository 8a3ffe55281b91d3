/** The store as mutable state: the four collections and the id counter are
    fields, and each action performs its writes one after the other, as the
    action code issues them. Each method is proved to end in the state that
    the corresponding `Catalog` function gives, and to keep the store
    `Valid`. */
module Persistence {
  import opened Wrappers
  import opened Models
  import Catalog

  class Store {
    var categories: map<Id, Category>
    var events: map<Id, Event>
    var users: map<Id, User>
    var orders: map<Id, Order>
    var nextId: nat

    /** The collections as one value. */
    function State(): Catalog.Db
      reads this
    {
      Catalog.Db(categories, events, users, orders, nextId)
    }

    /** The unique indexes hold and events, categories and organizers are linked. */
    ghost predicate Valid()
      reads this
    {
      Catalog.Valid(State()) && Catalog.Linked(State())
    }

    /** An empty database. */
    constructor ()
      ensures State() == Catalog.Db(map[], map[], map[], map[], 0)
      ensures Valid()
    {
      categories, events, users, orders, nextId := map[], map[], map[], map[], 0;
    }

    /** `createEvent`: the organizer lookup, the category upsert, the follower
        `$addToSet`, `Event.create` and the event `$addToSet`, in that order. */
    method CreateEvent(userId: Id, input: Catalog.EventInput, now: Time) returns (r: Outcome)
      requires Valid()
      modifies this
      ensures (State(), r) == Catalog.CreateEvent(old(State()), userId, input, now)
      ensures Valid()
    {
      Catalog.CreateEventKeepsValid(State(), userId, input, now);
      Catalog.CreateEventKeepsLinked(State(), userId, input, now);
      r := CreateEventWrites(userId, input, now);
    }

    /** The writes of `createEvent`, one after the other. */
    method CreateEventWrites(userId: Id, input: Catalog.EventInput, now: Time) returns (r: Outcome)
      modifies this
      ensures (State(), r) == Catalog.CreateEvent(old(State()), userId, input, now)
    {
      ghost var db := State();
      if userId !in users {
        return Fail(Catalog.CreateEventError);
      }
      // findOneAndUpdate with upsert: the first category of that name, or a new one
      var cid: Id;
      match Catalog.CategoryNamed(State(), input.category) {
        case Some(found) =>
          cid := found;
        case None =>
          cid := nextId;
          categories := categories[cid := Category(input.category, [], [userId], now)];
          nextId := nextId + 1;
      }
      assert cid == Catalog.ResolvedCategory(db, input.category);
      // the organizer follows the category
      var c := categories[cid];
      categories := categories[cid := c.(followers := AddToSet(c.followers, userId))];
      assert State() == Catalog.WithCategory(db, userId, input.category, now);
      // Event.create
      var made := NewEvent(Catalog.EventFieldsFor(input, cid, userId), now);
      if made.Failure? {
        return Fail(Catalog.CreateEventError);
      }
      var eid := nextId;
      events := events[eid := made.value];
      nextId := nextId + 1;
      // the event is filed in the category
      c := categories[cid];
      categories := categories[cid := c.(events := AddToSet(c.events, eid))];
      r := Pass;
    }

    /** `createUser`: one `User.create`, refused by a missing field or a
        unique index. */
    method CreateUser(p: Catalog.CreateUserParams, now: Time) returns (r: Result<Catalog.Stored<User>>)
      requires Valid()
      modifies this
      ensures (State(), r) == Catalog.CreateUser(old(State()), p, now)
      ensures Valid()
    {
      ghost var db := State();
      Catalog.CreateUserContract(db, p, now);
      Catalog.CreateUserKeepsLinked(db, p, now);
      var made := NewUser(Catalog.UserFieldsFor(p), now);
      if made.Failure? || !UserKeysFree(users, nextId, made.value) {
        return Failure(Catalog.CreateUserError);
      }
      var id := nextId;
      users := users[id := made.value];
      nextId := nextId + 1;
      r := Success(Catalog.Stored(id, made.value));
    }

    /** `updateUser`: one `findOneAndUpdate` by `clerkId`, returning the new
        document, or null when no user has that `clerkId`. */
    method UpdateUser(clerkId: string, d: Catalog.UpdateData) returns (r: Result<Option<Catalog.Stored<User>>>)
      requires Valid()
      modifies this
      ensures (State(), r) == Catalog.UpdateUser(old(State()), clerkId, d)
      ensures Valid()
    {
      ghost var db := State();
      Catalog.UpdateUserContract(db, clerkId, d);
      Catalog.UpdateUserKeepsLinked(db, clerkId, d);
      match Catalog.UserByClerkId(State(), clerkId)
      case None =>
        return Success(None);
      case Some(id) =>
        var u := Catalog.ApplyUpdate(users[id], d);
        if !UserKeysFree(users, id, u) {
          return Failure(Catalog.UpdateUserError);
        }
        users := users[id := u];
        r := Success(Some(Catalog.Stored(id, u)));
    }

    /** `deleteUser`: find the user, then delete their orders, collect and
        delete their events, pull those ids from the categories, and delete
        the user. */
    method DeleteUser(clerkId: string) returns (r: Result<Catalog.Stored<User>>)
      requires Valid()
      modifies this
      ensures (State(), r) == Catalog.DeleteUser(old(State()), clerkId)
      ensures Valid()
    {
      Catalog.DeleteUserKeepsValid(State(), clerkId);
      Catalog.DeleteUserKeepsLinked(State(), clerkId);
      r := DeleteUserWrites(clerkId);
    }

    /** The writes of `deleteUser`, one after the other. */
    method DeleteUserWrites(clerkId: string) returns (r: Result<Catalog.Stored<User>>)
      modifies this
      ensures (State(), r) == Catalog.DeleteUser(old(State()), clerkId)
    {
      ghost var db := State();
      var found := Catalog.UserByClerkId(State(), clerkId);
      if found.None? {
        return Failure(Catalog.DeleteUserError);
      }
      var uid := found.value;
      var user := users[uid];
      ghost var after := Catalog.WithoutUser(db, uid);
      var os, es, cs, us := orders, events, categories, users;
      orders := map o | o in os && os[o].buyer != Some(uid) :: os[o];
      var eventIds := Catalog.OrganizedIn(es, uid);
      events := map e | e in es && es[e].organizer != Some(uid) :: es[e];
      assert events == after.events;
      categories := map c | c in cs :: cs[c].(events := Pull(cs[c].events, eventIds));
      users := map u | u in us && u != uid :: us[u];
      r := Success(Catalog.Stored(uid, user));
    }
  }
}
