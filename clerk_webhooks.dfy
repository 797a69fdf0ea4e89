/**
 * server/controller/clerkWebhooks.js: a verified user event from the identity
 * provider is turned into a user record, then dispatched on its type to
 * create, update or delete that user in the user store, or to do nothing.
 * The svix signature check is a foreign call and is given as the boolean
 * `verified`.
 */
module ClerkWebhooks {
  import opened Common
  import UserController

  type UserId = string

  const UserCreated: string := "user.created"
  const UserUpdated: string := "user.updated"
  const UserDeleted: string := "user.deleted"

  /** The event's `data`: `email_addresses` holds the `email_address` of each
      entry. */
  datatype ClerkUserData = ClerkUserData(
    id: UserId,
    emailAddresses: seq<string>,
    firstName: string,
    lastName: string,
    imageUrl: string)

  /** The `userData` object built from the event. */
  datatype UserRecord = UserRecord(id: UserId, email: string, username: string, image: string)

  /** The application's own fields of a user document: its role and recent
      cities. This is the same document that `UserController.UserDocument`
      holds as `req.user`, and `UserController.UserDocument.GetUserData`
      answers with exactly these fields. */
  type AppFields = UserController.UserData

  /** A stored user: the provider's fields and the application's own ones. */
  datatype UserDoc = UserDoc(
    email: string,
    username: string,
    image: string,
    app: AppFields)

  /** Building `userData`: `None` when `email_addresses` is empty, where
      reading `[0].email_address` throws. */
  function BuildUserRecord(data: ClerkUserData): (r: Option<UserRecord>)
    ensures r.None? <==> data.emailAddresses == []
    ensures r.Some? ==>
              && r.value.id == data.id
              && r.value.email == data.emailAddresses[0]
              && r.value.image == data.imageUrl
              && |r.value.username| == |data.firstName| + 1 + |data.lastName|
              && r.value.username[..|data.firstName|] == data.firstName
              && r.value.username[|data.firstName|] == ' '
              && r.value.username[|data.firstName| + 1..] == data.lastName
  {
    if data.emailAddresses == [] then None
    else
      var username := data.firstName + " " + data.lastName;
      assert username[..|data.firstName|] == data.firstName;
      assert username[|data.firstName| + 1..] == data.lastName;
      Some(UserRecord(data.id, data.emailAddresses[0], username, data.imageUrl))
  }

  /** `User.create(userData)`: the record, with the user schema's defaults
      for the application's own fields. */
  function NewUserDoc(rec: UserRecord, defaults: AppFields): UserDoc
  {
    UserDoc(rec.email, rec.username, rec.image, defaults)
  }

  /** `User.findByIdAndUpdate(id, userData)` on one document: the record's
      fields overwrite the stored ones; the application's own fields stay. */
  function UpdateUserDoc(doc: UserDoc, rec: UserRecord): UserDoc
  {
    doc.(email := rec.email, username := rec.username, image := rec.image)
  }

  /** The store after the handler, and its `success` flag. */
  datatype ClerkOutcome = ClerkOutcome(users: map<UserId, UserDoc>, success: bool)

  /** The handler's effect. `success` is false, and nothing changes, when the
      signature is bad, when the record cannot be built (even for a delete,
      since the record is built first), or when a create meets an id that is
      already stored (a duplicate key). */
  function ApplyClerkEvent(users: map<UserId, UserDoc>, verified: bool, eventType: string,
                           data: ClerkUserData, defaults: AppFields): (r: ClerkOutcome)
    ensures !r.success ==> r.users == users
    ensures r.success <==>
              verified && data.emailAddresses != [] && !(eventType == UserCreated && data.id in users)
    ensures r.success && eventType == UserCreated ==>
              && r.users.Keys == users.Keys + {data.id}
              && r.users[data.id] == NewUserDoc(BuildUserRecord(data).value, defaults)
              && forall k :: k in users ==> r.users[k] == users[k]
    ensures r.success && eventType == UserUpdated ==>
              && r.users.Keys == users.Keys
              && (forall k :: k in users && k != data.id ==> r.users[k] == users[k])
              && (data.id in users ==>
                    && r.users[data.id].app == users[data.id].app
                    && r.users[data.id].email == data.emailAddresses[0]
                    && r.users[data.id].image == data.imageUrl
                    && r.users[data.id].username == BuildUserRecord(data).value.username)
    ensures r.success && eventType == UserDeleted ==>
              && r.users.Keys == users.Keys - {data.id}
              && forall k :: k in r.users ==> r.users[k] == users[k]
    ensures eventType !in {UserCreated, UserUpdated, UserDeleted} ==> r.users == users
  {
    if !verified then ClerkOutcome(users, false)
    else
      match BuildUserRecord(data)
      case None => ClerkOutcome(users, false)
      case Some(rec) =>
        if eventType == UserCreated then
          if data.id in users then ClerkOutcome(users, false)
          else ClerkOutcome(users[data.id := NewUserDoc(rec, defaults)], true)
        else if eventType == UserUpdated then
          if data.id in users then ClerkOutcome(users[data.id := UpdateUserDoc(users[data.id], rec)], true)
          else ClerkOutcome(users, true)
        else if eventType == UserDeleted then
          ClerkOutcome(users - {data.id}, true)
        else ClerkOutcome(users, true)
  }

  /** Deleting a user that a create just added restores the store. */
  lemma CreateThenDeleteRestores(users: map<UserId, UserDoc>, data: ClerkUserData, defaults: AppFields)
    requires data.id !in users && data.emailAddresses != []
    ensures var created := ApplyClerkEvent(users, true, UserCreated, data, defaults);
            created.success &&
            ApplyClerkEvent(created.users, true, UserDeleted, data, defaults) == ClerkOutcome(users, true)
  {
    var created := ApplyClerkEvent(users, true, UserCreated, data, defaults);
    var deleted := ApplyClerkEvent(created.users, true, UserDeleted, data, defaults);
    assert deleted.users.Keys == users.Keys;
  }

  /** Replaying an update event changes nothing more. */
  lemma UpdateIdempotent(users: map<UserId, UserDoc>, verified: bool, data: ClerkUserData, defaults: AppFields)
    ensures var once := ApplyClerkEvent(users, verified, UserUpdated, data, defaults);
            ApplyClerkEvent(once.users, verified, UserUpdated, data, defaults) == once
  {
    var once := ApplyClerkEvent(users, verified, UserUpdated, data, defaults);
    var twice := ApplyClerkEvent(once.users, verified, UserUpdated, data, defaults);
    if once.success && data.id in users {
      var rec := BuildUserRecord(data).value;
      assert UpdateUserDoc(UpdateUserDoc(users[data.id], rec), rec) == UpdateUserDoc(users[data.id], rec);
      assert twice.users == once.users;
    }
  }

  /** A second create for the same user fails and leaves the first one. */
  lemma SecondCreateFails(users: map<UserId, UserDoc>, data: ClerkUserData, defaults: AppFields,
                          again: ClerkUserData)
    requires data.emailAddresses != [] && again.id == data.id
    ensures var first := ApplyClerkEvent(users, true, UserCreated, data, defaults);
            ApplyClerkEvent(first.users, true, UserCreated, again, defaults) == ClerkOutcome(first.users, false)
  {
    var first := ApplyClerkEvent(users, true, UserCreated, data, defaults);
    assert data.id in first.users;
  }

  /** The users collection. */
  class UserStore {
    var users: map<UserId, UserDoc>

    constructor ()
      ensures users == map[]
    {
      users := map[];
    }

    /** `clerkWebhooks`: build the record, then switch on the event type.
        Returns the `success` flag of the reply. */
    method HandleClerkWebhook(verified: bool, eventType: string, data: ClerkUserData,
                              defaults: AppFields) returns (success: bool)
      modifies this
      ensures ClerkOutcome(users, success) == ApplyClerkEvent(old(users), verified, eventType, data, defaults)
    {
      if !verified {
        return false;
      }
      var userData := BuildUserRecord(data);
      if userData.None? {
        return false;
      }
      var rec := userData.value;
      if eventType == UserCreated {
        if data.id in users {
          return false;
        }
        users := users[data.id := NewUserDoc(rec, defaults)];
      } else if eventType == UserUpdated {
        if data.id in users {
          users := users[data.id := UpdateUserDoc(users[data.id], rec)];
        }
      } else if eventType == UserDeleted {
        users := users - {data.id};
      }
      success := true;
    }
  }
}
