/** The identity provider's webhook (`POST /api/clerk-web-hook`): a
    `user.deleted` event removes the user row with the event's id, and any
    other event creates or updates the row with that id. The user table is
    keyed by that external id, which the store keeps unique. */
module ClerkWebhook {
  import opened Common

  /** A name field of the event: missing, `null`, or a string. */
  datatype NameField = Missing | Null | Text(s: string)

  /** The event's `data`. A missing `id` reads as ""; `emailAddresses` holds
      the `email_address` of each entry, `None` when the list is missing. */
  datatype EventData = EventData(id: string, firstName: NameField, lastName: NameField,
                                 emailAddresses: Option<seq<string>>)

  /** The parsed body: a missing `type` reads as "", missing `data` is `None`. */
  datatype Payload = Payload(eventType: string, data: Option<EventData>)

  datatype User = User(name: string, email: string)

  /** The store operation an event asks for. */
  datatype Action = DeleteUser(clerkId: string) | UpsertUser(clerkId: string, user: User)

  /** How a template literal prints a name field. */
  function Interpolated(f: NameField): string {
    match f
    case Missing => "undefined"
    case Null => "null"
    case Text(s) => s
  }

  /** `${first_name} ${last_name}`. */
  function FullName(d: EventData): string {
    Interpolated(d.firstName) + " " + Interpolated(d.lastName)
  }

  /** The checks of the handler, in order, and the store operation they let
      through. Only the exact type `user.deleted` deletes; every other
      non-empty type upserts. */
  function Decide(p: Payload): (r: Result<Action, string>)
    ensures p.eventType == "" || p.data.None? ==> r == Failure("Invalid webhook payload structure")
    ensures r.Success? ==> p.data.Some? && r.value.clerkId == p.data.value.id != ""
    ensures r.Success? && r.value.DeleteUser? <==> p.eventType == "user.deleted" && p.data.Some? && p.data.value.id != ""
    ensures r.Success? && r.value.UpsertUser? <==>
              && p.eventType !in {"", "user.deleted"} && p.data.Some? && p.data.value.id != ""
              && p.data.value.emailAddresses.Some? && |p.data.value.emailAddresses.value| > 0
    ensures r.Success? && r.value.UpsertUser? ==>
              r.value.user == User(FullName(p.data.value), p.data.value.emailAddresses.value[0])
    ensures p.eventType == "user.deleted" && p.data.Some? && p.data.value.id == "" ==>
              r == Failure("Missing user ID for deletion event")
    ensures p.eventType !in {"", "user.deleted"} && p.data.Some? && r.Failure? ==>
              r == Failure("Missing required user data")
  {
    if p.eventType == "" || p.data.None? then Failure("Invalid webhook payload structure")
    else
      var d := p.data.value;
      if p.eventType == "user.deleted" then
        if d.id == "" then Failure("Missing user ID for deletion event") else Success(DeleteUser(d.id))
      else if d.id == "" || d.emailAddresses.None? || |d.emailAddresses.value| == 0 then
        Failure("Missing required user data")
      else Success(UpsertUser(d.id, User(FullName(d), d.emailAddresses.value[0])))
  }

  /** The response: `{ success: true }`, or status 500 with the message of
      whatever was thrown, a failed check or a store error. */
  function WebhookResponse(p: Payload, storeError: Option<string>): (resp: Response<()>)
    ensures resp.status == 200 <==> Decide(p).Success? && storeError.None?
    ensures resp.status == 200 ==> resp == Response(200, Some(true), None, None)
    ensures resp.status != 200 ==> resp.status == 500 && resp.success == Some(false) && resp.error.Some?
    ensures Decide(p).Failure? ==> resp.error == Some(Decide(p).error)
    ensures Decide(p).Success? && storeError.Some? ==> resp.error == storeError
  {
    var d := Decide(p);
    if d.Failure? then Refusal(500, d.error)
    else if storeError.Some? then Refusal(500, storeError.value)
    else Response(200, Some(true), None, None)
  }

  /** The user table after the call. */
  function UsersAfter(users: map<string, User>, p: Payload, storeError: Option<string>): map<string, User> {
    var d := Decide(p);
    if d.Failure? || storeError.Some? then users
    else match d.value
      case DeleteUser(id) => users - {id}
      case UpsertUser(id, u) => users[id := u]
  }

  /** The user table of the store, keyed by external id. */
  class UserTable {
    var users: map<string, User>

    constructor (initial: map<string, User>)
      ensures users == initial
    {
      users := initial;
    }

    method HandleWebhook(p: Payload, storeError: Option<string>) returns (resp: Response<()>)
      modifies this
      ensures resp == WebhookResponse(p, storeError)
      ensures users == UsersAfter(old(users), p, storeError)
    {
      var d := Decide(p);
      if d.Failure? {
        return Refusal(500, d.error);
      }
      if storeError.Some? {
        return Refusal(500, storeError.value);
      }
      match d.value {
        case DeleteUser(id) =>
          users := users - {id};
        case UpsertUser(id, u) =>
          users := users[id := u];
      }
      resp := Response(200, Some(true), None, None);
    }
  }

  /** A failed call, whatever made it fail, leaves the table as it was. */
  lemma {:induction false} ErrorsChangeNothing(users: map<string, User>, p: Payload, storeError: Option<string>)
    requires WebhookResponse(p, storeError).status != 200
    ensures UsersAfter(users, p, storeError) == users
  {
  }

  /** A deletion removes the row with the event's id and keeps every other
      row; repeating it changes nothing more and still succeeds. */
  lemma {:induction false} DeletionRemovesOnlyThatUser(users: map<string, User>, id: string, data: EventData)
    requires id != "" && data.id == id
    ensures var p := Payload("user.deleted", Some(data));
      var after := UsersAfter(users, p, None);
      && WebhookResponse(p, None).status == 200
      && id !in after
      && (forall k :: k != id ==> (k in after <==> k in users) && (k in users ==> after[k] == users[k]))
      && UsersAfter(after, p, None) == after
      && WebhookResponse(p, None) == Response(200, Some(true), None, None)
  {
    var p := Payload("user.deleted", Some(data));
    assert Decide(p) == Success(DeleteUser(id));
    var after := users - {id};
    assert after - {id} == after;
  }

  /** After an upsert exactly one row has the event's id, holding the full
      name and the first address; every other row is as before, and
      replaying the event changes nothing more. */
  lemma {:induction false} UpsertSetsOnlyThatUser(users: map<string, User>, p: Payload)
    requires p.eventType != "user.deleted" && Decide(p).Success?
    ensures var d := p.data.value;
      var after := UsersAfter(users, p, None);
      && d.id in after
      && after[d.id] == User(FullName(d), d.emailAddresses.value[0])
      && (forall k :: k != d.id ==> (k in after <==> k in users) && (k in users ==> after[k] == users[k]))
      && UsersAfter(after, p, None) == after
  {
    var d := p.data.value;
    var u := User(FullName(d), d.emailAddresses.value[0]);
    assert Decide(p) == Success(UpsertUser(d.id, u));
    var after := users[d.id := u];
    assert after[d.id := u] == after;
  }

  /** Event types are not recognised by name: an unknown type with usable
      data upserts like `user.created`, and a missing name prints as
      "undefined". */
  lemma {:induction false} UnknownTypesUpsert(users: map<string, User>, id: string, email: string)
    requires id != ""
    ensures var d := EventData(id, Missing, Text("Doe"), Some([email]));
      UsersAfter(users, Payload("session.created", Some(d)), None)
      == UsersAfter(users, Payload("user.created", Some(d)), None)
      == users[id := User("undefined Doe", email)]
  {
    var d := EventData(id, Missing, Text("Doe"), Some([email]));
    assert FullName(d) == "undefined Doe";
    assert Decide(Payload("session.created", Some(d))) == Success(UpsertUser(id, User("undefined Doe", email)));
    assert Decide(Payload("user.created", Some(d))) == Success(UpsertUser(id, User("undefined Doe", email)));
  }
}
