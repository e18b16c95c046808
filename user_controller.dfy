/**
 * The user resource controller of backend/src/app/controllers/user.controller.js:
 * five request handlers (list, show, create, update, remove) over a table of user
 * records, each answering with an HTTP status code and a payload.
 *
 * The request-validation collaborator is reduced to its verdict, a boolean `valid`;
 * the document store is the map `users` of class UserStore, and a failing storage
 * call is a boolean input (`storeError`, `findError`, `saveError`).
 */
module UserController {
  import opened UserModel

  // ---------------------------------------------------------------------------
  // Request bodies

  /** One field of a JSON request body: left out, or given with a value. */
  datatype Field<T> = Absent | Given(value: T)

  /** JavaScript truthiness of a text field: given and not the empty string. */
  predicate TruthyText(f: Field<string>) {
    f.Given? && f.value != ""
  }

  /** JavaScript truthiness of a boolean field: given and `true`. */
  predicate TruthyFlag(f: Field<bool>) {
    f.Given? && f.value
  }

  /** A body field as a constructor argument; a field left out stays undefined. */
  function Arg<T>(f: Field<T>): (o: Option<T>)
    ensures o.Some? <==> f.Given?
    ensures o.Some? ==> o.value == f.value
  {
    match f
    case Absent => None
    case Given(v) => Some(v)
  }

  /** The fields of a create or update request body that the controller reads. */
  datatype Body = Body(
    firstname: Field<string>,
    lastname: Field<string>,
    email: Field<string>,
    created: Field<Timestamp>,
    password: Field<string>,
    active: Field<bool>,
    verified: Field<bool>)

  const EmptyBody: Body := Body(Absent, Absent, Absent, Absent, Absent, Absent, Absent)

  // ---------------------------------------------------------------------------
  // Responses

  datatype Payload =
    | NoContent
    | Record(id: Id, user: User)
    | Records(users: map<Id, User>)
    | Message(text: string)
    | ValidationErrors

  datatype Response = Response(status: nat, payload: Payload)

  // ---------------------------------------------------------------------------
  // The two record computations of the handlers

  /**
   * The document that create builds: names, email, created and password come from
   * the body, `active` and `verified` are forced to true and false whatever the body says.
   */
  function NewUser(body: Body, now: Timestamp): (u: User)
    ensures u.active && !u.verified && u.roles == []
    ensures u.firstname == Arg(body.firstname) && u.lastname == Arg(body.lastname)
    ensures body.email.Given? ==> u.email == body.email.value
    ensures body.password.Given? ==> u.password == body.password.value
    ensures u.created == if body.created.Given? then body.created.value else now
  {
    ConstructKeepsGiven(Init(Arg(body.email), Arg(body.password), None, Arg(body.firstname),
      Arg(body.lastname), Arg(body.created), Some(true), Some(false)), now);
    Construct(Init(
      email := Arg(body.email),
      password := Arg(body.password),
      roles := None,
      firstname := Arg(body.firstname),
      lastname := Arg(body.lastname),
      created := Arg(body.created),
      active := Some(true),
      verified := Some(false)), now)
  }

  /**
   * The record update writes back: each of the seven fields is overwritten only when
   * the body's value is truthy, otherwise the stored value stays.
   */
  function Merge(u: User, b: Body): (m: User)
    ensures m.roles == u.roles
    ensures u.active ==> m.active
    ensures u.verified ==> m.verified
    ensures HasRequired(u) ==> HasRequired(m)
  {
    u.(
      firstname := if TruthyText(b.firstname) then Some(b.firstname.value) else u.firstname,
      lastname := if TruthyText(b.lastname) then Some(b.lastname.value) else u.lastname,
      email := if TruthyText(b.email) then b.email.value else u.email,
      created := if TruthyText(b.created) then b.created.value else u.created,
      password := if TruthyText(b.password) then b.password.value else u.password,
      active := if TruthyFlag(b.active) then b.active.value else u.active,
      verified := if TruthyFlag(b.verified) then b.verified.value else u.verified)
  }

  /**
   * Reference semantics for a partial update: every field the body gives is written,
   * whatever its value. Merge agrees with it only on truthy values (MergeIsPatchOfTruthy).
   */
  function Patch(u: User, b: Body): (m: User)
    ensures b == EmptyBody ==> m == u
  {
    u.(
      firstname := if b.firstname.Given? then Some(b.firstname.value) else u.firstname,
      lastname := if b.lastname.Given? then Some(b.lastname.value) else u.lastname,
      email := if b.email.Given? then b.email.value else u.email,
      created := if b.created.Given? then b.created.value else u.created,
      password := if b.password.Given? then b.password.value else u.password,
      active := if b.active.Given? then b.active.value else u.active,
      verified := if b.verified.Given? then b.verified.value else u.verified)
  }

  function KeepTruthyText(f: Field<string>): Field<string> {
    if TruthyText(f) then f else Absent
  }

  function KeepTruthyFlag(f: Field<bool>): Field<bool> {
    if TruthyFlag(f) then f else Absent
  }

  /** The body with every falsy value dropped, as if its field had been left out. */
  function TruthyPart(b: Body): (t: Body)
    ensures t.active.Given? ==> t.active.value
    ensures t.verified.Given? ==> t.verified.value
    ensures t.email.Given? ==> t.email.value != ""
  {
    Body(KeepTruthyText(b.firstname), KeepTruthyText(b.lastname), KeepTruthyText(b.email),
      KeepTruthyText(b.created), KeepTruthyText(b.password),
      KeepTruthyFlag(b.active), KeepTruthyFlag(b.verified))
  }

  /** Every given value of the body is truthy. */
  predicate AllTruthy(b: Body) {
    (b.firstname.Given? ==> TruthyText(b.firstname)) &&
    (b.lastname.Given? ==> TruthyText(b.lastname)) &&
    (b.email.Given? ==> TruthyText(b.email)) &&
    (b.created.Given? ==> TruthyText(b.created)) &&
    (b.password.Given? ==> TruthyText(b.password)) &&
    (b.active.Given? ==> TruthyFlag(b.active)) &&
    (b.verified.Given? ==> TruthyFlag(b.verified))
  }

  /** The merge writes exactly the truthy part of the body, as a plain patch. */
  lemma MergeIsPatchOfTruthy(u: User, b: Body)
    ensures Merge(u, b) == Patch(u, TruthyPart(b))
  {
  }

  /** On a body whose values are all truthy, the merge and the plain patch agree. */
  lemma MergeAgreesWithPatch(u: User, b: Body)
    requires AllTruthy(b)
    ensures Merge(u, b) == Patch(u, b)
  {
  }

  /** An empty body leaves the record as it was. */
  lemma MergeEmptyBody(u: User)
    ensures Merge(u, EmptyBody) == u
  {
  }

  /** Applying the same body twice writes nothing new. */
  lemma MergeIdempotent(u: User, b: Body)
    ensures Merge(Merge(u, b), b) == Merge(u, b)
  {
  }

  /** `active: false` cannot deactivate a user, although a plain patch would. */
  lemma ActiveFalseIgnored(u: User)
    requires u.active
    ensures Merge(u, EmptyBody.(active := Given(false))).active
    ensures !Patch(u, EmptyBody.(active := Given(false))).active
  {
  }

  /** Neither flag can be turned off by an update: they only move from false to true. */
  lemma MergeNeverClearsFlags(u: User, b: Body)
    ensures Merge(u, b).active == (u.active || TruthyFlag(b.active))
    ensures Merge(u, b).verified == (u.verified || TruthyFlag(b.verified))
  {
  }

  // ---------------------------------------------------------------------------
  // Fixed response messages

  const MsgGetUsersError := "Error when getting users."
  const MsgGetUserError := "Error when getting user."
  const MsgNoSuchUser := "No such user"
  const MsgCreateError := "Error when creating user"
  const MsgUserExists := "User already exists."
  const MsgFindForUpdateError := "Error when updating user"
  const MsgSaveUpdateError := "Error when updating user."
  const MsgRemoveError := "Error when removing user."

  // ---------------------------------------------------------------------------
  // The controller over its store

  class UserStore {
    /** The document store: every stored user under its identifier. */
    var users: map<Id, User>

    ghost predicate Valid()
      reads this
    {
      ValidTable(users)
    }

    constructor ()
      ensures Valid() && users == map[]
    {
      users := map[];
    }

    /** `list`: every record, or 500 when the store fails. */
    method List(storeError: bool) returns (r: Response)
      requires Valid()
      ensures storeError ==> r == Response(500, Message(MsgGetUsersError))
      ensures !storeError ==> r == Response(200, Records(users))
    {
      if storeError {
        return Response(500, Message(MsgGetUsersError));
      }
      r := Response(200, Records(users));
    }

    /** `show`: the record under `id`, 404 when there is none. */
    method Show(valid: bool, storeError: bool, id: Id) returns (r: Response)
      requires Valid()
      ensures !valid ==> r == Response(400, ValidationErrors)
      ensures valid && storeError ==> r == Response(500, Message(MsgGetUserError))
      ensures valid && !storeError ==>
        (r.status == 404 <==> id !in users) &&
        (id !in users ==> r.payload == Message(MsgNoSuchUser)) &&
        (id in users ==> r == Response(200, Record(id, users[id])))
    {
      if !valid {
        return Response(400, ValidationErrors);
      }
      if storeError {
        return Response(500, Message(MsgGetUserError));
      }
      if id !in users {
        return Response(404, Message(MsgNoSuchUser));
      }
      r := Response(200, Record(id, users[id]));
    }

    /**
     * `create`: reject an email already in the store with 400, otherwise save the new
     * document under a fresh identifier and answer 201 with it. The save fails (500)
     * when the store fails or a required field is missing. `now` is the clock reading.
     */
    method Create(valid: bool, saveError: bool, body: Body, now: Timestamp) returns (r: Response)
      requires Valid()
      modifies this
      ensures Valid()
      ensures !valid ==> r == Response(422, ValidationErrors) && users == old(users)
      ensures valid && EmailTaken(old(users), NewUser(body, now).email) ==>
        r == Response(400, Message(MsgUserExists)) && users == old(users)
      ensures (valid && !EmailTaken(old(users), NewUser(body, now).email) &&
               (saveError || !HasRequired(NewUser(body, now)))) ==>
        r == Response(500, Message(MsgCreateError)) && users == old(users)
      ensures (valid && !EmailTaken(old(users), NewUser(body, now).email) &&
               !saveError && HasRequired(NewUser(body, now))) ==>
        r.status == 201 && r.payload.Record? && r.payload.id !in old(users) &&
        r.payload.user == NewUser(body, now) &&
        users == old(users)[r.payload.id := NewUser(body, now)]
      ensures r.status == 201 ==> r.payload.Record? && r.payload.user.active && !r.payload.user.verified
    {
      if !valid {
        return Response(422, ValidationErrors);
      }
      var candidate := NewUser(body, now);
      if EmailTaken(users, candidate.email) {
        return Response(400, Message(MsgUserExists));
      }
      if saveError || !HasRequired(candidate) {
        return Response(500, Message(MsgCreateError));
      }
      UnusedIdExists(users.Keys);
      var id: Id :| id !in users;
      InsertKeepsValid(users, id, candidate);
      users := users[id := candidate];
      r := Response(201, Record(id, candidate));
    }

    /**
     * `update`: merge the body's truthy fields into the record under `id` and save it.
     * The save fails (500) when the store fails or when the merged email belongs to
     * another record, which the schema's unique index refuses.
     */
    method Update(valid: bool, findError: bool, saveError: bool, id: Id, body: Body)
      returns (r: Response)
      requires Valid()
      modifies this
      ensures Valid()
      ensures !valid ==> r == Response(400, ValidationErrors) && users == old(users)
      ensures valid && findError ==>
        r == Response(500, Message(MsgFindForUpdateError)) && users == old(users)
      ensures valid && !findError && id !in old(users) ==>
        r == Response(404, Message(MsgNoSuchUser)) && users == old(users)
      ensures (valid && !findError && id in old(users) &&
               (saveError || EmailTakenByOther(old(users), id, Merge(old(users)[id], body).email))) ==>
        r == Response(500, Message(MsgSaveUpdateError)) && users == old(users)
      ensures (valid && !findError && id in old(users) && !saveError &&
               !EmailTakenByOther(old(users), id, Merge(old(users)[id], body).email)) ==>
        r == Response(200, Record(id, Merge(old(users)[id], body))) &&
        users == old(users)[id := Merge(old(users)[id], body)]
    {
      if !valid {
        return Response(400, ValidationErrors);
      }
      if findError {
        return Response(500, Message(MsgFindForUpdateError));
      }
      if id !in users {
        return Response(404, Message(MsgNoSuchUser));
      }
      var merged := Merge(users[id], body);
      if saveError || EmailTakenByOther(users, id, merged.email) {
        return Response(500, Message(MsgSaveUpdateError));
      }
      ReplaceKeepsValid(users, id, merged);
      users := users[id := merged];
      r := Response(200, Record(id, merged));
    }

    /** `remove`: delete the record under `id` if there is one; 204 either way. */
    method Remove(valid: bool, storeError: bool, id: Id) returns (r: Response)
      requires Valid()
      modifies this
      ensures Valid()
      ensures !valid ==> r == Response(400, ValidationErrors) && users == old(users)
      ensures valid && storeError ==>
        r == Response(500, Message(MsgRemoveError)) && users == old(users)
      ensures valid && !storeError ==>
        r == Response(204, NoContent) && users == old(users) - {id}
    {
      if !valid {
        return Response(400, ValidationErrors);
      }
      if storeError {
        return Response(500, Message(MsgRemoveError));
      }
      RemoveKeepsValid(users, id);
      users := users - {id};
      r := Response(204, NoContent);
    }
  }

  // ---------------------------------------------------------------------------
  // Clients: what a sequence of requests can rely on

  /** A fresh store lists no users. */
  method ListOfNewStore() returns (r: Response)
    ensures r == Response(200, Records(map[]))
  {
    var s := new UserStore();
    r := s.List(false);
  }

  /** A user created with a fresh email is then shown, active and unverified whatever the body asked. */
  method CreateThenShow(s: UserStore, body: Body, now: Timestamp) returns (created: Response, shown: Response)
    requires s.Valid()
    modifies s
    ensures s.Valid()
    ensures created.status == 201 ==>
      created.payload.Record? && shown == Response(200, Record(created.payload.id, NewUser(body, now)))
    ensures created.status == 201 ==> shown.payload.user.active && !shown.payload.user.verified
  {
    created := s.Create(true, false, body, now);
    var id := if created.payload.Record? then created.payload.id else 0;
    shown := s.Show(true, false, id);
  }

  /** The same body created twice: the second request conflicts and the first record stays as it was. */
  method CreateTwice(s: UserStore, body: Body, now1: Timestamp, now2: Timestamp)
    returns (first: Response, second: Response)
    requires s.Valid()
    modifies s
    ensures s.Valid()
    ensures first.status == 201 ==>
      first.payload.Record? &&
      second == Response(400, Message(MsgUserExists)) &&
      s.users == old(s.users)[first.payload.id := NewUser(body, now1)]
  {
    first := s.Create(true, false, body, now1);
    if first.status == 201 {
      var id := first.payload.id;
      assert NewUser(body, now2).email == NewUser(body, now1).email == s.users[id].email;
      assert EmailTaken(s.users, NewUser(body, now2).email);
    }
    second := s.Create(true, false, body, now2);
  }

  /** An update with an empty body answers 200 with the stored record and changes nothing. */
  method UpdateWithEmptyBody(s: UserStore, id: Id) returns (r: Response)
    requires s.Valid()
    modifies s
    ensures s.Valid() && s.users == old(s.users)
    ensures id in s.users ==> r == Response(200, Record(id, s.users[id]))
    ensures id !in s.users ==> r.status == 404
  {
    if id in s.users {
      MergeEmptyBody(s.users[id]);
    }
    r := s.Update(true, false, false, id, EmptyBody);
  }

  /** Removing twice answers 204 both times and leaves the id absent. */
  method RemoveTwice(s: UserStore, id: Id) returns (first: Response, second: Response)
    requires s.Valid()
    modifies s
    ensures s.Valid()
    ensures first == Response(204, NoContent) && second == Response(204, NoContent)
    ensures id !in s.users && s.users == old(s.users) - {id}
  {
    first := s.Remove(true, false, id);
    second := s.Remove(true, false, id);
  }
}
