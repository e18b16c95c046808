/**
 * The persisted user record of backend/src/app/models/user.model.ts: its shape,
 * the defaults the schema fills in when a document is constructed, the schema's
 * required fields, and the unique-email constraint over the whole table.
 */
module UserModel {

  datatype Option<+T> = None | Some(value: T) {
    /** The wrapped value, or `default` when there is none. */
    function GetOr(default: T): T {
      match this
      case Some(v) => v
      case None => default
    }
  }

  /** Record identifiers are opaque values chosen by the store. */
  type Id = nat

  /** A date as the store keeps it, held as text; parsing and formatting are not modelled. */
  type Timestamp = string

  /**
   * One stored user. A required string that was never supplied is held as "":
   * the schema's required check rejects a missing string and an empty one alike,
   * so no stored record ever carries the empty value (see HasRequired).
   */
  datatype User = User(
    email: string,
    password: string,
    roles: seq<string>,
    firstname: Option<string>,
    lastname: Option<string>,
    created: Timestamp,
    active: bool,
    verified: bool)

  /** The values handed to the document constructor; None is a field left undefined. */
  datatype Init = Init(
    email: Option<string>,
    password: Option<string>,
    roles: Option<seq<string>>,
    firstname: Option<string>,
    lastname: Option<string>,
    created: Option<Timestamp>,
    active: Option<bool>,
    verified: Option<bool>)

  /** A constructor call that supplies no field at all. */
  const NothingGiven: Init := Init(None, None, None, None, None, None, None, None)

  /** The schema's required fields are present: email, password and created (roles always has its default). */
  predicate HasRequired(u: User) {
    u.email != "" && u.password != "" && u.created != ""
  }

  /**
   * Constructs a document: every field that was given is kept, every missing one takes
   * the schema's default (roles empty, active true, verified false, created `now`).
   * `now` is the clock reading at construction; the schema as written uses another
   * value there, see ConstructAsWritten.
   */
  function Construct(init: Init, now: Timestamp): (u: User)
    ensures HasRequired(u) <==>
      init.email.GetOr("") != "" && init.password.GetOr("") != "" && init.created.GetOr(now) != ""
  {
    User(
      email := init.email.GetOr(""),
      password := init.password.GetOr(""),
      roles := init.roles.GetOr([]),
      firstname := init.firstname,
      lastname := init.lastname,
      created := init.created.GetOr(now),
      active := init.active.GetOr(true),
      verified := init.verified.GetOr(false))
  }

  /** A document built from nothing holds exactly the schema's defaults. */
  lemma ConstructDefaults(now: Timestamp)
    ensures Construct(NothingGiven, now) == User("", "", [], None, None, now, true, false)
  {
  }

  /** A document keeps every value it was given. */
  lemma ConstructKeepsGiven(init: Init, now: Timestamp)
    ensures init.email.Some? ==> Construct(init, now).email == init.email.value
    ensures init.password.Some? ==> Construct(init, now).password == init.password.value
    ensures init.roles.Some? ==> Construct(init, now).roles == init.roles.value
    ensures Construct(init, now).firstname == init.firstname
    ensures Construct(init, now).lastname == init.lastname
    ensures init.created.Some? ==> Construct(init, now).created == init.created.value
    ensures init.active.Some? ==> Construct(init, now).active == init.active.value
    ensures init.verified.Some? ==> Construct(init, now).verified == init.verified.value
  {
  }

  /** The corrected default: a document built without `created` is stamped with the clock reading. */
  lemma ConstructStampsNow(init: Init, now: Timestamp)
    requires init.created.None?
    ensures Construct(init, now).created == now
  {
  }

  /**
   * The schema as written: the default for `created` is the value `Date()` returned once,
   * when the schema was defined, so the clock reading at construction plays no part.
   */
  function ConstructAsWritten(init: Init, schemaLoadTime: Timestamp, now: Timestamp): (u: User)
    ensures init.created.None? ==> u.created == schemaLoadTime
  {
    Construct(init, schemaLoadTime)
  }

  /** As written, two documents built at different moments without `created` get the same date. */
  lemma AsWrittenIgnoresClock(init: Init, schemaLoadTime: Timestamp, now1: Timestamp, now2: Timestamp)
    ensures ConstructAsWritten(init, schemaLoadTime, now1) == ConstructAsWritten(init, schemaLoadTime, now2)
  {
  }

  /** A concrete instance: a document built a day after the schema loaded is stamped with the load date. */
  lemma AsWrittenStampsLoadTime()
    ensures ConstructAsWritten(NothingGiven, "2024-01-01", "2024-01-02").created != "2024-01-02"
  {
  }

  // ---------------------------------------------------------------------------
  // The table of stored users and its invariant

  /** No two distinct records share an email (the schema's unique index). */
  predicate UniqueEmails(t: map<Id, User>) {
    forall a, b | a in t && b in t && a != b :: t[a].email != t[b].email
  }

  /** Some record holds this email. */
  predicate EmailTaken(t: map<Id, User>, email: string) {
    exists id | id in t :: t[id].email == email
  }

  /** Some record other than `id` holds this email. */
  predicate EmailTakenByOther(t: map<Id, User>, id: Id, email: string) {
    exists other | other in t && other != id :: t[other].email == email
  }

  /** What the schema guarantees of every stored table. */
  predicate ValidTable(t: map<Id, User>) {
    (forall id | id in t :: HasRequired(t[id])) && UniqueEmails(t)
  }

  /** In a valid table an email identifies at most one record. */
  lemma EmailIdentifiesRecord(t: map<Id, User>, a: Id, b: Id)
    requires ValidTable(t)
    requires a in t && b in t && t[a].email == t[b].email
    ensures a == b
  {
  }

  /** The empty string never names a stored record, so lookups by a missing email find nothing. */
  lemma NoRecordHasEmptyEmail(t: map<Id, User>)
    requires ValidTable(t)
    ensures !EmailTaken(t, "")
  {
  }

  /** Inserting a complete record under a fresh id with an unused email keeps the table valid. */
  lemma InsertKeepsValid(t: map<Id, User>, id: Id, u: User)
    requires ValidTable(t) && id !in t
    requires HasRequired(u) && !EmailTaken(t, u.email)
    ensures ValidTable(t[id := u])
  {
  }

  /** Replacing a record by a complete one whose email no other record uses keeps the table valid. */
  lemma ReplaceKeepsValid(t: map<Id, User>, id: Id, u: User)
    requires ValidTable(t) && id in t
    requires HasRequired(u) && !EmailTakenByOther(t, id, u.email)
    ensures ValidTable(t[id := u])
  {
  }

  /** Removing a record, present or not, keeps the table valid. */
  lemma RemoveKeepsValid(t: map<Id, User>, id: Id)
    requires ValidTable(t)
    ensures ValidTable(t - {id})
  {
  }

  // ---------------------------------------------------------------------------
  // Fresh identifiers

  /** A strict upper bound of a finite set of identifiers. */
  ghost function Bound(ids: set<Id>): (b: Id)
    ensures forall id | id in ids :: id < b
    decreases |ids|
  {
    if ids == {} then 0
    else
      var x :| x in ids;
      var rest := Bound(ids - {x});
      assert forall id | id in ids :: id == x || id in ids - {x};
      if x < rest then rest else x + 1
  }

  /** However many records the store holds, an unused identifier exists. */
  lemma UnusedIdExists(ids: set<Id>)
    ensures exists id: Id :: id !in ids
  {
    var b := Bound(ids);
    assert b !in ids;
  }
}
