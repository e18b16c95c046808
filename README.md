# User resource controller: a Dafny model

This project models the user resource of a small Express and Mongoose backend. There are two parts:

- **`UserModel`** (`user_model.dfy`) models the persisted user record of `backend/src/app/models/user.model.ts`.
  - Its fields.
  - The defaults the schema fills into a new document: roles empty, active true, verified false, created stamped.
  - The required fields: email, password and created.
  - The unique-email constraint over the table of stored users.
- **`UserController`** (`user_controller.dfy`) models the five handlers of `backend/src/app/controllers/user.controller.js`: list, show, create, update and remove.
  - The class `UserStore` holds the store as a field `users: map<Id, User>`.
  - Each handler is a method that returns an HTTP status and a payload, and updates the map the way the source's storage calls do.
  - Every method keeps the table invariant `ValidTable`: every record has its required fields, and no two records share an email.

The outside world becomes inputs:

- The request-validation collaborator becomes a boolean `valid`.
- A failing storage call becomes a boolean (`storeError`, `findError`, `saveError`). Such a call answers 500 and leaves the store unchanged.
- The clock becomes a parameter `now`.

Each body field is `Absent` or `Given(value)`. An update writes a field only when the value is truthy in the JavaScript sense:

- a text field must be given and not `""`;
- a flag must be given and `true`.

This keeps the source's quirk: `active: false` cannot switch a user off (`ActiveFalseIgnored`, `MergeNeverClearsFlags`). `Patch` is the plain "write what is given" update. `MergeIsPatchOfTruthy` proves that the truthy merge is exactly `Patch` applied to the truthy part of the body.

Choices the source leaves to its libraries:

- A required string that was never supplied is held as `""`. Mongoose's required check rejects a missing string and an empty one alike, so a save of such a document fails with 500.
- The schema's unique index on `email` is modelled as part of the store.
  - `create` checks for a taken email first and answers 400 "User already exists.".
  - `update` has no such check. When the merged email belongs to another record, its save fails on the index and answers 500.
- A new record gets any identifier not yet in the store. `UnusedIdExists` proves that one always exists.

## Model

| member | source | states |
|---|---|---|
| `UserModel.Construct` | backend/src/app/models/user.model.ts:4-13 | The new document is complete (savable) exactly when email and password are non-empty and created (given or defaulted) is non-empty |
| `UserModel.ConstructDefaults` | backend/src/app/models/user.model.ts:7-12 | A document built from nothing has roles empty, names unset, active true, verified false and created stamped |
| `UserModel.ConstructKeepsGiven` | backend/src/app/models/user.model.ts:4-13 | Every value handed to the constructor is kept; defaults apply only to missing fields |
| `UserModel.ConstructStampsNow` | backend/src/app/models/user.model.ts:10 | Corrected default: a document built without created carries the clock reading at construction |
| `UserModel.ConstructAsWritten` | backend/src/app/models/user.model.ts:10 | As written, a document built without created carries the date fixed when the schema was loaded |
| `UserModel.AsWrittenIgnoresClock` | backend/src/app/models/user.model.ts:10 | As written, the constructed document does not depend on the clock at construction |
| `UserModel.AsWrittenStampsLoadTime` | backend/src/app/models/user.model.ts:10 | Concrete case: built a day after the schema loaded, the document is not stamped with the day it was built |
| `UserModel.EmailIdentifiesRecord` | backend/src/app/models/user.model.ts:5 | In a valid table two records with the same email are the same record |
| `UserModel.NoRecordHasEmptyEmail` | backend/src/app/models/user.model.ts:5-6 | No stored record has a missing email, so a lookup by a missing email finds nothing |
| `UserModel.InsertKeepsValid` | backend/src/app/models/user.model.ts:5-10 | Inserting a complete record under a fresh id with an unused email keeps uniqueness and required fields |
| `UserModel.ReplaceKeepsValid` | backend/src/app/models/user.model.ts:5-10 | Replacing a record by a complete one whose email no other record holds keeps the table valid |
| `UserModel.RemoveKeepsValid` | backend/src/app/models/user.model.ts:5 | Removing any id keeps the table valid |
| `UserModel.Bound` | backend/src/app/models/user.model.ts:16 | Every identifier in a finite set is below the bound |
| `UserModel.UnusedIdExists` | backend/src/app/models/user.model.ts:16 | Some identifier is always unused, so the store can assign one to a new record |
| `UserController.Arg` | backend/src/app/controllers/user.controller.js:50-55 | A body field reaches the constructor as given, and a missing field as undefined |
| `UserController.NewUser` | backend/src/app/controllers/user.controller.js:50-58 | The created document has active true, verified false and no roles whatever the body says, and takes names, email, password and created from the body (created defaulting to now) |
| `UserController.Merge` | backend/src/app/controllers/user.controller.js:110-116 | The merge keeps roles, never clears active or verified, and keeps a complete record complete |
| `UserController.Patch` | backend/src/app/controllers/user.controller.js:110-116 | Reference update that writes every given field; the empty body leaves the record unchanged |
| `UserController.TruthyPart` | backend/src/app/controllers/user.controller.js:110-116 | Dropping falsy values leaves only true flags and non-empty emails |
| `UserController.MergeIsPatchOfTruthy` | backend/src/app/controllers/user.controller.js:110-116 | The truthy merge equals the plain patch with the truthy part of the body |
| `UserController.MergeAgreesWithPatch` | backend/src/app/controllers/user.controller.js:110-116 | When every given value is truthy, the merge and the plain patch agree |
| `UserController.MergeEmptyBody` | backend/src/app/controllers/user.controller.js:110-116 | An empty body leaves the record unchanged |
| `UserController.MergeIdempotent` | backend/src/app/controllers/user.controller.js:110-116 | Applying the same body twice gives the same record as once |
| `UserController.ActiveFalseIgnored` | backend/src/app/controllers/user.controller.js:115 | `active: false` leaves an active user active, while a plain patch would deactivate it |
| `UserController.MergeNeverClearsFlags` | backend/src/app/controllers/user.controller.js:115-116 | After an update active (verified) is true exactly when it was already true or the body set it to true |
| `UserController.UserStore.List` | backend/src/app/controllers/user.controller.js:12-21 | 200 with exactly the stored records, or 500 on a storage error; the store is not changed |
| `UserController.UserStore.Show` | backend/src/app/controllers/user.controller.js:24-43 | 400 on failed validation, 500 on a storage error, 404 exactly when the id is absent, else 200 with the stored record; never changes the store |
| `UserController.UserStore.Create` | backend/src/app/controllers/user.controller.js:45-82 | 422 on failed validation; 400 "User already exists." when the email is taken; 500 when the save fails or a required field is missing; else 201 with the new record, active and unverified, under a fresh id, added and nothing else changed; the table stays valid |
| `UserController.UserStore.Update` | backend/src/app/controllers/user.controller.js:92-129 | 400 on failed validation, 500 on a lookup error, 404 on a missing id, 500 when the save fails or the merged email belongs to another record, else 200 with the merged record, which replaces only that id; unchanged store on every error |
| `UserController.UserStore.Remove` | backend/src/app/controllers/user.controller.js:131-145 | 400 on failed validation, 500 on a storage error, else 204 whether or not the id existed, with exactly that id removed |
| `UserController.ListOfNewStore` | backend/src/app/controllers/user.controller.js:12-21 | Listing an empty store answers 200 with no records |
| `UserController.CreateThenShow` | backend/src/app/controllers/user.controller.js:45-74 | After a 201 create, showing the returned id answers 200 with that record, active and unverified |
| `UserController.CreateTwice` | backend/src/app/controllers/user.controller.js:62-81 | Creating the same body twice: the second answers 400 "User already exists." and the first record stays as created |
| `UserController.UpdateWithEmptyBody` | backend/src/app/controllers/user.controller.js:97-127 | An empty-body update of an existing id answers 200 with the stored record and changes nothing; a missing id answers 404 |
| `UserController.RemoveTwice` | backend/src/app/controllers/user.controller.js:131-145 | Removing the same id twice answers 204 both times and the id is absent afterwards |

## Left out

- HTTP plumbing (`res.status().json`) is left out. A response is a status code and a payload. The raw storage error echoed in 500 bodies is not modelled; only the fixed message is kept.
- The express-validator rules are not modelled. Only their verdict takes part, as `valid`.
- UserController.UserStore.Create: the lookup-error branch (controller lines 83-88) is not modelled. It runs after the save may already have been started, so it can answer twice. A failing lookup is therefore not an input; only a failing save is.
- UserController.UserStore.Show and UserController.UserStore.List return the password. The schema's `select: false` projection is not modelled.
- UserController.UserStore.List returns the records as a map from identifier to record, so the order the store returns them in is not modelled.
- The race between create's email check and its insert is concurrency and out of scope. The model is sequential.
- Body fields are typed: text fields carry strings and `active`/`verified` carry booleans. Mongoose's casting of a JSON value of another type is not modelled. That covers a number, `null`, a string in `active`, a boolean in a text field, and a date string that does not parse. Timestamps are opaque strings.
- Real `ObjectId` generation is not modelled. A new record gets any identifier not yet used.
- The mongoose connection, the clock (`Date()`), and the `IUser` interface's TypeScript typing are not modelled. `IUser` declares the names non-optional, while the schema leaves them optional; the model follows the schema.
- `backend/src/app/models/motd.model.ts` is a passive schema that no handler uses. `frontend/src/app/interfaces/user.model.ts` is a type-only mirror of the user record. Neither is modelled.

## Findings

| source | as written | input that shows it | evidently intended | confidence | as-written member | corrected member |
|---|---|---|---|---|---|---|
| backend/src/app/models/user.model.ts:10 | `default: Date()` calls `Date()` once, when the schema is defined, so every defaulted `created` is the server's start time | a create without `created`, a day after the server started, is stamped with the start day (`AsWrittenStampsLoadTime`) | the creation time (`Date.now` as the default), as the record's description says | medium, not executed | UserModel.ConstructAsWritten | UserModel.Construct |

The handlers use the corrected `Construct`, with the clock reading `now` passed to `Create`. `ConstructStampsNow` proves the intended property. `AsWrittenIgnoresClock` shows that the schema as written ignores the clock.
