# Device lifecycle rules, modelled in Dafny

This project models the rule engine of a small device-records service: a Device record
(id, name, brand, lifecycle state, creation time), the service that creates, queries,
updates and deletes such records, and the HTTP handlers that decide between success,
"not found" and a business-rule refusal. The database table is a finite map from id to
record (`Domain.Store`), and every operation is a transition on that map.

- `wrappers.dfy`, module `Wrappers`: `Option`, standing for C#'s nullable values; `GetOr` is `??`.
- `domain.dfy`, module `Domain` (Domain/Device.cs): the record, its states, its field
  constraints (`Required`, `MaxLength(100)`), its default values, and the table keyed by id.
- `services.dfy`, module `Services` (Services/DeviceService.cs): the queries as functions;
  the update rule on one record (`ApplyUpdate`); the table transitions `CreateStep`,
  `UpdateStep` and `DeleteStep`; and class `DeviceService`, whose methods change its
  `devices` field step by step and are proved equal to those transitions.
- `controllers.dfy`, module `Controllers` (Controllers/DevicesController.cs): each handler
  is a function from the table and the request to the new table and an `Outcome`
  (`Ok`, `Created`, `Deleted`, `NotFound`, `Rejected(rule)`, `Invalid`, `ServerError`). It also holds
  lemmas over sequences of requests, and the two findings below.
- `scenarios.dfy`, module `Scenarios`: request sequences on concrete tables.

The two InUse rules stated in the model:
- An InUse record keeps its name and brand, and cannot be deleted
  (`Controllers.HonoursInUseLock`, ensured by `Put`, `Patch` and `Delete`).
- A record keeps its id and creation time for as long as it exists
  (`Controllers.KeepsIdentity`, carried over any sequence of edits by `ReplayKeepsIdentity`).

Where the design description and the code differ, the model follows the code:
- The service's own update path does not report a refusal. When the InUse lock fires,
  `UpdateAsync` returns the record unchanged, like a success (`Services.ApplyUpdate`).
  Only the handlers return a refusal.
- A PUT compares the body with the stored record. An omitted field counts as a change,
  so an InUse record refuses a PUT that leaves out its name or brand.

The id generator and the clock are parameters (`freshId`, `now`). Model validation of
the POST body becomes the precondition `ValidCreateDto`.

## Model

| member | source | states |
|---|---|---|
| `Domain.IsWhiteSpace` | Domain/Device.cs:11-15 | The white-space characters that `[Required]` looks past: space, tab, line feed, carriage return, vertical tab and form feed, all at most code 32. |
| `Domain.Required` | Domain/Device.cs:11-15 | `[Required]`: the string holds a character that is not white space. A string that fails is empty or all white space. |
| `Domain.ValidText` | Domain/Device.cs:11-15 | `[Required, MaxLength(100)]`: required, and at most 100 characters long, so between 1 and 100 characters. |
| `Domain.ValidDevice` | Domain/Device.cs:11-15 | A record meets its field constraints when both its name and its brand do. |
| `Domain.KeyedById` | Domain/Device.cs:8-9 | `[Key]` on `Id`: each record is filed under its own id, so each stored record can be found by its id. |
| `Domain.DefaultDevice` | Domain/Device.cs:9-19 | A default-constructed device is Available, has the empty id and the given creation time, and its empty name and brand fail `[Required]`. |
| `Domain.OneDevicePerId` | Domain/Device.cs:8-9 | In a table keyed by id, two stored devices with the same id are the same device. |
| `Domain.RecordCount` | Domain/Device.cs:8-9 | A table keyed by id holds as many distinct records as ids. |
| `Services.Lower` | Services/DeviceService.cs:53 | Lower-casing keeps the length and maps each character to its lower-case form. |
| `Services.LowerIdempotent` | Services/DeviceService.cs:53 | Lower-casing twice gives the same result as lower-casing once. |
| `Services.LowerOfUpper` | Services/DeviceService.cs:53 | Upper-casing a string first does not change its lower-case form. |
| `Services.GetById` | Services/DeviceService.cs:37-40 | Returns a device exactly when the id is stored, and that device is the stored record. |
| `Services.GetAll` | Services/DeviceService.cs:43-46 | A device is listed exactly when some id maps to it. |
| `Services.GetAllCount` | Services/DeviceService.cs:43-46 | The listing has one device per stored id: nothing is lost and nothing is merged. |
| `Services.GetByBrand` | Services/DeviceService.cs:49-55 | Lists exactly the stored devices whose lower-cased brand equals the lower-cased argument. |
| `Services.GetByBrandIgnoresCase` | Services/DeviceService.cs:49-55 | Any two arguments with the same lower case select the same devices. So do an argument, its lower case and its upper case. |
| `Services.GetByState` | Services/DeviceService.cs:58-64 | Lists exactly the stored devices in the given state. |
| `Services.GetByStatePartition` | Services/DeviceService.cs:58-64 | The three state queries together list every device, and no device appears in two of them. |
| `Services.CreateStep` | Services/DeviceService.cs:20-33 | Adds exactly one record under the fresh id, with the given name, brand, state and time. Returns the record it stored, keeps every other record, and keeps the table keyed by id. |
| `Services.Coalesce` | Services/DeviceService.cs:86-89 | Each supplied field overwrites the stored one and each absent field is kept. Id and creation time never change. |
| `Services.CoalesceNothing` | Services/DeviceService.cs:86-89 | Merging with no field supplied gives the record back. |
| `Services.CoalesceIdempotent` | Services/DeviceService.cs:86-89 | Merging the same fields twice gives the same record as merging them once. |
| `Services.ApplyUpdate` | Services/DeviceService.cs:77-92 | Nothing is saved exactly when the record is InUse and a name or brand is supplied; the record then comes back unchanged. Otherwise the merge is saved. An InUse record never gets a new name or brand. |
| `Services.UpdateStep` | Services/DeviceService.cs:67-93 | An absent id gives null and no change. Otherwise the returned device is the one stored afterwards. No other record changes, the set of ids stays the same, and the table stays keyed by id. |
| `Services.UpdateNotFound` | Services/DeviceService.cs:74-75 | Updating an absent id returns null and leaves the table unchanged. |
| `Services.UpdateInUseLock` | Services/DeviceService.cs:80-84 | On an InUse record with a name or brand supplied, the table is unchanged and the stored record is returned. |
| `Services.UpdateMerges` | Services/DeviceService.cs:86-92 | Outside the lock, the merged record is stored and returned. |
| `Services.EmptyUpdateIsNoOp` | Services/DeviceService.cs:86-92 | An update with no field supplied returns the stored record and changes nothing. |
| `Services.UpdateIgnoresIsPartial` | Services/DeviceService.cs:67-72 | The `isPartial` flag makes no difference to the table or to the result. |
| `Services.DeleteStep` | Services/DeviceService.cs:96-108 | Returns true exactly when the id is stored and the record is not InUse. If false, the table is unchanged. If true, exactly that id is removed. No surviving record changes. |
| `Services.DeviceService.constructor` | Services/DeviceService.cs:14-17 | The service starts on the given table. |
| `Services.DeviceService.Create` | Services/DeviceService.cs:20-33 | Building the record and adding it to `devices` has the effect `CreateStep` describes, and keeps `devices` keyed by id. |
| `Services.DeviceService.Update` | Services/DeviceService.cs:67-93 | Finding the record, testing the lock, assigning the supplied fields and saving has the effect `UpdateStep` describes. |
| `Services.DeviceService.Delete` | Services/DeviceService.cs:96-108 | Finding the record, refusing an InUse one and removing it has the effect `DeleteStep` describes. |
| `Controllers.ValidCreateDto` | DTOs/CreateDeviceDto.cs:8-12 | A POST body is valid when its name and its brand are both required and at most 100 characters long. |
| `Controllers.Create` | Controllers/DevicesController.cs:29-37 | Answers Created with the body's name and brand, the body's state or else Available, the fresh id and the time. The new device is found by its id afterwards. The fresh id is the only id added, every existing record is kept as it was, and table validity is kept. |
| `Controllers.CreateDefaultsToAvailable` | DTOs/CreateDeviceDto.cs:14 | A POST body without a state creates an Available device. |
| `Controllers.GetById` | Controllers/DevicesController.cs:41-49 | Answers NotFound exactly when the id is absent, and otherwise answers the stored device. |
| `Controllers.PutLocked` | Controllers/DevicesController.cs:110 | The PUT guard fires only on an InUse record. On an InUse record it fires for any body that omits the name or the brand. It never fires for a body that repeats the stored name and brand. |
| `Controllers.Put` | Controllers/DevicesController.cs:97-122 | NotFound exactly when the id is absent. The answer is Ok, NotFound or the field-lock refusal, and only Ok can change the table. The ids stay the same and no other record changes. Ids and creation times are kept, and the InUse rules hold. |
| `Controllers.PutInUseLock` | Controllers/DevicesController.cs:109-111 | On an InUse record, PUT is refused exactly when the body's name or brand is not the stored one. So an omitted name or brand is refused too, and a refusal changes nothing. |
| `Controllers.PutAnswersMerge` | Controllers/DevicesController.cs:113-121 | When the guard passes, PUT answers the merge of the body over the stored record. |
| `Controllers.PutStores` | Controllers/DevicesController.cs:113-121 | When the guard passes, PUT stores the merge, unless the merge is InUse. In that case the table is left as it was. |
| `Controllers.PutReleasesInUse` | Controllers/DevicesController.cs:109-121 | A PUT that repeats an InUse record's name and brand and asks for another state stores and answers that state. |
| `Controllers.PutIdempotent` | Controllers/DevicesController.cs:97-122 | Repeating a PUT gives the same table and the same answer as doing it once. |
| `Controllers.PatchLocked` | Controllers/DevicesController.cs:138 | The PATCH guard never fires for a body without a name or a brand. For a body with either one, it fires exactly when the record is InUse. |
| `Controllers.Patch` | Controllers/DevicesController.cs:127-151 | Has the same table and refusal guarantees as PUT. In addition, a successful PATCH stores exactly the device it answers. |
| `Controllers.PatchInUseLock` | Controllers/DevicesController.cs:137-139 | On an InUse record, a PATCH that supplies a name or brand is refused, and the table is unchanged. |
| `Controllers.PatchStateOnly` | Controllers/DevicesController.cs:137-150 | A state-only PATCH on an InUse record succeeds and stores the new state. |
| `Controllers.PatchMerges` | Controllers/DevicesController.cs:141-150 | When the guard passes, PATCH stores and answers the merge of the supplied fields. |
| `Controllers.EmptyPatchIsNoOp` | Controllers/DevicesController.cs:141-150 | A PATCH with no field supplied answers the stored record and changes nothing. |
| `Controllers.PutAgreesWithPatch` | Controllers/DevicesController.cs:97-151 | On a record that is not InUse and is not being made InUse, PUT and PATCH with the same body have the same effect and the same answer. |
| `Controllers.Delete` | Controllers/DevicesController.cs:156-176 | NotFound exactly when the id is absent, the delete-lock refusal exactly when the record is InUse, and Deleted otherwise. Only Deleted changes the table, and it removes exactly that id. Every record that remains is unchanged. |
| `Controllers.DeleteThenGetById` | Controllers/DevicesController.cs:156-176 | After a DELETE the id is not found, unless the record was InUse. In that case the record is still found unchanged. |
| `Controllers.ApplyEdit` | Controllers/DevicesController.cs:97-176 | No PUT, PATCH or DELETE adds an id or changes a record's id or creation time. |
| `Controllers.ReplayKeepsIdentity` | Domain/Device.cs:19 | Across any sequence of PUT, PATCH and DELETE requests, no id is added, and a surviving record keeps its id and creation time. |
| `Controllers.EditKeepsValidStore` | Domain/Device.cs:11-15 | PUT, PATCH and DELETE keep every record within its field constraints when the body's name and brand meet them. |
| `Controllers.ReplayKeepsValidStore` | Domain/Device.cs:11-15 | A sequence of such requests keeps the whole table valid. |
| `Controllers.PutToInUseIsNotSaved` | Controllers/DevicesController.cs:113-121 | Counterexample: a PUT that makes an Available device InUse answers the InUse device, but the table still holds it as Available. |
| `Controllers.PutIntended` | Controllers/DevicesController.cs:113-121 | Corrected PUT: has the same guard and answers as PUT, and stores the merge whenever the guard passes. |
| `Controllers.PutIntendedStoresAnswer` | Controllers/DevicesController.cs:113-121 | The corrected PUT stores what it answers. It differs from the written PUT only when the merge is InUse. |
| `Controllers.BlankNameAccepted` | DTOs/UpdateDeviceDto.cs:7-9 | Counterexample: PUT and PATCH with a blank name turn a valid table into an invalid one. |
| `Controllers.PatchValidated` | DTOs/UpdateDeviceDto.cs:5-10 | Corrected PATCH: refuses a body with an invalid name or brand and changes nothing; otherwise it is PATCH. It keeps a valid table valid. |
| `Scenarios.BrandQuery` | Services/DeviceService.cs:49-55 | With brands "Acme", "ACME" and "Zenith" stored, the query "acme" finds exactly the two Acme devices. |
| `Scenarios.CreateThenGet` | Controllers/DevicesController.cs:29-49 | Creating "Router X"/"Acme" as Available answers that device, and looking up its id finds the same record. |
| `Scenarios.InUseLifecycle` | Controllers/DevicesController.cs:127-176 | Starting from a newly created InUse device: a renaming PATCH is refused and the name stays; a state-only PATCH to Available succeeds; a DELETE then succeeds, and the id is no longer found. |
| `Scenarios.InUseDeleteRefused` | Controllers/DevicesController.cs:156-166 | A newly created InUse device cannot be deleted and is still found afterwards. |

## Left out

- HTTP plumbing is not modelled: routing, status codes, message texts, `Ping`, and the
  pass-through handlers `GetAll`, `GetByBrand` and `GetByState`, which only wrap the
  service queries in Ok.
- Model validation (`ModelState.IsValid`) is not modelled as an outcome. For POST it is
  the precondition `ValidCreateDto`. The PUT and PATCH bodies declare no constraints, so
  their validation only rejects malformed JSON, which has no counterpart here.
- Entity Framework is replaced by the map: saving, the `AsNoTracking` queries, the
  database-side `GETUTCDATE()` default and the column definitions of
  Data/DevicesDbContext.cs are all outside the model. The change tracker enters the model
  only through its effect on PUT (see `Controllers.Put`).
- `Controllers.Put`: the in-place assignment to the tracked entity is modelled as a merged
  value, and the service rule is applied to that value. References and aliasing are not
  modelled.
- Column lengths are not enforced by the map. A name longer than 100 characters sent
  through PUT or PATCH would make a real save fail with an infrastructure error; in the
  model it is stored.
- `async`/`Task` are not modelled: operations are sequential.
- `Guid.NewGuid()` and `DateTime.UtcNow` are parameters. Id uniqueness is the
  precondition `freshId !in s`.
- Culture-sensitive `ToLower` is modelled as ASCII case folding (`Services.Lower`).
  `[Required]` rejects strings made only of white space; the model knows only ASCII
  white space. `MaxLength(100)` counts UTF-16 code units, while `Domain.ValidText` counts
  characters (Unicode scalar values), so a string with characters outside the Basic
  Multilingual Plane can pass the model's bound and fail the attribute.
- `Services.GetAll`, `Services.GetByBrand`, `Services.GetByState`: they return sets, not
  lists. Store order is not part of the contract, and the ids make the records distinct.
- `Services.DeviceService`: the query methods are the module's functions applied to its
  `devices` field, not methods of the class.
- `Controllers.Patch`: the service could return null after the guard passes (the source
  would answer Ok with no body), but only under a concurrent delete. The model is
  sequential, so that case cannot arise.
- `Controllers.Delete`: the ServerError answer (the service declining after the handler's
  own checks) is kept, but it cannot arise sequentially.
- `Controllers.ReplayKeepsIdentity`: sequences of creates are not covered. In the model a
  deleted id could be handed out again, while real GUIDs never repeat.
- Concurrency is not modelled: read-then-write races between requests are not
  coordinated by the source.

## Findings

| source | as written | input that shows it | evidently intended | confidence | as-written member | corrected member |
|---|---|---|---|---|---|---|
| Controllers/DevicesController.cs:113-121 | PUT writes the merge into the entity the context tracks. `UpdateAsync` (Services/DeviceService.cs:80-83) then finds that same entity already InUse, with a non-null name, and returns without saving. The handler still answers Ok with the merge. | PUT with body `{state: InUse}` on an Available device: the answer shows InUse, the device stays Available. | A PUT that passes the handler's guard stores the merge it answers. | medium, not executed | `Controllers.Put`, shown by `Controllers.PutToInUseIsNotSaved` | `Controllers.PutIntended`, proved by `Controllers.PutIntendedStoresAnswer` |
| DTOs/UpdateDeviceDto.cs:7-9 | The update body carries no `[Required]`/`MaxLength` attributes, so PUT and PATCH store any supplied name or brand. | PATCH with body `{name: ""}` on a valid device: the stored name is empty. | Supplied names and brands meet the record's constraints (Domain/Device.cs:11-15). | medium, not executed | `Controllers.Patch`, shown by `Controllers.BlankNameAccepted` | `Controllers.PatchValidated` |
