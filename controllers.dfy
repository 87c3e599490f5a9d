/** The decisions of Controllers/DevicesController.cs.

    Each handler is a function from the devices table and the request to the table afterwards
    and the outcome the caller sees, composed from the service transitions of module
    `Services`. Outcomes are named for what they mean, not for their HTTP status. */
module Controllers {
  import opened Wrappers
  import opened Domain
  import Services

  /** The body of POST: name, brand and an optional state (the DTO's initialiser makes an
      omitted state Available). */
  datatype CreateDeviceDto = CreateDeviceDto(name: string, brand: string, state: Option<DeviceState>)

  /** The body of PUT and PATCH: every field may be omitted (null). */
  datatype UpdateDeviceDto = UpdateDeviceDto(
    name: Option<string>,
    brand: Option<string>,
    state: Option<DeviceState>)

  /** Which business rule refused a request. */
  datatype Rule = InUseFieldLock | InUseDeleteLock

  datatype Outcome =
    | Ok(device: Device)      // 200 with the device
    | Created(device: Device) // 201 with the device
    | Deleted                 // 200 with a confirmation
    | NotFound                // 404
    | Rejected(rule: Rule)    // 400 for a business rule
    | Invalid                 // 400 for a field constraint (only in PatchValidated)
    | ServerError             // 500

  type Response = Services.Transition<Outcome>

  /** What model validation demands of a POST body: `[Required, MaxLength(100)]` on both
      strings. */
  predicate ValidCreateDto(dto: CreateDeviceDto)
    ensures ValidCreateDto(dto) ==> 0 < |dto.name| <= MaxLength && 0 < |dto.brand| <= MaxLength
  {
    ValidText(dto.name) && ValidText(dto.brand)
  }

  /** Every name or brand an update body supplies meets the record's field constraints. */
  predicate SuppliedValid(dto: UpdateDeviceDto)
  {
    (dto.name.Some? ==> ValidText(dto.name.value)) && (dto.brand.Some? ==> ValidText(dto.brand.value))
  }

  /** No record disappears into a new id, and no record's id or creation time changes. */
  predicate KeepsIdentity(s: Store, s': Store)
  {
    s'.Keys <= s.Keys
    && forall k :: k in s' ==> s'[k].id == s[k].id && s'[k].createdAt == s[k].createdAt
  }

  /** The InUse rules across one request: an InUse record is still there, with its name and
      brand. */
  predicate HonoursInUseLock(s: Store, s': Store)
  {
    forall k :: k in s && s[k].state == InUse ==>
      k in s' && s'[k].name == s[k].name && s'[k].brand == s[k].brand
  }

  // ---------------------------------------------------------------- POST

  /** `Create` on a valid body, with the new id and the clock passed in. */
  function Create(s: Store, dto: CreateDeviceDto, freshId: DeviceId, now: Timestamp): (r: Response)
    requires ValidCreateDto(dto)
    requires freshId !in s
    ensures r.result.Created?
    ensures r.result.device == Device(freshId, dto.name, dto.brand, dto.state.GetOr(Available), now)
    ensures GetById(r.store, freshId) == Ok(r.result.device)
    ensures r.store.Keys == s.Keys + {freshId}
    ensures forall k :: k in s ==> k in r.store && r.store[k] == s[k]
    ensures ValidStore(s) ==> ValidStore(r.store)
  {
    var step := Services.CreateStep(s, freshId, dto.name, dto.brand, dto.state.GetOr(Available), now);
    Services.Transition(step.store, Created(step.result))
  }

  /** A POST body without a state creates an Available device. */
  lemma CreateDefaultsToAvailable(s: Store, name: string, brand: string, freshId: DeviceId, now: Timestamp)
    requires ValidText(name) && ValidText(brand) && freshId !in s
    ensures Create(s, CreateDeviceDto(name, brand, None), freshId, now).result.device.state == Available
  {
  }

  // ---------------------------------------------------------------- GET by id

  /** `GetById`: NotFound exactly when no record has the id, otherwise that record. */
  function GetById(s: Store, id: DeviceId): (r: Outcome)
    ensures r == NotFound <==> id !in s
    ensures id in s ==> r == Ok(s[id])
  {
    match Services.GetById(s, id)
    case None => NotFound
    case Some(device) => Ok(device)
  }

  // ---------------------------------------------------------------- PUT

  /** The guard of line 110: an InUse record and a body whose name or brand is not exactly
      the stored one; an omitted field is null, and null differs from every string. */
  predicate PutLocked(device: Device, dto: UpdateDeviceDto)
    ensures PutLocked(device, dto) ==> device.state == InUse
    ensures device.state == InUse && (dto.name.None? || dto.brand.None?) ==> PutLocked(device, dto)
    ensures dto == UpdateDeviceDto(Some(device.name), Some(device.brand), dto.state) ==> !PutLocked(device, dto)
  {
    device.state == InUse && (dto.name != Some(device.name) || dto.brand != Some(device.brand))
  }

  /** `Update` (PUT). Lines 114-116 assign the null-coalescing merge into the entity that
      `GetByIdAsync` returned, which is the very object the database context tracks; line 119
      then passes the merged name, brand and state to `UpdateAsync`, whose own lookup returns
      that same object. So the service's rule runs on the MERGED record, and the table keeps
      its old record unless the rule saves. The caller is shown the merge either way. */
  function Put(s: Store, id: DeviceId, dto: UpdateDeviceDto): (r: Response)
    ensures r.store.Keys == s.Keys
    ensures forall k :: k in s && k != id ==> r.store[k] == s[k]
    ensures KeepsIdentity(s, r.store) && HonoursInUseLock(s, r.store)
    ensures r.result == NotFound <==> id !in s
    ensures r.result.Ok? || r.result == NotFound || r.result == Rejected(InUseFieldLock)
    ensures !r.result.Ok? ==> r.store == s
  {
    match Services.GetById(s, id)
    case None => Services.Transition(s, NotFound)
    case Some(device) =>
      if PutLocked(device, dto) then Services.Transition(s, Rejected(InUseFieldLock))
      else
        var merged := Services.Coalesce(device, dto.name, dto.brand, dto.state);
        match Services.ApplyUpdate(merged, Some(merged.name), Some(merged.brand), Some(merged.state), true)
        case Unsaved(_) => Services.Transition(s, Ok(merged))
        case Saved(saved) => Services.Transition(s[id := saved], Ok(merged))
  }

  /** PUT on an InUse record is refused exactly when the body's name or brand is not the
      stored one, so an omitted name or brand is refused too; a refusal changes nothing. */
  lemma PutInUseLock(s: Store, id: DeviceId, dto: UpdateDeviceDto)
    requires id in s && s[id].state == InUse
    ensures Put(s, id, dto).result == Rejected(InUseFieldLock)
        <==> (dto.name != Some(s[id].name) || dto.brand != Some(s[id].brand))
    ensures dto.name.None? || dto.brand.None? ==> Put(s, id, dto) == Services.Transition(s, Rejected(InUseFieldLock))
  {
  }

  /** A PUT that passes the guard answers with the merge of the body over the stored record. */
  lemma PutAnswersMerge(s: Store, id: DeviceId, dto: UpdateDeviceDto)
    requires id in s && !PutLocked(s[id], dto)
    ensures Put(s, id, dto).result == Ok(Services.Coalesce(s[id], dto.name, dto.brand, dto.state))
  {
  }

  /** What a PUT that passes the guard leaves in the table: the merge, unless the merge is
      InUse, in which case the table is unchanged although the caller was shown the merge. */
  lemma PutStores(s: Store, id: DeviceId, dto: UpdateDeviceDto)
    requires id in s && !PutLocked(s[id], dto)
    ensures var merged := Services.Coalesce(s[id], dto.name, dto.brand, dto.state);
      Put(s, id, dto).store == if merged.state == InUse then s else s[id := merged]
  {
  }

  /** An InUse record whose PUT repeats its name and brand and asks for another state is
      moved to that state. */
  lemma PutReleasesInUse(s: Store, id: DeviceId, state: DeviceState)
    requires id in s && s[id].state == InUse && state != InUse
    ensures var dto := UpdateDeviceDto(Some(s[id].name), Some(s[id].brand), Some(state));
      Put(s, id, dto) == Services.Transition(s[id := s[id].(state := state)], Ok(s[id].(state := state)))
  {
  }

  /** Repeating a PUT gives the same table and the same answer as doing it once. */
  lemma PutIdempotent(s: Store, id: DeviceId, dto: UpdateDeviceDto)
    ensures Put(Put(s, id, dto).store, id, dto) == Put(s, id, dto)
  {
  }

  // ---------------------------------------------------------------- PATCH

  /** The guard of line 138: an InUse record and a body that supplies a name or a brand. */
  predicate PatchLocked(device: Device, dto: UpdateDeviceDto)
    ensures PatchLocked(device, dto) ==> device.state == InUse
    ensures dto.name.None? && dto.brand.None? ==> !PatchLocked(device, dto)
    ensures dto.name.Some? || dto.brand.Some? ==> (PatchLocked(device, dto) <==> device.state == InUse)
  {
    device.state == InUse && (dto.name.Some? || dto.brand.Some?)
  }

  /** `PartialUpdate` (PATCH): after the guard, the supplied fields go to `UpdateAsync`
      unchanged; the record it returns is the answer. */
  function Patch(s: Store, id: DeviceId, dto: UpdateDeviceDto): (r: Response)
    ensures r.store.Keys == s.Keys
    ensures forall k :: k in s && k != id ==> r.store[k] == s[k]
    ensures KeepsIdentity(s, r.store) && HonoursInUseLock(s, r.store)
    ensures r.result == NotFound <==> id !in s
    ensures r.result.Ok? || r.result == NotFound || r.result == Rejected(InUseFieldLock)
    ensures !r.result.Ok? ==> r.store == s
    ensures r.result.Ok? ==> r.store[id] == r.result.device
  {
    match Services.GetById(s, id)
    case None => Services.Transition(s, NotFound)
    case Some(device) =>
      if PatchLocked(device, dto) then Services.Transition(s, Rejected(InUseFieldLock))
      else
        var step := Services.UpdateStep(s, id, dto.name, dto.brand, dto.state, true);
        Services.Transition(step.store, Ok(step.result.value))
  }

  /** PATCH on an InUse record is refused, with no change, whenever a name or brand is
      supplied. */
  lemma PatchInUseLock(s: Store, id: DeviceId, dto: UpdateDeviceDto)
    requires id in s && s[id].state == InUse && (dto.name.Some? || dto.brand.Some?)
    ensures Patch(s, id, dto) == Services.Transition(s, Rejected(InUseFieldLock))
  {
  }

  /** A state-only PATCH succeeds on an InUse record and stores the new state. */
  lemma PatchStateOnly(s: Store, id: DeviceId, state: DeviceState)
    requires id in s && s[id].state == InUse
    ensures Patch(s, id, UpdateDeviceDto(None, None, Some(state)))
         == Services.Transition(s[id := s[id].(state := state)], Ok(s[id].(state := state)))
  {
  }

  /** A PATCH that passes the guard stores and answers the merge of the supplied fields. */
  lemma PatchMerges(s: Store, id: DeviceId, dto: UpdateDeviceDto)
    requires id in s && !PatchLocked(s[id], dto)
    ensures var merged := Services.Coalesce(s[id], dto.name, dto.brand, dto.state);
      Patch(s, id, dto) == Services.Transition(s[id := merged], Ok(merged))
  {
  }

  /** A PATCH with nothing supplied answers the stored record and changes nothing. */
  lemma EmptyPatchIsNoOp(s: Store, id: DeviceId)
    requires id in s
    ensures Patch(s, id, UpdateDeviceDto(None, None, None)) == Services.Transition(s, Ok(s[id]))
  {
  }

  /** On a record that is not InUse and is not being made InUse, PUT and PATCH with the same
      body do the same thing. */
  lemma PutAgreesWithPatch(s: Store, id: DeviceId, dto: UpdateDeviceDto)
    requires id in s && s[id].state != InUse && dto.state != Some(InUse)
    ensures Put(s, id, dto) == Patch(s, id, dto)
  {
  }

  // ---------------------------------------------------------------- DELETE

  /** `Delete`: NotFound for an absent id, the delete lock for an InUse record, otherwise
      the service removes the record. */
  function Delete(s: Store, id: DeviceId): (r: Response)
    ensures r.result == NotFound <==> id !in s
    ensures r.result == Rejected(InUseDeleteLock) <==> id in s && s[id].state == InUse
    ensures r.result == Deleted <==> id in s && s[id].state != InUse
    ensures r.result != Deleted ==> r.store == s
    ensures r.result == Deleted ==> r.store.Keys == s.Keys - {id}
    ensures forall k :: k in r.store ==> k in s && r.store[k] == s[k]
    ensures KeepsIdentity(s, r.store) && HonoursInUseLock(s, r.store)
  {
    match Services.GetById(s, id)
    case None => Services.Transition(s, NotFound)
    case Some(device) =>
      if device.state == InUse then Services.Transition(s, Rejected(InUseDeleteLock))
      else
        var step := Services.DeleteStep(s, id);
        if !step.result then Services.Transition(step.store, ServerError)
        else Services.Transition(step.store, Deleted)
  }

  /** After a DELETE the id is no longer found, unless the record was InUse, in which case
      it is still found unchanged. */
  lemma DeleteThenGetById(s: Store, id: DeviceId)
    ensures var after := Delete(s, id).store;
      GetById(after, id) == if id in s && s[id].state == InUse then Ok(s[id]) else NotFound
  {
  }

  // ---------------------------------------------------------------- sequences of requests

  /** A request that edits existing records. */
  datatype Edit = PutEdit(id: DeviceId, dto: UpdateDeviceDto)
                | PatchEdit(id: DeviceId, dto: UpdateDeviceDto)
                | DeleteEdit(id: DeviceId)

  function ApplyEdit(s: Store, e: Edit): (r: Store)
    ensures KeepsIdentity(s, r)
  {
    match e
    case PutEdit(id, dto) => Put(s, id, dto).store
    case PatchEdit(id, dto) => Patch(s, id, dto).store
    case DeleteEdit(id) => Delete(s, id).store
  }

  /** The table after a sequence of edits, applied in order. */
  function Replay(s: Store, edits: seq<Edit>): Store
    decreases |edits|
  {
    if edits == [] then s else Replay(ApplyEdit(s, edits[0]), edits[1..])
  }

  /** However many edits follow, a record that is still there has its original id and
      creation time, and no new ids appear. */
  lemma {:induction false} ReplayKeepsIdentity(s: Store, edits: seq<Edit>)
    ensures KeepsIdentity(s, Replay(s, edits))
    decreases |edits|
  {
    if edits != [] {
      var s1 := ApplyEdit(s, edits[0]);
      ReplayKeepsIdentity(s1, edits[1..]);
    }
  }

  /** Edits whose supplied names and brands meet the field constraints. */
  predicate ValidEdit(e: Edit)
  {
    match e
    case PutEdit(_, dto) => SuppliedValid(dto)
    case PatchEdit(_, dto) => SuppliedValid(dto)
    case DeleteEdit(_) => true
  }

  /** PUT and PATCH keep the table valid when the body's name and brand are valid. */
  lemma EditKeepsValidStore(s: Store, e: Edit)
    requires ValidStore(s) && ValidEdit(e)
    ensures ValidStore(ApplyEdit(s, e))
  {
  }

  /** A sequence of valid edits keeps the table valid. */
  lemma {:induction false} ReplayKeepsValidStore(s: Store, edits: seq<Edit>)
    requires ValidStore(s)
    requires forall i :: 0 <= i < |edits| ==> ValidEdit(edits[i])
    ensures ValidStore(Replay(s, edits))
    decreases |edits|
  {
    if edits != [] {
      EditKeepsValidStore(s, edits[0]);
      ReplayKeepsValidStore(ApplyEdit(s, edits[0]), edits[1..]);
    }
  }

  // ---------------------------------------------------------------- findings

  /** A one-record table in which the record is Available and valid. */
  function RouterTable(): (s: Store)
    ensures ValidStore(s) && 1 in s && s[1].state == Available
  {
    var d := Device(1, "Router X", "Acme", Available, 0);
    assert !IsWhiteSpace(d.name[0]) && !IsWhiteSpace(d.brand[0]);
    map[1 := d]
  }

  /** As written, a PUT that makes an Available record InUse answers with the InUse record
      and leaves the table as it was, so the device is still Available afterwards. */
  lemma PutToInUseIsNotSaved()
    ensures var s := RouterTable();
      var r := Put(s, 1, UpdateDeviceDto(None, None, Some(InUse)));
      r.result == Ok(s[1].(state := InUse)) && GetById(r.store, 1) == Ok(s[1])
      && GetById(r.store, 1) != r.result
  {
  }

  /** PUT as evidently intended: once the guard passes, the merge is stored and answered. */
  function PutIntended(s: Store, id: DeviceId, dto: UpdateDeviceDto): (r: Response)
    ensures r.store.Keys == s.Keys
    ensures forall k :: k in s && k != id ==> r.store[k] == s[k]
    ensures KeepsIdentity(s, r.store) && HonoursInUseLock(s, r.store)
    ensures r.result == NotFound <==> id !in s
    ensures r.result.Ok? || r.result == NotFound || r.result == Rejected(InUseFieldLock)
    ensures !r.result.Ok? ==> r.store == s
  {
    match Services.GetById(s, id)
    case None => Services.Transition(s, NotFound)
    case Some(device) =>
      if PutLocked(device, dto) then Services.Transition(s, Rejected(InUseFieldLock))
      else
        var merged := Services.Coalesce(device, dto.name, dto.brand, dto.state);
        Services.Transition(s[id := merged], Ok(merged))
  }

  /** The intended PUT stores what it answers, and differs from the written one only where
      the merge is InUse. */
  lemma PutIntendedStoresAnswer(s: Store, id: DeviceId, dto: UpdateDeviceDto)
    ensures var r := PutIntended(s, id, dto);
      r.result.Ok? ==> GetById(r.store, id) == r.result
    ensures var r := PutIntended(s, id, dto);
      r.result == Put(s, id, dto).result
      && (r.store != Put(s, id, dto).store ==> r.result.Ok? && r.result.device.state == InUse)
  {
  }

  /** As written, neither PUT nor PATCH checks the body's fields, so a blank name reaches
      the table and the table no longer meets the record's constraints. */
  lemma BlankNameAccepted()
    ensures var s := RouterTable();
      var dto := UpdateDeviceDto(Some(""), None, None);
      ValidStore(s) && !ValidStore(Patch(s, 1, dto).store) && !ValidStore(Put(s, 1, dto).store)
  {
  }

  /** PATCH with the field constraints checked on the body, as the record declares them. */
  function PatchValidated(s: Store, id: DeviceId, dto: UpdateDeviceDto): (r: Response)
    ensures SuppliedValid(dto) ==> r == Patch(s, id, dto)
    ensures !SuppliedValid(dto) ==> r == Services.Transition(s, Invalid)
    ensures ValidStore(s) ==> ValidStore(r.store)
  {
    if !SuppliedValid(dto) then Services.Transition(s, Invalid)
    else Patch(s, id, dto)
  }
}
