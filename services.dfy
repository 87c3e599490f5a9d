/** The business rules of Services/DeviceService.cs.

    Every operation is first stated as a pure transition on the devices table (a `Store`),
    and class `DeviceService` then performs it step by step on its `devices` field, with a
    contract tying the new table and the returned value to that transition. */
module Services {
  import opened Wrappers
  import opened Domain

  /** The table after an operation, and what the operation returned. */
  datatype Transition<R> = Transition(store: Store, result: R)

  // ---------------------------------------------------------------- case folding

  /** `char.ToLower` on ASCII letters; every other character is its own lower case. */
  function LowerChar(c: char): (r: char)
    ensures 'A' <= c <= 'Z' ==> r as int == c as int + 32
    ensures !('A' <= c <= 'Z') ==> r == c
    ensures !('A' <= r <= 'Z')
  {
    if 'A' <= c <= 'Z' then (c as int + 32) as char else c
  }

  /** `char.ToUpper` on ASCII letters. */
  function UpperChar(c: char): (r: char)
    ensures 'a' <= c <= 'z' ==> r as int == c as int - 32
    ensures !('a' <= c <= 'z') ==> r == c
    ensures LowerChar(r) == LowerChar(c)
  {
    if 'a' <= c <= 'z' then (c as int - 32) as char else c
  }

  /** `string.ToLower`, character by character. */
  function Lower(s: string): (r: string)
    ensures |r| == |s|
    ensures forall i :: 0 <= i < |s| ==> r[i] == LowerChar(s[i])
  {
    if s == [] then [] else [LowerChar(s[0])] + Lower(s[1..])
  }

  /** `string.ToUpper`, character by character. */
  function Upper(s: string): (r: string)
    ensures |r| == |s|
    ensures forall i :: 0 <= i < |s| ==> r[i] == UpperChar(s[i])
  {
    if s == [] then [] else [UpperChar(s[0])] + Upper(s[1..])
  }

  /** Lower-casing twice is lower-casing once. */
  lemma LowerIdempotent(s: string)
    ensures Lower(Lower(s)) == Lower(s)
  {
  }

  /** Upper-casing first does not change the lower-cased form. */
  lemma LowerOfUpper(s: string)
    ensures Lower(Upper(s)) == Lower(s)
  {
  }

  // ---------------------------------------------------------------- queries

  /** `GetByIdAsync`: `FindAsync(id)`, null when no record has that id. */
  function GetById(s: Store, id: DeviceId): (r: Option<Device>)
    ensures r.Some? <==> id in s
    ensures r.Some? ==> r.value == s[id]
  {
    if id in s then Some(s[id]) else None
  }

  /** `GetAllAsync`: every stored record. */
  function GetAll(s: Store): (r: set<Device>)
    ensures forall d :: d in r <==> exists id :: id in s && s[id] == d
  {
    s.Values
  }

  /** `GetByBrandAsync`: the records whose lower-cased brand equals the lower-cased argument. */
  function GetByBrand(s: Store, brand: string): (r: set<Device>)
    ensures r <= GetAll(s)
    ensures forall d :: d in r <==> d in s.Values && Lower(d.brand) == Lower(brand)
  {
    set d | d in s.Values && Lower(d.brand) == Lower(brand)
  }

  /** `GetByStateAsync`: the records in the given state. */
  function GetByState(s: Store, state: DeviceState): (r: set<Device>)
    ensures r <= GetAll(s)
    ensures forall d :: d in r <==> d in s.Values && d.state == state
  {
    set d | d in s.Values && d.state == state
  }

  /** A table keyed by id lists exactly one device per stored id. */
  lemma GetAllCount(s: Store)
    requires KeyedById(s)
    ensures |GetAll(s)| == |s|
  {
    RecordCount(s);
  }

  /** The brand filter does not see case: the argument, its lower case and its upper case
      select the same records, as does any argument with the same lower case. */
  lemma GetByBrandIgnoresCase(s: Store, brand: string, other: string)
    requires Lower(other) == Lower(brand)
    ensures GetByBrand(s, other) == GetByBrand(s, brand)
    ensures GetByBrand(s, Lower(brand)) == GetByBrand(s, brand)
    ensures GetByBrand(s, Upper(brand)) == GetByBrand(s, brand)
  {
  }

  /** The three state filters split the table: together they give every record and no
      record is in two of them. */
  lemma GetByStatePartition(s: Store)
    ensures GetAll(s) == GetByState(s, Available) + GetByState(s, InUse) + GetByState(s, Inactive)
    ensures GetByState(s, Available) !! GetByState(s, InUse)
    ensures GetByState(s, Available) !! GetByState(s, Inactive)
    ensures GetByState(s, InUse) !! GetByState(s, Inactive)
  {
  }

  // ---------------------------------------------------------------- create

  /** `CreateAsync` with `Guid.NewGuid()` and `DateTime.UtcNow` passed in as `id` and `now`. */
  function CreateStep(s: Store, id: DeviceId, name: string, brand: string,
                      initialState: DeviceState, now: Timestamp): (r: Transition<Device>)
    requires id !in s
    ensures r.result == Device(id, name, brand, initialState, now)
    ensures r.store.Keys == s.Keys + {id} && |r.store| == |s| + 1
    ensures r.store[id] == r.result
    ensures forall k :: k in s ==> r.store[k] == s[k]
    ensures KeyedById(s) ==> KeyedById(r.store)
  {
    var device := Device(id, name, brand, initialState, now);
    Transition(s[id := device], device)
  }

  // ---------------------------------------------------------------- update

  /** The field-wise merge of lines 87-89: a supplied field overwrites the stored one, an
      absent one is kept, and `Id` and `CreatedAt` are never written. */
  function Coalesce(d: Device, name: Option<string>, brand: Option<string>,
                    state: Option<DeviceState>): (r: Device)
    ensures r.id == d.id && r.createdAt == d.createdAt
    ensures name.Some? ==> r.name == name.value
    ensures name.None? ==> r.name == d.name
    ensures brand.Some? ==> r.brand == brand.value
    ensures brand.None? ==> r.brand == d.brand
    ensures state.Some? ==> r.state == state.value
    ensures state.None? ==> r.state == d.state
  {
    d.(name := name.GetOr(d.name), brand := brand.GetOr(d.brand), state := state.GetOr(d.state))
  }

  /** Merging with nothing supplied gives the record back. */
  lemma CoalesceNothing(d: Device)
    ensures Coalesce(d, None, None, None) == d
  {
  }

  /** Merging the same fields twice gives what merging them once gives. */
  lemma CoalesceIdempotent(d: Device, name: Option<string>, brand: Option<string>,
                           state: Option<DeviceState>)
    ensures Coalesce(Coalesce(d, name, brand, state), name, brand, state)
         == Coalesce(d, name, brand, state)
  {
  }

  /** What `UpdateAsync` does with the record it found: whether it saves, and the record it
      returns. */
  datatype UpdateOutcome = Unsaved(device: Device) | Saved(device: Device)

  /** Lines 80-92 on the found record `current`: an InUse record with a supplied name or brand
      is returned as it is and nothing is saved; otherwise the merge is saved and returned.
      `isPartial` is accepted and never read. */
  function ApplyUpdate(current: Device, name: Option<string>, brand: Option<string>,
                       state: Option<DeviceState>, isPartial: bool): (r: UpdateOutcome)
    ensures r.Unsaved? <==> current.state == InUse && (name.Some? || brand.Some?)
    ensures r.Unsaved? ==> r.device == current
    ensures r.Saved? ==> r.device == Coalesce(current, name, brand, state)
    ensures current.state == InUse ==> r.device.name == current.name && r.device.brand == current.brand
  {
    if current.state == InUse && (name.Some? || brand.Some?) then Unsaved(current)
    else Saved(Coalesce(current, name, brand, state))
  }

  /** `UpdateAsync` on the table: absent id gives null and no change; otherwise the record the
      rule produces is the one returned and the one stored afterwards. */
  function UpdateStep(s: Store, id: DeviceId, name: Option<string>, brand: Option<string>,
                      state: Option<DeviceState>, isPartial: bool): (r: Transition<Option<Device>>)
    ensures r.store.Keys == s.Keys
    ensures id !in s ==> r == Transition(s, None)
    ensures id in s ==> r.result == Some(r.store[id])
    ensures forall k :: k in s && k != id ==> r.store[k] == s[k]
    ensures id in s ==> r.store[id] == ApplyUpdate(s[id], name, brand, state, isPartial).device
    ensures KeyedById(s) ==> KeyedById(r.store)
  {
    match GetById(s, id)
    case None => Transition(s, None)
    case Some(current) =>
      match ApplyUpdate(current, name, brand, state, isPartial)
      case Unsaved(d) => Transition(s, Some(d))
      case Saved(d) => Transition(s[id := d], Some(d))
  }

  /** Update on an absent id: null, and the table is unchanged. */
  lemma UpdateNotFound(s: Store, id: DeviceId, name: Option<string>, brand: Option<string>,
                       state: Option<DeviceState>, isPartial: bool)
    requires id !in s
    ensures UpdateStep(s, id, name, brand, state, isPartial) == Transition(s, None)
  {
  }

  /** The InUse lock: a supplied name or brand on an InUse record changes nothing and the
      stored record is what comes back. */
  lemma UpdateInUseLock(s: Store, id: DeviceId, name: Option<string>, brand: Option<string>,
                        state: Option<DeviceState>, isPartial: bool)
    requires id in s && s[id].state == InUse && (name.Some? || brand.Some?)
    ensures UpdateStep(s, id, name, brand, state, isPartial) == Transition(s, Some(s[id]))
  {
  }

  /** Outside the lock every supplied field is written, every absent one kept, and nothing
      else in the table changes. */
  lemma UpdateMerges(s: Store, id: DeviceId, name: Option<string>, brand: Option<string>,
                     state: Option<DeviceState>, isPartial: bool)
    requires id in s && !(s[id].state == InUse && (name.Some? || brand.Some?))
    ensures UpdateStep(s, id, name, brand, state, isPartial)
         == Transition(s[id := Coalesce(s[id], name, brand, state)],
                       Some(Coalesce(s[id], name, brand, state)))
  {
  }

  /** An update with nothing supplied returns the stored record and changes nothing. */
  lemma EmptyUpdateIsNoOp(s: Store, id: DeviceId, isPartial: bool)
    requires id in s
    ensures UpdateStep(s, id, None, None, None, isPartial) == Transition(s, Some(s[id]))
  {
  }

  /** The flag that is meant to tell PATCH from PUT makes no difference. */
  lemma UpdateIgnoresIsPartial(s: Store, id: DeviceId, name: Option<string>,
                               brand: Option<string>, state: Option<DeviceState>)
    ensures UpdateStep(s, id, name, brand, state, true) == UpdateStep(s, id, name, brand, state, false)
  {
  }

  // ---------------------------------------------------------------- delete

  /** `DeleteAsync`: false and no change when the id is absent or the record is InUse;
      otherwise exactly that record is removed. */
  function DeleteStep(s: Store, id: DeviceId): (r: Transition<bool>)
    ensures r.result <==> id in s && s[id].state != InUse
    ensures !r.result ==> r.store == s
    ensures r.result ==> r.store.Keys == s.Keys - {id}
    ensures forall k :: k in r.store ==> k in s && r.store[k] == s[k]
    ensures KeyedById(s) ==> KeyedById(r.store)
  {
    match GetById(s, id)
    case None => Transition(s, false)
    case Some(device) =>
      if device.state == InUse then Transition(s, false)
      else Transition(s - {id}, true)
  }

  // ---------------------------------------------------------------- the service object

  /** The service object. `devices` is the devices table it reads and writes through the
      database context; each method is the transition above, carried out step by step. */
  class DeviceService {
    var devices: Store

    ghost predicate Valid()
      reads this
    {
      KeyedById(devices)
    }

    constructor (initial: Store)
      requires KeyedById(initial)
      ensures Valid() && devices == initial
    {
      devices := initial;
    }

    /** Builds the record, adds it and returns it. */
    method Create(name: string, brand: string, initialState: DeviceState,
                  id: DeviceId, now: Timestamp) returns (device: Device)
      requires Valid() && id !in devices
      modifies this
      ensures Valid()
      ensures Transition(devices, device) == CreateStep(old(devices), id, name, brand, initialState, now)
    {
      device := Device(id, name, brand, initialState, now);
      devices := devices[id := device];
    }

    /** Finds the record, applies the InUse lock, then assigns the supplied fields one by one
        and saves. */
    method Update(id: DeviceId, name: Option<string>, brand: Option<string>,
                  state: Option<DeviceState>, isPartial: bool) returns (result: Option<Device>)
      requires Valid()
      modifies this
      ensures Valid()
      ensures Transition(devices, result) == UpdateStep(old(devices), id, name, brand, state, isPartial)
    {
      if id !in devices {
        return None;
      }
      var device := devices[id];
      if device.state == InUse {
        if name.Some? || brand.Some? {
          return Some(device);
        }
      }
      if name.Some? {
        device := device.(name := name.value);
      }
      if brand.Some? {
        device := device.(brand := brand.value);
      }
      if state.Some? {
        device := device.(state := state.value);
      }
      devices := devices[id := device];
      return Some(device);
    }

    /** Finds the record, refuses an InUse one, otherwise removes it. */
    method Delete(id: DeviceId) returns (deleted: bool)
      requires Valid()
      modifies this
      ensures Valid()
      ensures Transition(devices, deleted) == DeleteStep(old(devices), id)
    {
      if id !in devices {
        return false;
      }
      var device := devices[id];
      if device.state == InUse {
        return false;
      }
      devices := devices - {id};
      return true;
    }
  }
}
