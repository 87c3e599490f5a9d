/** The device record of Domain/Device.cs and the table keyed by its id. */
module Domain {

  /** Device ids. The source uses GUIDs, which are only ever compared for equality. */
  type DeviceId = nat

  /** `Guid.Empty`, the id of a device nobody has assigned an id to. */
  const EmptyId: DeviceId := 0

  /** Points in time (the source's `DateTime`), as ticks. */
  type Timestamp = int

  datatype DeviceState = Available | InUse | Inactive

  datatype Device = Device(
    id: DeviceId,
    name: string,
    brand: string,
    state: DeviceState,
    createdAt: Timestamp)

  /** The `MaxLength(100)` bound on `Name` and `Brand`. */
  const MaxLength: nat := 100

  /** White space in the ASCII range. */
  predicate IsWhiteSpace(c: char)
    ensures IsWhiteSpace(c) ==> c as int <= 32
  {
    c == ' ' || c == '\t' || c == '\n' || c == '\r' || c == '\U{B}' || c == '\U{C}'
  }

  /** `[Required]` on a string: it holds at least one character that is not white space. */
  predicate Required(s: string)
    ensures Required(s) ==> |s| > 0
    ensures !Required(s) ==> forall i :: 0 <= i < |s| ==> IsWhiteSpace(s[i])
  {
    exists i :: 0 <= i < |s| && !IsWhiteSpace(s[i])
  }

  /** `[Required, MaxLength(100)]`. */
  predicate ValidText(s: string)
    ensures ValidText(s) ==> 0 < |s| <= MaxLength
  {
    Required(s) && |s| <= MaxLength
  }

  /** The field constraints a device record declares. */
  predicate ValidDevice(d: Device)
    ensures ValidDevice(d) ==> 0 < |d.name| <= MaxLength && 0 < |d.brand| <= MaxLength
  {
    ValidText(d.name) && ValidText(d.brand)
  }

  /** `new Device()`: the property initialisers, with `DateTime.UtcNow` passed in as `now`.
      Such a device is Available and does not meet its own `[Required]` constraints. */
  function DefaultDevice(now: Timestamp): (d: Device)
    ensures d.state == Available
    ensures d.createdAt == now && d.id == EmptyId
    ensures !Required(d.name) && !Required(d.brand)
  {
    Device(EmptyId, "", "", Available, now)
  }

  /** The devices table: a finite map from id to record. */
  type Store = map<DeviceId, Device>

  /** `[Key]` on `Id`: every record is filed under its own id. */
  predicate KeyedById(s: Store)
    ensures KeyedById(s) ==> forall d :: d in s.Values ==> d.id in s && s[d.id] == d
  {
    forall id :: id in s ==> s[id].id == id
  }

  /** The table invariant: keyed by id and every record meets its field constraints. */
  predicate ValidStore(s: Store)
  {
    KeyedById(s) && forall id :: id in s ==> ValidDevice(s[id])
  }

  /** Because `Id` is the key, the table holds at most one device with a given id. */
  lemma OneDevicePerId(s: Store, d1: Device, d2: Device)
    requires KeyedById(s)
    requires d1 in s.Values && d2 in s.Values && d1.id == d2.id
    ensures d1 == d2
  {
  }

  /** The records of a table keyed by id are pairwise distinct, so there are as many
      records as keys. */
  lemma {:induction false} RecordCount(s: Store)
    requires KeyedById(s)
    ensures |s.Values| == |s.Keys|
  {
    if s != map[] {
      var k :| k in s;
      var rest := s - {k};
      assert KeyedById(rest);
      RecordCount(rest);
      assert rest.Keys == s.Keys - {k};
      assert s.Values == rest.Values + {s[k]} by {
        forall d | d in s.Values ensures d in rest.Values + {s[k]} {
          var j :| j in s && s[j] == d;
          if j != k { assert rest[j] == d; }
        }
      }
      assert s[k] !in rest.Values by {
        forall j | j in rest ensures rest[j] != s[k] {
          assert rest[j].id == j && s[k].id == k;
        }
      }
    }
  }
}
