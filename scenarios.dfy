/** Worked request sequences on concrete tables: the usage scenarios the service is
    designed for, stated on the model of Services/DeviceService.cs and
    Controllers/DevicesController.cs. */
module Scenarios {
  import opened Wrappers
  import opened Domain
  import Services
  import opened Controllers

  /** The lower-case forms of the brands used in BrandQuery. */
  lemma LowerOfSampleBrands()
    ensures Services.Lower("Acme") == "acme" && Services.Lower("ACME") == "acme"
    ensures Services.Lower("acme") == "acme" && Services.Lower("Zenith") != "acme"
  {
  }

  /** Two Acme devices spelled in different cases and one Zenith device: the lower-case
      query "acme" finds exactly the two Acme devices. */
  lemma BrandQuery()
    ensures var a1 := Device(1, "Router X", "Acme", Available, 0);
      var a2 := Device(2, "Switch", "ACME", InUse, 0);
      var z := Device(3, "Modem", "Zenith", Available, 0);
      Services.GetByBrand(map[1 := a1, 2 := a2, 3 := z], "acme") == {a1, a2}
  {
    var a1 := Device(1, "Router X", "Acme", Available, 0);
    var a2 := Device(2, "Switch", "ACME", InUse, 0);
    var z := Device(3, "Modem", "Zenith", Available, 0);
    var s := map[1 := a1, 2 := a2, 3 := z];
    LowerOfSampleBrands();
    assert s.Values == {a1, a2, z} by {
      assert s[1] == a1 && s[2] == a2 && s[3] == z;
      forall d | d in s.Values ensures d in {a1, a2, z} {
        var k :| k in s && s[k] == d;
      }
    }
  }

  /** A POST body "Router X" / "Acme". */
  function RouterDto(state: Option<DeviceState>): (dto: CreateDeviceDto)
    ensures ValidCreateDto(dto)
  {
    var dto := CreateDeviceDto("Router X", "Acme", state);
    assert !IsWhiteSpace(dto.name[0]) && !IsWhiteSpace(dto.brand[0]);
    dto
  }

  /** Create an Available device, then look it up: the same record comes back. */
  lemma CreateThenGet(s: Store, freshId: DeviceId, now: Timestamp)
    requires freshId !in s
    ensures var r := Create(s, RouterDto(Some(Available)), freshId, now);
      r.result == Created(Device(freshId, "Router X", "Acme", Available, now))
      && GetById(r.store, freshId) == Ok(r.result.device)
  {
  }

  /** Create an InUse device; a PATCH renaming it is refused and the name stays; a
      state-only PATCH to Available then succeeds; after that a DELETE succeeds and the
      id is no longer found. */
  lemma InUseLifecycle(s: Store, freshId: DeviceId, now: Timestamp)
    requires freshId !in s
    ensures var s1 := Create(s, RouterDto(Some(InUse)), freshId, now).store;
      var r2 := Patch(s1, freshId, UpdateDeviceDto(Some("New"), None, None));
      var r3 := Patch(r2.store, freshId, UpdateDeviceDto(None, None, Some(Available)));
      var r4 := Delete(r3.store, freshId);
      && r2.result == Rejected(InUseFieldLock) && r2.store[freshId].name == "Router X"
      && r3.result.Ok? && r3.result.device.state == Available
      && r4.result == Deleted && GetById(r4.store, freshId) == NotFound
  {
  }

  /** An InUse device cannot be deleted and is still found afterwards. */
  lemma InUseDeleteRefused(s: Store, freshId: DeviceId, now: Timestamp)
    requires freshId !in s
    ensures var r1 := Create(s, RouterDto(Some(InUse)), freshId, now);
      var r2 := Delete(r1.store, freshId);
      r2.result == Rejected(InUseDeleteLock) && GetById(r2.store, freshId) == Ok(r1.result.device)
  {
  }
}
