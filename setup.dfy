/**
 * Platform setup: the controller's climate devices are split into virtual
 * heaters, each of which becomes one entity, and heater equipment, whose ids
 * form one list shared by every entity.
 */
module Setup {
  import opened OmniTypes

  /** One climate device of the cached device tree, with the id it is keyed by. */
  datatype ClimateDevice = ClimateDevice(systemId: int, omniType: OmniType, name: string)

  /** What an entity is built from: its own system id and the shared equipment list. */
  datatype EntityArgs = EntityArgs(context: int, heaterEquipmentIds: seq<int>)

  /** The device map is a dictionary: each id appears once; order is insertion order. */
  ghost predicate DistinctIds(devices: seq<ClimateDevice>)
  {
    forall i, j :: 0 <= i < j < |devices| ==> devices[i].systemId != devices[j].systemId
  }

  /** The ids of the devices of type t, in the order of the device map. */
  function IdsOfType(devices: seq<ClimateDevice>, t: OmniType): (ids: seq<int>)
    ensures |ids| <= |devices|
  {
    if devices == [] then []
    else (if devices[0].omniType == t then [devices[0].systemId] else []) + IdsOfType(devices[1..], t)
  }

  function VirtualHeaterIds(devices: seq<ClimateDevice>): seq<int>
  {
    IdsOfType(devices, VirtHeater)
  }

  function HeaterEquipmentIds(devices: seq<ClimateDevice>): seq<int>
  {
    IdsOfType(devices, HeaterEquip)
  }

  /** An id is selected exactly when some device with that id has the type. */
  lemma {:induction false} IdsOfTypeMembers(devices: seq<ClimateDevice>, t: OmniType, id: int)
    ensures id in IdsOfType(devices, t) <==>
      exists i :: 0 <= i < |devices| && devices[i].systemId == id && devices[i].omniType == t
  {
    if devices != [] {
      IdsOfTypeMembers(devices[1..], t, id);
      if exists i :: 0 <= i < |devices[1..]| && devices[1..][i].systemId == id && devices[1..][i].omniType == t {
        var i :| 0 <= i < |devices[1..]| && devices[1..][i].systemId == id && devices[1..][i].omniType == t;
        assert devices[i + 1] == devices[1..][i];
      }
      if exists i :: 0 <= i < |devices| && devices[i].systemId == id && devices[i].omniType == t {
        var i :| 0 <= i < |devices| && devices[i].systemId == id && devices[i].omniType == t;
        if i > 0 {
          assert devices[1..][i - 1] == devices[i];
        }
      }
    }
  }

  /** Selecting from a dictionary never yields an id twice. */
  lemma {:induction false} IdsOfTypeDistinct(devices: seq<ClimateDevice>, t: OmniType)
    requires DistinctIds(devices)
    ensures forall i, j :: 0 <= i < j < |IdsOfType(devices, t)| ==> IdsOfType(devices, t)[i] != IdsOfType(devices, t)[j]
  {
    if devices != [] {
      var rest := devices[1..];
      assert DistinctIds(rest) by {
        forall i, j | 0 <= i < j < |rest| ensures rest[i].systemId != rest[j].systemId {
          assert rest[i] == devices[i + 1] && rest[j] == devices[j + 1];
        }
      }
      IdsOfTypeDistinct(rest, t);
      if devices[0].omniType == t {
        IdsOfTypeMembers(rest, t, devices[0].systemId);
        forall i | 0 <= i < |rest| ensures rest[i].systemId != devices[0].systemId {
          assert rest[i] == devices[i + 1];
        }
      }
    }
  }

  /**
   * The partition: an id is a virtual heater exactly when its device has
   * that type, an equipment id exactly when its device is heater equipment,
   * and, the ids being keys of a dictionary, no id is both.
   */
  lemma Partition(devices: seq<ClimateDevice>, id: int)
    requires DistinctIds(devices)
    ensures id in VirtualHeaterIds(devices) <==>
      exists i :: 0 <= i < |devices| && devices[i].systemId == id && devices[i].omniType == VirtHeater
    ensures id in HeaterEquipmentIds(devices) <==>
      exists i :: 0 <= i < |devices| && devices[i].systemId == id && devices[i].omniType == HeaterEquip
    ensures !(id in VirtualHeaterIds(devices) && id in HeaterEquipmentIds(devices))
  {
    IdsOfTypeMembers(devices, VirtHeater, id);
    IdsOfTypeMembers(devices, HeaterEquip, id);
  }

  /**
   * The setup loop: one entity per virtual heater, in the map's order, each
   * given its own id and the same list of every heater-equipment id.
   */
  method SetupEntry(devices: seq<ClimateDevice>) returns (entities: seq<EntityArgs>)
    ensures |entities| == |VirtualHeaterIds(devices)|
    ensures forall k :: 0 <= k < |entities| ==>
      entities[k] == EntityArgs(VirtualHeaterIds(devices)[k], HeaterEquipmentIds(devices))
    ensures DistinctIds(devices) ==>
      forall k, l :: 0 <= k < l < |entities| ==> entities[k].context != entities[l].context
  {
    var virtualHeaters := VirtualHeaterIds(devices);
    var heaterEquipmentIds := HeaterEquipmentIds(devices);
    entities := [];
    for i := 0 to |virtualHeaters|
      invariant |entities| == i
      invariant forall k :: 0 <= k < i ==> entities[k] == EntityArgs(virtualHeaters[k], heaterEquipmentIds)
    {
      entities := entities + [EntityArgs(virtualHeaters[i], heaterEquipmentIds)];
    }
    if DistinctIds(devices) {
      IdsOfTypeDistinct(devices, VirtHeater);
    }
  }
}
