/**
 * The extra state attributes of the heater entity: the solar set-point and,
 * per heating element, five attributes whose keys are namespaced by the
 * element's lower-cased name.
 */
module Attributes {
  import opened Wrappers
  import opened OmniTypes

  /** Python's str.lower restricted to ASCII: 'A'..'Z' become 'a'..'z', all else is kept. */
  function LowerChar(c: char): (d: char)
    ensures 'A' <= c <= 'Z' ==> 'a' <= d <= 'z' && d as int - c as int == 32
    ensures !('A' <= c <= 'Z') ==> d == c
  {
    if 'A' <= c <= 'Z' then (c as int + 32) as char else c
  }

  function Lower(s: string): (r: string)
    ensures |r| == |s|
    ensures forall i :: 0 <= i < |s| ==> r[i] == LowerChar(s[i])
  {
    if s == [] then [] else [LowerChar(s[0])] + Lower(s[1..])
  }

  /** Two names that differ only in the case of ASCII letters lower to the same string. */
  lemma LowerIgnoresCase(s: string, t: string)
    requires |s| == |t|
    requires forall i :: 0 <= i < |s| ==> LowerChar(s[i]) == LowerChar(t[i])
    ensures Lower(s) == Lower(t)
  {
  }

  const KeyPrefix: string := "omni_heater_"
  const SolarKey: string := "solar_set_point"

  /** The five attributes reported per heating element. */
  datatype Field = Enabled | SystemId | BowId | State | SensorTemp

  function Suffix(f: Field): string
  {
    match f
    case Enabled => "_enabled"
    case SystemId => "_system_id"
    case BowId => "_bow_id"
    case State => "_state"
    case SensorTemp => "_sensor_temp"
  }

  /** An attribute value: the host accepts strings and integers (Python bools are integers). */
  datatype AttrValue = AttrBool(b: bool) | AttrInt(i: int) | AttrStr(s: string)

  type Attrs = map<string, AttrValue>

  /** The key of attribute f of the element called name. */
  function Key(name: string, f: Field): string
  {
    KeyPrefix + Lower(name) + Suffix(f)
  }

  lemma CharFromEnd(a: string, s: string, j: nat)
    requires 1 <= j <= |s|
    ensures (a + s)[|a + s| - j] == s[|s| - j]
  {
  }

  /**
   * A position, counted from the end, at which two distinct suffixes differ:
   * the suffixes are never told apart only by the name in front of them.
   */
  function SuffixDistinguisher(f1: Field, f2: Field): (j: nat)
    requires f1 != f2
    ensures 1 <= j <= |Suffix(f1)| && j <= |Suffix(f2)|
    ensures Suffix(f1)[|Suffix(f1)| - j] != Suffix(f2)[|Suffix(f2)| - j]
  {
    // "_enabled", "_system_id" and "_bow_id" end in 'd', "_state" in 'e', "_sensor_temp" in 'p';
    // among the first three, "_enabled" has 'e' before its 'd', the others 'i'; then "_system_id"
    // has 'm' four from the end where "_bow_id" has 'w'
    var endsInD1 := f1.Enabled? || f1.SystemId? || f1.BowId?;
    var endsInD2 := f2.Enabled? || f2.SystemId? || f2.BowId?;
    if !endsInD1 || !endsInD2 then 1
    else if f1.Enabled? || f2.Enabled? then 2
    else 4
  }

  lemma KeysOfDistinctFieldsDiffer(l1: string, f1: Field, l2: string, f2: Field)
    requires f1 != f2
    ensures KeyPrefix + l1 + Suffix(f1) != KeyPrefix + l2 + Suffix(f2)
  {
    var j := SuffixDistinguisher(f1, f2);
    CharFromEnd(KeyPrefix + l1, Suffix(f1), j);
    CharFromEnd(KeyPrefix + l2, Suffix(f2), j);
  }

  lemma KeysOfDistinctNamesDiffer(l1: string, l2: string, s: string)
    requires l1 != l2
    ensures KeyPrefix + l1 + s != KeyPrefix + l2 + s
  {
    var k1, k2 := KeyPrefix + l1 + s, KeyPrefix + l2 + s;
    if |l1| == |l2| {
      var i :| 0 <= i < |l1| && l1[i] != l2[i];
      assert k1[|KeyPrefix| + i] == l1[i];
      assert k2[|KeyPrefix| + i] == l2[i];
    } else {
      assert |k1| != |k2|;
    }
  }

  /** Keys are equal exactly when the lower-cased names and the fields are. */
  lemma KeyInjective(n1: string, f1: Field, n2: string, f2: Field)
    ensures Key(n1, f1) == Key(n2, f2) <==> Lower(n1) == Lower(n2) && f1 == f2
  {
    if f1 != f2 {
      KeysOfDistinctFieldsDiffer(Lower(n1), f1, Lower(n2), f2);
    } else if Lower(n1) != Lower(n2) {
      KeysOfDistinctNamesDiffer(Lower(n1), Lower(n2), Suffix(f1));
    }
  }

  /** No element key collides with the solar set-point key. */
  lemma KeyIsNotSolar(name: string, f: Field)
    ensures Key(name, f) != SolarKey
  {
  }

  /** The value of attribute f for element id, rendering its state code with pretty. */
  function FieldValue(id: int, e: Equipment, f: Field, pretty: int -> string): AttrValue
  {
    match f
    case Enabled => AttrBool(e.enabled)
    case SystemId => AttrInt(id)
    case BowId => AttrInt(e.bowId)
    case State => AttrStr(pretty(e.state))
    case SensorTemp => AttrInt(e.temp)
  }

  /** The five attributes one element contributes. */
  function Group(id: int, e: Equipment, pretty: int -> string): (g: Attrs)
    ensures forall f :: Key(e.name, f) in g && g[Key(e.name, f)] == FieldValue(id, e, f, pretty)
    ensures forall k :: k in g ==> exists f :: k == Key(e.name, f)
  {
    forall f1, f2 | f1 != f2 ensures Key(e.name, f1) != Key(e.name, f2) {
      KeyInjective(e.name, f1, e.name, f2);
    }
    map[Key(e.name, Enabled) := FieldValue(id, e, Enabled, pretty),
        Key(e.name, SystemId) := FieldValue(id, e, SystemId, pretty),
        Key(e.name, BowId) := FieldValue(id, e, BowId, pretty),
        Key(e.name, State) := FieldValue(id, e, State, pretty),
        Key(e.name, SensorTemp) := FieldValue(id, e, SensorTemp, pretty)]
  }

  /**
   * Merge the groups of the elements ids, in order, into acc; a later
   * group's keys override earlier ones. An id that is not in the device
   * tree ends the merge with Err(id), as the lookup raises there.
   */
  function MergeEquipment(acc: Attrs, ids: seq<int>, equipment: map<int, Equipment>, pretty: int -> string): Result<Attrs, int>
    decreases |ids|
  {
    if ids == [] then Ok(acc)
    else if ids[0] !in equipment then Err(ids[0])
    else MergeEquipment(acc + Group(ids[0], equipment[ids[0]], pretty), ids[1..], equipment, pretty)
  }

  ghost predicate AllPresent(ids: seq<int>, equipment: map<int, Equipment>)
  {
    forall i :: 0 <= i < |ids| ==> ids[i] in equipment
  }

  /** k is the key of some attribute of some element of ids. */
  ghost predicate IsEquipmentKey(k: string, ids: seq<int>, equipment: map<int, Equipment>)
  {
    exists j, f :: 0 <= j < |ids| && ids[j] in equipment && k == Key(equipment[ids[j]].name, f)
  }

  /** No element after position j has the same lower-cased name as element j. */
  ghost predicate LastOfItsName(ids: seq<int>, equipment: map<int, Equipment>, j: int)
    requires 0 <= j < |ids| && AllPresent(ids, equipment)
  {
    forall j' :: j < j' < |ids| ==> Lower(equipment[ids[j']].name) != Lower(equipment[ids[j]].name)
  }

  /** The merge raises exactly when some id is missing, and then with the first missing one. */
  lemma {:induction false} MergeRaisesOnFirstMissing(acc: Attrs, ids: seq<int>, equipment: map<int, Equipment>, pretty: int -> string)
    ensures MergeEquipment(acc, ids, equipment, pretty).Ok? <==> AllPresent(ids, equipment)
    ensures MergeEquipment(acc, ids, equipment, pretty).Err? ==>
      exists i :: 0 <= i < |ids| && ids[i] == MergeEquipment(acc, ids, equipment, pretty).error &&
        ids[i] !in equipment && forall i' :: 0 <= i' < i ==> ids[i'] in equipment
    decreases |ids|
  {
    if ids != [] && ids[0] in equipment {
      var acc' := acc + Group(ids[0], equipment[ids[0]], pretty);
      MergeRaisesOnFirstMissing(acc', ids[1..], equipment, pretty);
      var r := MergeEquipment(acc, ids, equipment, pretty);
      if r.Err? {
        var i :| 0 <= i < |ids[1..]| && ids[1..][i] == r.error &&
          ids[1..][i] !in equipment && forall i' :: 0 <= i' < i ==> ids[1..][i'] in equipment;
        assert ids[i + 1] == r.error;
        assert forall i' :: 0 <= i' < i + 1 ==> ids[i'] in equipment by {
          forall i' | 0 <= i' < i + 1 ensures ids[i'] in equipment {
            if i' > 0 { assert ids[i'] == ids[1..][i' - 1]; }
          }
        }
      }
      if AllPresent(ids[1..], equipment) {
        assert AllPresent(ids, equipment) by {
          forall i | 0 <= i < |ids| ensures ids[i] in equipment {
            if i > 0 { assert ids[i] == ids[1..][i - 1]; }
          }
        }
      }
    }
  }

  lemma AllPresentTail(ids: seq<int>, equipment: map<int, Equipment>)
    requires ids != [] && AllPresent(ids, equipment)
    ensures AllPresent(ids[1..], equipment)
  {
  }

  lemma IsEquipmentKeyCons(k: string, ids: seq<int>, equipment: map<int, Equipment>)
    requires ids != [] && ids[0] in equipment
    ensures IsEquipmentKey(k, ids, equipment) <==>
      (exists f :: k == Key(equipment[ids[0]].name, f)) || IsEquipmentKey(k, ids[1..], equipment)
  {
  }

  /** After a successful merge, the keys are those of acc together with every element's five keys. */
  lemma {:induction false} MergeKeys(acc: Attrs, ids: seq<int>, equipment: map<int, Equipment>, pretty: int -> string, k: string)
    requires AllPresent(ids, equipment)
    ensures MergeEquipment(acc, ids, equipment, pretty).Ok?
    ensures k in MergeEquipment(acc, ids, equipment, pretty).value <==> k in acc || IsEquipmentKey(k, ids, equipment)
    decreases |ids|
  {
    MergeRaisesOnFirstMissing(acc, ids, equipment, pretty);
    if ids != [] {
      var e := equipment[ids[0]];
      AllPresentTail(ids, equipment);
      MergeKeys(acc + Group(ids[0], e, pretty), ids[1..], equipment, pretty, k);
      IsEquipmentKeyCons(k, ids, equipment);
    }
  }

  /** A key of acc that is no element's key keeps its value from acc. */
  lemma {:induction false} MergeKeepsOtherKeys(acc: Attrs, ids: seq<int>, equipment: map<int, Equipment>, pretty: int -> string, k: string)
    requires AllPresent(ids, equipment)
    requires k in acc && !IsEquipmentKey(k, ids, equipment)
    ensures MergeEquipment(acc, ids, equipment, pretty).Ok?
    ensures k in MergeEquipment(acc, ids, equipment, pretty).value
    ensures MergeEquipment(acc, ids, equipment, pretty).value[k] == acc[k]
    decreases |ids|
  {
    MergeRaisesOnFirstMissing(acc, ids, equipment, pretty);
    MergeKeys(acc, ids, equipment, pretty, k);
    if ids != [] {
      var e := equipment[ids[0]];
      AllPresentTail(ids, equipment);
      IsEquipmentKeyCons(k, ids, equipment);
      var acc' := acc + Group(ids[0], e, pretty);
      assert k !in Group(ids[0], e, pretty);
      MergeKeepsOtherKeys(acc', ids[1..], equipment, pretty, k);
    }
  }

  /** The key of the first element's attribute is no later element's key when their names differ. */
  lemma FirstKeyNotLater(ids: seq<int>, equipment: map<int, Equipment>, f: Field)
    requires AllPresent(ids, equipment) && ids != [] && LastOfItsName(ids, equipment, 0)
    ensures !IsEquipmentKey(Key(equipment[ids[0]].name, f), ids[1..], equipment)
  {
    var rest := ids[1..];
    forall j', f' | 0 <= j' < |rest| && rest[j'] in equipment
      ensures Key(equipment[ids[0]].name, f) != Key(equipment[rest[j']].name, f')
    {
      assert rest[j'] == ids[j' + 1];
      KeyInjective(equipment[ids[0]].name, f, equipment[rest[j']].name, f');
    }
  }

  lemma LastOfItsNameTail(ids: seq<int>, equipment: map<int, Equipment>, j: nat)
    requires AllPresent(ids, equipment) && 0 < j < |ids| && LastOfItsName(ids, equipment, j)
    ensures AllPresent(ids[1..], equipment) && LastOfItsName(ids[1..], equipment, j - 1)
  {
  }

  /**
   * Attribute f of element j is reported with element j's value when no
   * later element has the same lower-cased name: of elements that share a
   * lower-cased name, the last one in the list wins.
   */
  lemma {:induction false} MergeLastOfNameWins(acc: Attrs, ids: seq<int>, equipment: map<int, Equipment>, pretty: int -> string, j: nat, f: Field)
    requires AllPresent(ids, equipment)
    requires j < |ids| && LastOfItsName(ids, equipment, j)
    ensures MergeEquipment(acc, ids, equipment, pretty).Ok?
    ensures Key(equipment[ids[j]].name, f) in MergeEquipment(acc, ids, equipment, pretty).value
    ensures MergeEquipment(acc, ids, equipment, pretty).value[Key(equipment[ids[j]].name, f)]
            == FieldValue(ids[j], equipment[ids[j]], f, pretty)
    decreases |ids|
  {
    MergeRaisesOnFirstMissing(acc, ids, equipment, pretty);
    var acc' := acc + Group(ids[0], equipment[ids[0]], pretty);
    assert MergeEquipment(acc, ids, equipment, pretty) == MergeEquipment(acc', ids[1..], equipment, pretty);
    if j == 0 {
      AllPresentTail(ids, equipment);
      FirstKeyNotLater(ids, equipment, f);
      MergeKeepsOtherKeys(acc', ids[1..], equipment, pretty, Key(equipment[ids[0]].name, f));
    } else {
      LastOfItsNameTail(ids, equipment, j);
      assert ids[1..][j - 1] == ids[j];
      MergeLastOfNameWins(acc', ids[1..], equipment, pretty, j - 1, f);
    }
  }
}
