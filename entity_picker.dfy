/**
  What the two entity-button property inspectors share: the entity record
  the plugin sends them, the text of one option of the entity dropdown, the
  "(n)" count labels, and how a `<select>` keeps its value when its options
  are rebuilt.

  A JSON field that may be missing (`friendly_name`, `device_id`, ...) is ""
  when absent, which is also how the scripts' `||` and truthiness tests see it.
 */
module EntityPicker {
  import opened Strings

  datatype PiEntity = PiEntity(
    entityId: string,
    friendlyName: string,
    domain: string,
    state: string,
    areaId: string,
    areaName: string,
    deviceId: string,
    deviceName: string)

  /** `Array.prototype.filter`: the elements that pass `p`, in their order. */
  function Filter<T(!new)>(s: seq<T>, p: T -> bool): (r: seq<T>)
    ensures |r| <= |s|
    ensures forall x :: x in r <==> x in s && p(x)
    decreases |s|
  {
    if s == [] then []
    else
      var front := s[..|s| - 1];
      var last := s[|s| - 1];
      assert s == front + [last];
      if p(last) then Filter(front, p) + [last] else Filter(front, p)
  }

  /**
    Filtering goes element by element: one element is kept exactly when it
    passes, and a concatenation filters to the two filtered parts in order.
   */
  lemma {:induction false} FilterSpec<T(!new)>(a: seq<T>, b: seq<T>, p: T -> bool)
    ensures Filter(a + b, p) == Filter(a, p) + Filter(b, p)
    ensures |a| == 1 ==> Filter(a, p) == (if p(a[0]) then a else [])
    decreases |b|
  {
    if b == [] {
      assert a + b == a;
    } else {
      var front := b[..|b| - 1];
      assert (a + b)[..|a + b| - 1] == a + front && (a + b)[|a + b| - 1] == b[|b| - 1];
      FilterSpec(a, front, p);
    }
    if |a| == 1 {
      assert a[..0] == [];
    }
  }

  /** Filtering by a test every element passes keeps everything. */
  lemma {:induction false} FilterAll<T(!new)>(s: seq<T>, p: T -> bool)
    requires forall x :: x in s ==> p(x)
    ensures Filter(s, p) == s
    decreases |s|
  {
    if s != [] {
      var front := s[..|s| - 1];
      assert s == front + [s[|s| - 1]];
      FilterAll(front, p);
    }
  }

  /** `friendly_name || entity_id`. */
  function DisplayName(e: PiEntity): string {
    if e.friendlyName != "" then e.friendlyName else e.entityId
  }

  /**
    `entity_id.split(".")[1]` as it lands in the option text: the piece
    between the first and the second dot, or "undefined" when the id holds
    no dot at all.
   */
  function ObjectIdText(entityId: string): (r: string)
    ensures IndexOf(entityId, '.') < 0 ==> r == "undefined"
    ensures IndexOf(entityId, '.') >= 0 ==>
      var rest := entityId[IndexOf(entityId, '.') + 1..];
      '.' !in r && StartsWith(rest, r) && (|r| == |rest| || rest[|r|] == '.')
  {
    var parts := Split(entityId, '.');
    var i := IndexOf(entityId, '.');
    if i < 0 then
      assert parts == [entityId];
      "undefined"
    else
      var rest := entityId[i + 1..];
      SplitAt(entityId, '.');
      assert parts[1] == Split(rest, '.')[0];
      parts[1]
  }

  /**
    The text of an entity's option: its name; then ` (object_id)` when it has
    a friendly name other than its id; then ` - device` when the device is
    to be shown and known; then ` [state]` when the state is not empty.
   */
  function OptionText(e: PiEntity, showDevice: bool): (r: string)
    ensures StartsWith(r, DisplayName(e))
    ensures e.state != "" ==>
      var tail := " [" + e.state + "]";
      |tail| <= |r| && r[|r| - |tail|..] == tail
    ensures ((e.friendlyName == "" || e.friendlyName == e.entityId) &&
             (!showDevice || e.deviceName == "") && e.state == "") ==> r == e.entityId
    ensures showDevice && e.deviceName != "" ==>
      var at := |DisplayName(e) + ObjectIdSuffix(e)|;
      var device := " - " + e.deviceName;
      at + |device| <= |r| && r[at..at + |device|] == device
  {
    var name := DisplayName(e);
    var body := name + (ObjectIdSuffix(e) + DeviceSuffix(e, showDevice));
    var r := body + StateSuffix(e);
    assert r[..|name|] == body[..|name|] == name;
    AppendAssoc(name, ObjectIdSuffix(e), DeviceSuffix(e, showDevice));
    r
  }

  function ObjectIdSuffix(e: PiEntity): string {
    if e.friendlyName != "" && e.friendlyName != e.entityId then " (" + ObjectIdText(e.entityId) + ")" else ""
  }

  function DeviceSuffix(e: PiEntity, showDevice: bool): string {
    if showDevice && e.deviceName != "" then " - " + e.deviceName else ""
  }

  function StateSuffix(e: PiEntity): string {
    if e.state != "" then " [" + e.state + "]" else ""
  }

  /**
    An entity with a friendly name and an id `domain.object` is listed as
    its name, the object part in parentheses and its state in brackets.
   */
  lemma NamedEntityOption(domain: string, objectId: string, name: string, state: string, area: string)
    requires '.' !in domain && '.' !in objectId
    requires name != "" && name != domain + "." + objectId
    ensures OptionText(PiEntity(domain + "." + objectId, name, domain, state, area, "", "", ""), false)
         == name + " (" + objectId + ")" + (if state != "" then " [" + state + "]" else "")
  {
    var id := domain + "." + objectId;
    var e := PiEntity(id, name, domain, state, area, "", "", "");
    ObjectIdOf(domain, objectId);
    var middle := " (" + objectId + ")";
    assert ObjectIdSuffix(e) == middle;
    assert DeviceSuffix(e, false) == "";
    assert ObjectIdSuffix(e) + DeviceSuffix(e, false) == middle;
    AppendAssoc(name, " (", objectId);
    AppendAssoc(name, " (" + objectId, ")");
  }

  /**
    Listing all entities, a named `domain.object` entity with a known device
    shows the device after the object part and before the state.
   */
  lemma DeviceEntityOption(domain: string, objectId: string, name: string, device: string, state: string,
                           area: string, areaName: string, deviceId: string)
    requires '.' !in domain && '.' !in objectId
    requires name != "" && name != domain + "." + objectId && device != ""
    ensures OptionText(PiEntity(domain + "." + objectId, name, domain, state, area, areaName, deviceId, device), true)
         == name + " (" + objectId + ")" + " - " + device + (if state != "" then " [" + state + "]" else "")
  {
    var id := domain + "." + objectId;
    var e := PiEntity(id, name, domain, state, area, areaName, deviceId, device);
    ObjectIdOf(domain, objectId);
    var middle := " (" + objectId + ")";
    assert ObjectIdSuffix(e) == middle;
    assert DeviceSuffix(e, true) == " - " + device;
    AppendAssoc(name, middle, " - " + device);
    AppendAssoc(name + middle, " - ", device);
    AppendAssoc(name, " (", objectId);
    AppendAssoc(name, " (" + objectId, ")");
  }

  /** The object part of `domain.object` is `object`. */
  lemma ObjectIdOf(domain: string, objectId: string)
    requires '.' !in domain && '.' !in objectId
    ensures ObjectIdText(domain + "." + objectId) == objectId
  {
    var id := domain + "." + objectId;
    assert id[|domain|] == '.';
    assert id[..|domain|] == domain;
    assert IndexOf(id, '.') == |domain|;
    assert id[|domain| + 1..] == objectId;
    var r := ObjectIdText(id);
    if |r| < |objectId| {
      assert false;
    }
  }

  /** The `"(" + n + ")"` count labels; the digits read back as `n`. */
  function CountText(n: nat): (r: string)
    ensures |r| >= 3 && r[0] == '(' && r[|r| - 1] == ')'
    ensures forall i :: 1 <= i < |r| - 1 ==> IsDigit(r[i])
    ensures DigitsValue(r[1..|r| - 1]) == n
  {
    var digits := NatToString(n);
    NatToStringValue(n);
    var r := "(" + digits + ")";
    assert r[1..|r| - 1] == digits;
    r
  }

  /**
    The value a `<select>` holds after `select.value = wanted` on a freshly
    built option list whose first option is the empty placeholder: `wanted`
    when one of the options carries it, the placeholder's "" otherwise.
   */
  function Reselect(values: seq<string>, wanted: string): (r: string)
    ensures r == wanted <==> wanted == "" || wanted in values
    ensures r != wanted ==> r == ""
  {
    if wanted != "" && wanted in values then wanted else ""
  }

  function EntityIds(entities: seq<PiEntity>): (ids: seq<string>)
    ensures |ids| == |entities|
    ensures forall i :: 0 <= i < |entities| ==> ids[i] == entities[i].entityId
  {
    seq(|entities|, i requires 0 <= i < |entities| => entities[i].entityId)
  }

  /**
    The entity selected after the entity dropdown is rebuilt from `entities`:
    the dropdown's own value, or the saved `entityId` when the dropdown was
    empty, provided one of the new options has that id; otherwise nothing.
   */
  function RestoreEntity(entities: seq<PiEntity>, selectValue: string, savedEntityId: string): (r: string)
    ensures r == "" || exists e :: e in entities && e.entityId == r
    ensures r != "" ==> r == selectValue || (selectValue == "" && r == savedEntityId)
    ensures selectValue != "" && (exists e :: e in entities && e.entityId == selectValue) ==> r == selectValue
    ensures selectValue == "" && (exists e :: e in entities && e.entityId == savedEntityId) ==> r == savedEntityId
  {
    var wanted := if selectValue != "" then selectValue else savedEntityId;
    EntityIdsHave(entities, wanted);
    Reselect(EntityIds(entities), wanted)
  }

  lemma EntityIdsHave(entities: seq<PiEntity>, id: string)
    ensures id in EntityIds(entities) <==> exists e :: e in entities && e.entityId == id
  {
    var ids := EntityIds(entities);
    if id in ids {
      var i :| 0 <= i < |ids| && ids[i] == id;
      assert entities[i] in entities;
    }
    if exists e :: e in entities && e.entityId == id {
      var e :| e in entities && e.entityId == id;
      var i :| 0 <= i < |entities| && entities[i] == e;
      assert ids[i] == id;
    }
  }
}
