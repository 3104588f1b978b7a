/**
  The entity-button property inspector of the Deck Assistant plugin: the
  search box, area and domain filters that narrow the device and entity
  dropdowns, the colour inputs, and how the dropdowns keep their selection.

  The script's globals (`allEntities`, `allDevices`, the filter controls)
  are parameters here; what it writes into the page (dropdown options,
  "(n)" counts) is returned.
 */
module EntityButtonInspector {
  import opened Wrappers
  import opened Strings
  import opened EntityPicker

  /** The device-dropdown value that stands for entities without a device. */
  const StandaloneId: string := "__standalone__"

  datatype PiDevice = PiDevice(id: string, name: string, areaId: string, areaName: string, entityCount: nat)

  /** The filter controls: the words of the search box, and the area and domain dropdowns ("" = any). */
  datatype Filters = Filters(words: seq<string>, area: string, domain: string)

  // ---------------------------------------------------------------- search words

  /**
    The search box's words: its text lower-cased and trimmed, split at runs
    of white space; no words at all for a blank box.
   */
  function SearchWords(input: string): (words: seq<string>)
    ensures words == [] <==> Trim(Lower(input)) == ""
    ensures forall w :: w in words ==> w != "" && forall k :: 0 <= k < |w| ==> !IsSpace(w[k])
  {
    var term := Trim(Lower(input));
    if term == "" then []
    else
      TrimEnds(Lower(input));
      SplitSpacesNonEmpty(term);
      SplitSpaces(term)
  }

  /** A search term without inner white space is one word. */
  lemma OneWordSearch(input: string)
    requires Trim(Lower(input)) != ""
    requires forall k :: 0 <= k < |Trim(Lower(input))| ==> !IsSpace(Trim(Lower(input))[k])
    ensures SearchWords(input) == [Trim(Lower(input))]
  {
    SplitSpacesNone(Trim(Lower(input)));
  }

  // ---------------------------------------------------------------- matching

  /** The fields an entity is searched by, in the order they are joined. */
  function SearchFields(e: PiEntity): seq<string> {
    [e.friendlyName, e.entityId, e.deviceName, e.areaName, e.domain]
  }

  /** The fields joined with single spaces, lower-cased. */
  function SearchText(e: PiEntity): string {
    Lower(Join(SearchFields(e), " "))
  }

  predicate AllWordsIn(words: seq<string>, text: string) {
    forall w :: w in words ==> Contains(text, w)
  }

  /** `entityMatchesSearch`: every word occurs in the searchable text; no words match everything. */
  predicate EntityMatchesSearch(e: PiEntity, words: seq<string>) {
    AllWordsIn(words, SearchText(e))
  }

  /**
    Because a word holds no space, a word occurs in the joined text exactly
    when it occurs in one lower-cased field: it can never straddle two.
   */
  lemma WordInSearchText(e: PiEntity, w: string)
    requires ' ' !in w
    ensures Contains(SearchText(e), w) <==> exists k :: 0 <= k < 5 && Contains(Lower(SearchFields(e)[k]), w)
  {
    var fields := SearchFields(e);
    var lowered := LowerAll(fields);
    LowerJoin(fields, " ");
    assert Lower(" ") == [' '];
    assert SearchText(e) == Join(lowered, [' ']);
    if Contains(SearchText(e), w) {
      JoinContainsOnlyParts(lowered, ' ', w);
      var k :| 0 <= k < |lowered| && Contains(lowered[k], w);
      assert Contains(Lower(fields[k]), w);
    }
    if exists k :: 0 <= k < 5 && Contains(Lower(fields[k]), w) {
      var k :| 0 <= k < 5 && Contains(Lower(fields[k]), w);
      JoinContainsPart(lowered, ' ', k, w);
    }
  }

  /** The search matches exactly when every word is found within a single field. */
  lemma MatchesIffEachWordInAField(e: PiEntity, input: string)
    ensures EntityMatchesSearch(e, SearchWords(input)) <==>
      forall w :: w in SearchWords(input) ==> exists k :: 0 <= k < 5 && Contains(Lower(SearchFields(e)[k]), w)
  {
    var words := SearchWords(input);
    forall w | w in words
      ensures Contains(SearchText(e), w) <==> exists k :: 0 <= k < 5 && Contains(Lower(SearchFields(e)[k]), w)
    {
      assert forall k :: 0 <= k < |w| ==> !IsSpace(w[k]);
      assert ' ' !in w;
      WordInSearchText(e, w);
    }
  }

  /** A one-word search matches exactly when the word is found in one lower-cased field. */
  lemma OneWordMatches(e: PiEntity, input: string)
    requires Trim(Lower(input)) != ""
    requires forall k :: 0 <= k < |Trim(Lower(input))| ==> !IsSpace(Trim(Lower(input))[k])
    ensures EntityMatchesSearch(e, SearchWords(input)) <==>
      exists k :: 0 <= k < 5 && Contains(Lower(SearchFields(e)[k]), Trim(Lower(input)))
  {
    var term := Trim(Lower(input));
    OneWordSearch(input);
    assert ' ' !in term;
    WordInSearchText(e, term);
    assert EntityMatchesSearch(e, [term]) <==> Contains(SearchText(e), term);
  }

  /** An entity passes the search and the area and domain filters. */
  predicate EntityMatches(e: PiEntity, f: Filters) {
    EntityMatchesSearch(e, f.words) && (f.area == "" || e.areaId == f.area) && (f.domain == "" || e.domain == f.domain)
  }

  /** Every word occurs in the device's name and area name, joined and lower-cased. */
  predicate DeviceDirectMatch(d: PiDevice, words: seq<string>) {
    AllWordsIn(words, Lower(Join([d.name, d.areaName], " ")))
  }

  /**
    A device stays in the dropdown when it passes the area filter and it
    has a matching entity or, with a search, matches the search itself.
   */
  predicate KeepDevice(d: PiDevice, deviceIds: set<string>, f: Filters) {
    (f.area == "" || d.areaId == f.area) && (d.id in deviceIds || (|f.words| > 0 && DeviceDirectMatch(d, f.words)))
  }

  // ---------------------------------------------------------------- filterDevices

  /** The devices of the matching entities that have one. */
  function MatchedDeviceIds(entities: seq<PiEntity>, f: Filters): (ids: set<string>)
    ensures forall id :: id in ids <==> exists e :: e in entities && EntityMatches(e, f) && e.deviceId != "" && e.deviceId == id
    decreases |entities|
  {
    if entities == [] then {}
    else
      var front := entities[..|entities| - 1];
      var e := entities[|entities| - 1];
      assert entities == front + [e];
      MatchedDeviceIds(front, f) + (if EntityMatches(e, f) && e.deviceId != "" then {e.deviceId} else {})
  }

  /** Some matching entity has no device. */
  function HasStandalone(entities: seq<PiEntity>, f: Filters): (b: bool)
    ensures b <==> exists e :: e in entities && EntityMatches(e, f) && e.deviceId == ""
    decreases |entities|
  {
    if entities == [] then false
    else
      var front := entities[..|entities| - 1];
      var e := entities[|entities| - 1];
      assert entities == front + [e];
      HasStandalone(front, f) || (EntityMatches(e, f) && e.deviceId == "")
  }

  /** The devices the dropdown keeps, in their order. */
  function KeptDevices(devices: seq<PiDevice>, deviceIds: set<string>, f: Filters): seq<PiDevice> {
    Filter(devices, d => KeepDevice(d, deviceIds, f))
  }

  /**
    `filterDevices`: one pass over the entities collects the devices of the
    matching entities and notes whether a matching entity has no device;
    the devices are then filtered; the count shown counts the
    "no device" option as one more.
   */
  method FilterDevices(entities: seq<PiEntity>, devices: seq<PiDevice>, f: Filters)
    returns (kept: seq<PiDevice>, standalone: bool, count: nat)
    ensures kept == KeptDevices(devices, MatchedDeviceIds(entities, f), f)
    ensures forall d :: d in kept <==>
      d in devices && (f.area == "" || d.areaId == f.area) &&
      ((exists e :: e in entities && EntityMatches(e, f) && e.deviceId != "" && e.deviceId == d.id) ||
       (|f.words| > 0 && DeviceDirectMatch(d, f.words)))
    ensures standalone <==> exists e :: e in entities && EntityMatches(e, f) && e.deviceId == ""
    ensures count == |kept| + (if standalone then 1 else 0)
  {
    var deviceIds: set<string> := {};
    standalone := false;
    var i := 0;
    while i < |entities|
      invariant 0 <= i <= |entities|
      invariant deviceIds == MatchedDeviceIds(entities[..i], f)
      invariant standalone == HasStandalone(entities[..i], f)
    {
      var e := entities[i];
      if EntityMatches(e, f) {
        if e.deviceId != "" {
          deviceIds := deviceIds + {e.deviceId};
        } else {
          standalone := true;
        }
      }
      assert entities[..i + 1][..i] == entities[..i];
      i := i + 1;
    }
    assert entities[..i] == entities;
    kept := KeptDevices(devices, deviceIds, f);
    count := |kept|;
    if standalone {
      count := count + 1;
    }
  }

  /** With no device chosen, every matching entity is listed. */
  function AllMatchingEntities(entities: seq<PiEntity>, f: Filters): (r: seq<PiEntity>)
    ensures forall e :: e in r <==> e in entities && EntityMatches(e, f)
  {
    Filter(entities, e => EntityMatches(e, f))
  }

  /** The value of the device dropdown after its options are rebuilt. */
  function DeviceSelection(kept: seq<PiDevice>, standalone: bool, current: string): (r: string)
    ensures r == current || r == ""
    ensures r == current <==>
      current == "" || (exists d :: d in kept && d.id == current) || (standalone && current == StandaloneId)
  {
    var values := seq(|kept|, i requires 0 <= i < |kept| => kept[i].id) + (if standalone then [StandaloneId] else []);
    assert forall d :: d in kept ==> d.id in values by {
      forall d | d in kept ensures d.id in values {
        var i :| 0 <= i < |kept| && kept[i] == d;
        assert values[i] == d.id;
      }
    }
    Reselect(values, current)
  }

  // ---------------------------------------------------------------- populateEntityDropdownForDevice

  /** An entity belongs to the chosen device, or to none for the "no device" option. */
  predicate BelongsTo(e: PiEntity, deviceId: string) {
    if deviceId == StandaloneId then e.deviceId == "" else e.deviceId == deviceId
  }

  /** The entities listed for a chosen device; nothing when no device is chosen. */
  function DeviceEntities(entities: seq<PiEntity>, deviceId: string, f: Filters): (r: seq<PiEntity>)
    ensures deviceId == "" ==> r == []
    ensures deviceId != "" ==> forall e :: e in r <==> e in entities && BelongsTo(e, deviceId) && EntityMatches(e, f)
  {
    if deviceId == "" then [] else Filter(entities, e => BelongsTo(e, deviceId) && EntityMatches(e, f))
  }

  /**
    Every matching entity is listed under exactly one device choice: its own
    device, or the "no device" option when it has none.
   */
  lemma EntityListedOnce(entities: seq<PiEntity>, f: Filters, e: PiEntity, deviceId: string)
    requires e in entities && EntityMatches(e, f) && e.deviceId != StandaloneId
    requires deviceId != ""
    ensures e in DeviceEntities(entities, deviceId, f) <==>
      deviceId == (if e.deviceId == "" then StandaloneId else e.deviceId)
  {
  }

  /** The "no device" option is offered exactly when choosing it lists something. */
  lemma StandaloneOptionIff(entities: seq<PiEntity>, f: Filters)
    ensures HasStandalone(entities, f) <==> DeviceEntities(entities, StandaloneId, f) != []
  {
    var listed := DeviceEntities(entities, StandaloneId, f);
    if listed != [] {
      assert listed[0] in listed;
    }
  }

  /**
    A device that passes the area filter and owns a matching entity is in
    the dropdown, and choosing it lists that entity.
   */
  lemma DeviceOfMatchListed(entities: seq<PiEntity>, devices: seq<PiDevice>, f: Filters, e: PiEntity, d: PiDevice)
    requires e in entities && EntityMatches(e, f) && e.deviceId != "" && e.deviceId != StandaloneId
    requires d in devices && d.id == e.deviceId && (f.area == "" || d.areaId == f.area)
    ensures d in KeptDevices(devices, MatchedDeviceIds(entities, f), f)
    ensures e in DeviceEntities(entities, d.id, f)
  {
  }

  // ---------------------------------------------------------------- colour inputs

  /** `/^#[0-9A-Fa-f]{6}$/`. */
  predicate IsColorText(t: string) {
    |t| == 7 && t[0] == '#' && forall i :: 1 <= i < 7 ==> IsHexDigit(t[i])
  }

  /** The colour picker's value, the text box's value, and the colour reported to the settings, if any. */
  datatype ColorFields = ColorFields(picker: string, text: string, reported: Option<string>)

  /**
    A change of the colour text box: a colour (after trimming) moves the
    picker and is shown upper-cased and reported; anything else is replaced
    by the picker's colour, upper-cased, and nothing is reported.
   */
  function TextChange(text: string, picker: string): (r: ColorFields)
    ensures r.reported.Some? <==> IsColorText(Trim(text))
    ensures r.reported.Some? ==> r.reported.value == r.picker == Trim(text)
    ensures r.reported.None? ==> r.picker == picker
    ensures Upper(r.text) == r.text && Lower(r.text) == Lower(r.picker)
  {
    var color := Trim(text);
    var shown := if IsColorText(color) then color else picker;
    UpperShows(shown);
    if IsColorText(color) then ColorFields(color, Upper(color), Some(color))
    else ColorFields(picker, Upper(picker), None)
  }

  /** Upper-casing is idempotent and keeps the lower-case reading. */
  lemma UpperShows(s: string)
    ensures Upper(Upper(s)) == Upper(s) && Lower(Upper(s)) == Lower(s)
  {
    assert forall i :: 0 <= i < |s| ==> UpperChar(UpperChar(s[i])) == UpperChar(s[i]);
    assert forall i :: 0 <= i < |s| ==> LowerChar(UpperChar(s[i])) == LowerChar(s[i]);
  }

  /** An upper-cased colour is still a colour and has nothing to trim. */
  lemma UpperColor(t: string)
    requires IsColorText(t)
    ensures IsColorText(Upper(t)) && Trim(Upper(t)) == Upper(t)
  {
    var u := Upper(t);
    assert !IsSpace(u[0]) && !IsSpace(u[6]);
    assert forall i :: 1 <= i < 7 ==> IsHexDigit(u[i]) by {
      forall i | 1 <= i < 7 ensures IsHexDigit(u[i]) {
        assert IsHexDigit(t[i]);
      }
    }
  }

  /**
    Once the picker holds a colour, the text box settles after one change:
    a second change event shows the same text, and it is a colour.
   */
  lemma TextChangeSettles(text: string, picker: string)
    requires IsColorText(picker)
    ensures var once := TextChange(text, picker);
      IsColorText(once.text) && TextChange(once.text, once.picker).text == once.text
  {
    var once := TextChange(text, picker);
    var shown := if IsColorText(Trim(text)) then Trim(text) else picker;
    UpperColor(shown);
    UpperShows(shown);
    assert once.text == Upper(shown);
  }

  /** The two linked colour inputs of one colour setting, and the colours reported so far. */
  class ColorInputs {
    var picker: string
    var text: string
    var reported: seq<string>

    /** The text box shows the picker's colour (up to case). */
    ghost predicate Agree()
      reads this
    {
      Lower(text) == Lower(picker)
    }

    constructor (initial: string)
      ensures picker == initial && text == Upper(initial) && reported == []
      ensures Agree()
    {
      picker := initial;
      text := Upper(initial);
      reported := [];
      UpperShows(initial);
    }

    /** The picker's `input` event: its new value is shown upper-cased and reported. */
    method OnPickerInput(value: string)
      modifies this
      ensures picker == value && text == Upper(value) && reported == old(reported) + [value]
      ensures Agree()
    {
      picker := value;
      text := Upper(value);
      reported := reported + [value];
      UpperShows(value);
    }

    /** The text box's `change` event. */
    method OnTextChange()
      modifies this
      ensures var r := TextChange(old(text), old(picker));
        picker == r.picker && text == r.text &&
        reported == old(reported) + (if r.reported.Some? then [r.reported.value] else [])
      ensures Agree()
    {
      ghost var outcome := TextChange(text, picker);
      var color := Trim(text);
      if IsColorText(color) {
        UpperShows(color);
        picker := color;
        text := Upper(color);
        reported := reported + [color];
      } else {
        UpperShows(picker);
        text := Upper(picker);
      }
      assert text == outcome.text && picker == outcome.picker;
    }
  }
}
