/**
  The string helpers of the layout editor: group slugs, the
  `deck-assistant:` label hierarchy, domain display names, cell captions and
  the `streamdeck:` sync labels.
 */
module LayoutLabels {
  import opened Wrappers
  import opened Strings
  import opened PageModel

  // ---------------------------------------------------------------- slugify

  predicate IsSlugChar(c: char) { IsLowerAscii(c) || IsDigit(c) }

  /** What `slugify` promises: only `[a-z0-9_]`, no `_` at either end, never `__`. */
  ghost predicate IsSlug(s: string) {
    && (forall i :: 0 <= i < |s| ==> IsSlugChar(s[i]) || s[i] == '_')
    && (s == [] || (s[0] != '_' && s[|s| - 1] != '_'))
    && (forall i :: 0 <= i < |s| - 1 ==> !(s[i] == '_' && s[i + 1] == '_'))
  }

  /** `slugify`: lower-case, each run of characters outside `[a-z0-9]` becomes `_`, then `_` is stripped from both ends. */
  function Slugify(text: string): string {
    var replaced := ReplaceRuns(Lower(text), NotLowerAlnum, '_');
    DropWhileEnd(DropWhile(replaced, Underscore), Underscore)
  }

  lemma SlugifyIsSlug(text: string)
    ensures IsSlug(Slugify(text))
  {
    var replaced := ReplaceRuns(Lower(text), NotLowerAlnum, '_');
    ReplaceRunsChars(Lower(text), NotLowerAlnum, '_');
    ReplaceRunsNoDouble(Lower(text), NotLowerAlnum, '_');
    assert SlugBody(replaced);
    StripIsSlug(replaced);
  }

  /** Slug characters and underscores only, never two underscores in a row. */
  ghost predicate SlugBody(s: string) {
    && (forall i :: 0 <= i < |s| ==> IsSlugChar(s[i]) || s[i] == '_')
    && (forall i :: 0 <= i < |s| - 1 ==> !(s[i] == '_' && s[i + 1] == '_'))
  }

  /** Trimming the underscores off both ends of such a string leaves a slug. */
  lemma StripIsSlug(s: string)
    requires SlugBody(s)
    ensures IsSlug(DropWhileEnd(DropWhile(s, Underscore), Underscore))
  {
    var a := DropWhile(s, Underscore);
    var r := DropWhileEnd(a, Underscore);
    DropWhileSuffix(s, Underscore);
    DropWhileEndPrefix(a, Underscore);
    var off := |s| - |a|;
    assert r == s[off..off + |r|];
    SlugBodyPiece(s, off, off + |r|);
    if r != [] {
      assert r[0] == a[0];
    }
  }

  /** Every piece of such a string is one too. */
  lemma SlugBodyPiece(s: string, lo: nat, hi: nat)
    requires lo <= hi <= |s|
    requires SlugBody(s)
    ensures SlugBody(s[lo..hi])
  {
    var piece := s[lo..hi];
    assert forall i :: 0 <= i < |piece| ==> piece[i] == s[lo + i];
  }

  /** A string that already is a slug is left as it is: `slugify` is idempotent. */
  lemma {:induction false} ReplaceRunsOfSlug(s: string)
    requires forall i :: 0 <= i < |s| ==> IsSlugChar(s[i]) || s[i] == '_'
    requires forall i :: 0 <= i < |s| - 1 ==> !(s[i] == '_' && s[i + 1] == '_')
    ensures ReplaceRuns(s, NotLowerAlnum, '_') == s
    decreases |s|
  {
    if s != [] {
      ReplaceRunsOfSlug(s[1..]);
      if !IsSlugChar(s[0]) {
        assert s[1..] == [] || IsSlugChar(s[1]);
        assert DropWhile(s[1..], NotLowerAlnum) == s[1..];
      }
    }
  }

  lemma LowerOfSlug(s: string)
    requires IsSlug(s)
    ensures Lower(s) == s
  {
  }

  lemma SlugifyIdempotent(text: string)
    ensures Slugify(Slugify(text)) == Slugify(text)
  {
    var s := Slugify(text);
    SlugifyIsSlug(text);
    LowerOfSlug(s);
    ReplaceRunsOfSlug(s);
    assert ReplaceRuns(Lower(s), NotLowerAlnum, '_') == s;
    assert DropWhile(s, Underscore) == s;
    assert DropWhileEnd(s, Underscore) == s;
  }

  // ---------------------------------------------------------------- label hierarchy

  const LabelPrefix: string := "deck-assistant:"

  /** `buildLabelString`: the prefix followed by the parts joined with `:`. */
  function BuildLabelString(hierarchy: seq<string>): (text: string)
    ensures StartsWith(text, LabelPrefix)
  {
    LabelPrefix + Join(hierarchy, ":")
  }

  /**
    `parseLabelHierarchy`: a label without the prefix has no hierarchy; a
    prefixed label gives the `:`-separated pieces after the prefix, which
    build the same label again.
   */
  function ParseLabelHierarchy(text: string): (hierarchy: seq<string>)
    ensures !StartsWith(text, LabelPrefix) ==> hierarchy == []
    ensures StartsWith(text, LabelPrefix) ==> |hierarchy| >= 1 && BuildLabelString(hierarchy) == text
  {
    if !StartsWith(text, LabelPrefix) then []
    else
      var rest := text[|LabelPrefix|..];
      JoinSplit(rest, ':');
      assert text == LabelPrefix + rest;
      Split(rest, ':')
  }

  /** Parsing a built label gives the hierarchy back, for a non-empty hierarchy whose parts hold no `:`. */
  lemma ParseBuildLabel(hierarchy: seq<string>)
    requires |hierarchy| >= 1
    requires forall k :: 0 <= k < |hierarchy| ==> ':' !in hierarchy[k]
    ensures ParseLabelHierarchy(BuildLabelString(hierarchy)) == hierarchy
  {
    var text := BuildLabelString(hierarchy);
    assert text[|LabelPrefix|..] == Join(hierarchy, ":");
    SplitJoin(hierarchy, ':');
  }

  /** The empty hierarchy does not survive the round trip: it parses back as one empty part. */
  lemma ParseBuildEmpty()
    ensures ParseLabelHierarchy(BuildLabelString([])) == [""]
  {
    var text := BuildLabelString([]);
    assert text[|LabelPrefix|..] == "";
  }

  lemma SlugHasNoColon(s: string)
    requires IsSlug(s)
    ensures forall k :: 0 <= k < |[s]| ==> ':' !in [s][k]
  {
  }

  /** The group label written by the wizard parses back to the group's slug. */
  lemma GroupLabelParses(groupName: string)
    ensures ParseLabelHierarchy(BuildLabelString([Slugify(groupName)])) == [Slugify(groupName)]
  {
    SlugifyIsSlug(groupName);
    var slug := Slugify(groupName);
    SlugHasNoColon(slug);
    ParseBuildLabel([slug]);
  }

  // ---------------------------------------------------------------- display helpers

  const DomainNames: map<string, string> := map[
    "light" := "Lights", "switch" := "Switches", "climate" := "Climate/HVAC",
    "media_player" := "Media Players", "sensor" := "Sensors", "binary_sensor" := "Binary Sensors",
    "cover" := "Covers/Blinds", "fan" := "Fans", "lock" := "Locks", "vacuum" := "Vacuums",
    "camera" := "Cameras", "automation" := "Automations", "script" := "Scripts", "scene" := "Scenes",
    "input_boolean" := "Input Booleans", "input_number" := "Input Numbers", "input_select" := "Input Selects"
  ]

  function UnderscoreToSpace(c: char): char { if c == '_' then ' ' else c }

  /**
    `formatDomainName`: the fixed display name of a known domain; any other
    domain keeps its length, with the first character upper-cased and every
    later `_` shown as a space.
   */
  function FormatDomainName(domain: string): (name: string)
    ensures domain in DomainNames ==> name == DomainNames[domain]
    ensures domain !in DomainNames ==> |name| == |domain|
    ensures domain !in DomainNames && domain != [] ==>
      name[0] == UpperChar(domain[0]) &&
      forall i :: 1 <= i < |domain| ==> name[i] == UnderscoreToSpace(domain[i])
  {
    if domain in DomainNames then DomainNames[domain]
    else if domain == [] then []
    else [UpperChar(domain[0])] + seq(|domain| - 1, i requires 0 <= i < |domain| - 1 => UnderscoreToSpace(domain[i + 1]))
  }

  /** The name shown for an entity: `friendly_name`, else `entity_id`. */
  function DisplayName(e: Entity): string {
    if e.friendlyName != "" then e.friendlyName else e.entityId
  }

  /**
    `getEntityLabel`: no entity gives the empty caption; a name of at most 10
    characters is shown whole, a longer one as its first 9 characters and `…`.
   */
  function GetEntityLabel(entity: Option<Entity>): (caption: string)
    ensures entity.None? ==> caption == ""
    ensures |caption| <= 10
    ensures entity.Some? && |DisplayName(entity.value)| <= 10 ==> caption == DisplayName(entity.value)
    ensures entity.Some? && |DisplayName(entity.value)| > 10 ==>
      caption == DisplayName(entity.value)[..9] + "…"
    ensures entity.Some? ==>
      caption == DisplayName(entity.value) ||
      (caption[..|caption| - 1] < DisplayName(entity.value) && caption[|caption| - 1] == '…')
  {
    match entity
    case None => ""
    case Some(e) =>
      var name := DisplayName(e);
      if |name| > 10 then name[..9] + "…" else name
  }

  // ---------------------------------------------------------------- sync labels

  /** The group-name part of a `streamdeck:` text: lower-cased, white-space runs become `-`. */
  function DashedName(name: string): string {
    ReplaceRuns(Lower(name), WhiteSpace, '-')
  }

  /** The text `syncLabels` gives the entity at position `order`. */
  function SyncLabel(groupPart: string, order: nat): string {
    "streamdeck:" + groupPart + ":" + NatToString(order)
  }
}
