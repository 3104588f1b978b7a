/**
  The pure helpers of the key renderer: XML escaping of the label text,
  label truncation, the default icon of a domain, whether a state counts
  as "on", and where `renderIcon` puts the icon and the two text lines on
  a square key. Fetching icons and rasterising the SVG are not modelled.
 */
module Renderer {
  import opened Wrappers
  import opened Arithmetic
  import opened Strings

  // ---------------------------------------------------------------- escapeXml

  /** `s.replace(/pat/g, rep)` for a literal pattern: matches are found left to right and never overlap. */
  function ReplaceAll(s: string, pat: string, rep: string): string
    requires pat != ""
    decreases |s|
  {
    if s == [] then []
    else if StartsWith(s, pat) then rep + ReplaceAll(s[|pat|..], pat, rep)
    else [s[0]] + ReplaceAll(s[1..], pat, rep)
  }

  /** The characters `escapeXml` rewrites, in the order it rewrites them, and their entities. */
  const Specials: string := "&<>\"'"
  const EntityNames: seq<string> := ["&amp;", "&lt;", "&gt;", "&quot;", "&apos;"]

  /** `escapeXml`: the five global replacements, ampersand first. */
  function EscapeXml(s: string): string {
    ReplaceAll(ReplaceAll(ReplaceAll(ReplaceAll(ReplaceAll(s, "&", "&amp;"), "<", "&lt;"), ">", "&gt;"),
                          "\"", "&quot;"), "'", "&apos;")
  }

  /** Undoing the five replacements in the opposite order, ampersand last. */
  function UnescapeXml(s: string): string {
    ReplaceAll(ReplaceAll(ReplaceAll(ReplaceAll(ReplaceAll(s, "&apos;", "'"), "&quot;", "\""), "&gt;", ">"),
                          "&lt;", "<"), "&amp;", "&")
  }

  /** One character after the first `k` replacements: an entity if it is one of the first `k` specials. */
  function EscapeCharUpTo(c: char, k: nat): (r: string)
    requires k <= 5
    ensures r == (if 0 <= IndexOf(Specials[..k], c) then EntityNames[IndexOf(Specials[..k], c)] else [c])
  {
    if k == 0 then [c]
    else if c == Specials[k - 1] then
      assert IndexOf(Specials[..k], c) == k - 1 by {
        assert Specials[..k - 1] == Specials[..k][..k - 1];
        assert c !in Specials[..k - 1];
      }
      EntityNames[k - 1]
    else
      var r := EscapeCharUpTo(c, k - 1);
      assert IndexOf(Specials[..k], c) == IndexOf(Specials[..k - 1], c) by {
        assert Specials[..k] == Specials[..k - 1] + [Specials[k - 1]];
        if 0 <= IndexOf(Specials[..k], c) {
          assert Specials[..k - 1] == Specials[..k][..k - 1];
        }
      }
      r
  }

  /** The reference escape after the first `k` replacements, one character at a time. */
  function EscapeUpTo(s: string, k: nat): string
    requires k <= 5
  {
    if s == [] then [] else EscapeCharUpTo(s[0], k) + EscapeUpTo(s[1..], k)
  }

  lemma {:induction false} EscapeNone(s: string)
    ensures EscapeUpTo(s, 0) == s
  {
    if s != [] {
      EscapeNone(s[1..]);
      assert s == [s[0]] + s[1..];
    }
  }

  /** Nothing is replaced inside a prefix where no match starts. */
  lemma {:induction false} ReplaceSkip(x: string, b: string, pat: string, rep: string)
    requires pat != ""
    requires forall i :: 0 <= i < |x| ==> !StartsWith((x + b)[i..], pat)
    ensures ReplaceAll(x + b, pat, rep) == x + ReplaceAll(b, pat, rep)
  {
    if x != [] {
      assert !StartsWith((x + b)[0..], pat);
      assert (x + b)[0..] == x + b;
      assert (x + b)[1..] == x[1..] + b;
      forall i | 0 <= i < |x[1..]|
        ensures !StartsWith((x[1..] + b)[i..], pat)
      {
        assert (x[1..] + b)[i..] == (x + b)[i + 1..];
      }
      ReplaceSkip(x[1..], b, pat, rep);
      calc {
        ReplaceAll(x + b, pat, rep);
        [x[0]] + ReplaceAll(x[1..] + b, pat, rep);
        [x[0]] + (x[1..] + ReplaceAll(b, pat, rep));
        { AppendAssoc([x[0]], x[1..], ReplaceAll(b, pat, rep)); assert [x[0]] + x[1..] == x; }
        x + ReplaceAll(b, pat, rep);
      }
    } else {
      assert x + b == b;
    }
  }

  /** A match at the front is replaced, and the scan goes on after it. */
  lemma ReplaceHit(b: string, pat: string, rep: string)
    requires pat != ""
    ensures ReplaceAll(pat + b, pat, rep) == rep + ReplaceAll(b, pat, rep)
  {
    assert StartsWith(pat + b, pat) by { assert (pat + b)[..|pat|] == pat; }
    assert (pat + b)[|pat|..] == b;
  }

  /** No entity holds `<`, `>`, a quote or an apostrophe, and `&` only in front. */
  lemma EntityChars(j: nat)
    requires j < 5
    ensures |EntityNames[j]| >= 4 && EntityNames[j][0] == '&'
    ensures forall i :: 1 <= i < |EntityNames[j]| ==> EntityNames[j][i] !in Specials
  {
  }

  /** Two different entities already differ in their second or third character. */
  lemma EntitiesDiffer(j: nat, k: nat, b: string)
    requires j < 5 && k < 5 && j != k
    ensures !StartsWith(EntityNames[j] + b, EntityNames[k])
  {
    var e := EntityNames[j] + b;
    assert EntityNames[0][1] == 'a' && EntityNames[0][2] == 'm';
    assert EntityNames[1][1] == 'l' && EntityNames[1][2] == 't';
    assert EntityNames[2][1] == 'g' && EntityNames[2][2] == 't';
    assert EntityNames[3][1] == 'q' && EntityNames[3][2] == 'u';
    assert EntityNames[4][1] == 'a' && EntityNames[4][2] == 'p';
    assert e[1] == EntityNames[j][1] && e[2] == EntityNames[j][2];
    if StartsWith(e, EntityNames[k]) {
      assert false;
    }
  }

  /** The `k`-th global replacement, on one character escaped `k - 1` times and whatever follows it. */
  lemma EscapeCharStep(c: char, k: nat, rest: string)
    requires 1 <= k <= 5
    ensures ReplaceAll(EscapeCharUpTo(c, k - 1) + rest, [Specials[k - 1]], EntityNames[k - 1]) ==
      EscapeCharUpTo(c, k) + ReplaceAll(rest, [Specials[k - 1]], EntityNames[k - 1])
  {
    var pat := [Specials[k - 1]];
    var p := EscapeCharUpTo(c, k - 1);
    if c == Specials[k - 1] {
      assert c !in Specials[..k - 1];
      assert p == pat;
      ReplaceHit(rest, pat, EntityNames[k - 1]);
    } else {
      var j := IndexOf(Specials[..k - 1], c);
      if 0 <= j {
        EntityChars(j);
        assert p == EntityNames[j];
        assert Specials[k - 1] != '&';
      }
      forall i | 0 <= i < |p|
        ensures !StartsWith((p + rest)[i..], pat)
      {
        assert (p + rest)[i..][0] == p[i];
        assert p[i] != Specials[k - 1];
      }
      ReplaceSkip(p, rest, pat, EntityNames[k - 1]);
    }
  }

  /** The `k`-th global replacement turns the first `k - 1` into the first `k`. */
  lemma {:induction false} EscapeStep(s: string, k: nat)
    requires 1 <= k <= 5
    ensures ReplaceAll(EscapeUpTo(s, k - 1), [Specials[k - 1]], EntityNames[k - 1]) == EscapeUpTo(s, k)
  {
    if s != [] {
      EscapeStep(s[1..], k);
      EscapeCharStep(s[0], k, EscapeUpTo(s[1..], k - 1));
    }
  }

  /** Undoing the `k`-th replacement turns the first `k` back into the first `k - 1`. */
  lemma {:induction false} UnescapeStep(s: string, k: nat)
    requires 1 <= k <= 5
    ensures ReplaceAll(EscapeUpTo(s, k), EntityNames[k - 1], [Specials[k - 1]]) == EscapeUpTo(s, k - 1)
  {
    if s != [] {
      UnescapeStep(s[1..], k);
      UnescapeCharStep(s[0], k, EscapeUpTo(s[1..], k));
    }
  }

  /** Undoing the `k`-th replacement on one escaped character, followed by any text. */
  lemma UnescapeCharStep(c: char, k: nat, rest: string)
    requires 1 <= k <= 5
    ensures ReplaceAll(EscapeCharUpTo(c, k) + rest, EntityNames[k - 1], [Specials[k - 1]]) ==
      EscapeCharUpTo(c, k - 1) + ReplaceAll(rest, EntityNames[k - 1], [Specials[k - 1]])
  {
    var pat := EntityNames[k - 1];
    EntityChars(k - 1);
    var p := EscapeCharUpTo(c, k);
    if c == Specials[k - 1] {
      assert c !in Specials[..k - 1];
      assert IndexOf(Specials[..k], c) == k - 1;
      assert p == pat;
      assert EscapeCharUpTo(c, k - 1) == [c];
      ReplaceHit(rest, pat, [Specials[k - 1]]);
    } else {
      assert p == EscapeCharUpTo(c, k - 1);
      var j := IndexOf(Specials[..k], c);
      if 0 <= j {
        EntityChars(j);
        assert p == EntityNames[j];
        EntitiesDiffer(j, k - 1, rest);
        forall i | 0 <= i < |p|
          ensures !StartsWith((p + rest)[i..], pat)
        {
          if i > 0 {
            assert (p + rest)[i..][0] == p[i];
            assert p[i] !in Specials;
          } else {
            assert (p + rest)[i..] == p + rest;
          }
        }
      } else {
        assert c != '&' by { assert Specials[..k][0] == '&'; }
        assert p == [c];
        forall i | 0 <= i < |p|
          ensures !StartsWith((p + rest)[i..], pat)
        {
          assert (p + rest)[i..][0] == c;
        }
      }
      ReplaceSkip(p, rest, pat, [Specials[k - 1]]);
    }
  }

  /** `escapeXml` agrees with the one-character-at-a-time reference escape. */
  lemma EscapeXmlPerChar(s: string)
    ensures EscapeXml(s) == EscapeUpTo(s, 5)
  {
    EscapeNone(s);
    EscapeStep(s, 1);
    EscapeStep(s, 2);
    EscapeStep(s, 3);
    EscapeStep(s, 4);
    EscapeStep(s, 5);
  }

  /** Because `&` is escaped first, undoing the replacements in reverse order recovers the text. */
  lemma UnescapeEscape(s: string)
    ensures UnescapeXml(EscapeXml(s)) == s
  {
    EscapeXmlPerChar(s);
    UnescapeStep(s, 5);
    UnescapeStep(s, 4);
    UnescapeStep(s, 3);
    UnescapeStep(s, 2);
    UnescapeStep(s, 1);
    EscapeNone(s);
  }

  /** Every escaped piece is a character that needs no escaping or an entity; neither holds `<`, `>`, `"` or `'`. */
  lemma {:induction false} EscapedSafe(s: string)
    ensures forall i :: 0 <= i < |EscapeUpTo(s, 5)| ==> EscapeUpTo(s, 5)[i] !in "<>\"'"
  {
    if s != [] {
      EscapedSafe(s[1..]);
      var p := EscapeCharUpTo(s[0], 5);
      var j := IndexOf(Specials[..5], s[0]);
      if 0 <= j {
        EntityChars(j);
      } else {
        assert s[0] !in Specials;
      }
      assert forall i :: 0 <= i < |p| ==> p[i] !in "<>\"'";
    }
  }

  /** The escaped text cannot open or close a tag or an attribute. */
  lemma EscapeXmlSafe(s: string)
    ensures forall i :: 0 <= i < |EscapeXml(s)| ==> EscapeXml(s)[i] !in "<>\"'"
  {
    EscapeXmlPerChar(s);
    EscapedSafe(s);
  }

  // ---------------------------------------------------------------- truncateText

  /**
    `truncateText`: text longer than `maxLength` keeps its first
    `maxLength - 1` characters (none when that is negative, as `substring`
    clamps) followed by three dots.
   */
  function TruncateText(text: string, maxLength: int): (r: string)
    ensures |text| <= maxLength ==> r == text
    ensures |text| > maxLength ==>
      |r| == (if maxLength >= 1 then maxLength + 2 else 3)
      && r[|r| - 3..] == "..." && r[..|r| - 3] == text[..|r| - 3]
  {
    if |text| <= maxLength then text
    else
      var keep := if maxLength - 1 < 0 then 0 else maxLength - 1;
      text[..keep] + "..."
  }

  /** Truncating an already truncated text changes nothing. */
  lemma TruncateIdempotent(text: string, maxLength: int)
    ensures TruncateText(TruncateText(text, maxLength), maxLength) == TruncateText(text, maxLength)
  {
    var r := TruncateText(text, maxLength);
    if |text| > maxLength {
      var keep := |r| - 3;
      assert r[..keep] == text[..keep];
      assert TruncateText(r, maxLength) == r[..keep] + "...";
      assert r == r[..keep] + r[keep..];
    }
  }

  /** The label `renderIcon` writes into a `<text>` element: at most ten characters, then escaped. */
  function KeyLabel(text: string): string {
    EscapeXml(TruncateText(text, 10))
  }

  /** A label never breaks the SVG markup around it, and it stands for at most 12 characters of the text. */
  lemma KeyLabelSafe(text: string)
    ensures forall i :: 0 <= i < |KeyLabel(text)| ==> KeyLabel(text)[i] !in "<>\"'"
    ensures UnescapeXml(KeyLabel(text)) == TruncateText(text, 10)
    ensures |TruncateText(text, 10)| <= 12
  {
    EscapeXmlSafe(TruncateText(text, 10));
    UnescapeEscape(TruncateText(text, 10));
  }

  // ---------------------------------------------------------------- getDefaultIconForDomain

  const DomainIcons: map<string, string> := map[
    "light" := "lightbulb", "switch" := "toggle-switch", "fan" := "fan", "climate" := "thermostat",
    "cover" := "blinds", "lock" := "lock", "door" := "door", "window" := "window-closed",
    "garage_door" := "garage", "media_player" := "speaker", "scene" := "palette",
    "script" := "script-text", "automation" := "robot", "input_boolean" := "toggle-switch",
    "input_button" := "power", "button" := "power", "binary_sensor" := "eye",
    "sensor" := "thermometer", "camera" := "camera", "vacuum" := "vacuum", "person" := "home",
    "device_tracker" := "home", "weather" := "weather-sunny", "humidifier" := "water-percent",
    "water_heater" := "fire", "alarm_control_panel" := "alert-circle", "remote" := "television",
    "select" := "cog", "input_select" := "cog", "number" := "cog", "input_number" := "cog",
    "text" := "script-text", "input_text" := "script-text"]

  /** `domainIcons[domain] || 'home'`. */
  function DefaultIconForDomain(domain: string): (icon: string)
    ensures icon != ""
    ensures icon == "home" || (domain in DomainIcons && icon == DomainIcons[domain])
  {
    if domain in DomainIcons && DomainIcons[domain] != "" then DomainIcons[domain] else "home"
  }

  /** No icon in the table is empty, so `||` falls back to `home` exactly for the unlisted domains. */
  lemma DefaultIconLookup(domain: string)
    ensures domain in DomainIcons ==> DefaultIconForDomain(domain) == DomainIcons[domain]
    ensures domain !in DomainIcons ==> DefaultIconForDomain(domain) == "home"
  {
    assert forall d :: d in DomainIcons ==> |DomainIcons[d]| >= 3;
  }

  // ---------------------------------------------------------------- isStateOn

  const OnStates: seq<string> :=
    ["on", "open", "unlocked", "playing", "home", "heat", "cool", "heat_cool", "auto", "cleaning"]

  /**
    `isStateOn`. `numericPositive` stands for the floating-point test
    `parseFloat(state) > 0` of the last branch.
   */
  predicate IsStateOn(state: string, domain: Option<string>, numericPositive: bool) {
    var s := Lower(state);
    if s in OnStates then true
    else if domain == Some("cover") then s == "open"
    else if domain == Some("lock") then s == "unlocked"
    else if domain == Some("media_player") then s in ["playing", "paused", "on"]
    else if domain == Some("climate") then s !in ["off", "unavailable", "unknown"]
    else if domain == Some("vacuum") then s in ["cleaning", "returning"]
    else if domain == Some("device_tracker") || domain == Some("person") then s == "home"
    else numericPositive
  }

  /** The domains with a list of their own; for them the number test is never reached. */
  const ListedDomains: set<string> :=
    {"cover", "lock", "media_player", "climate", "vacuum", "device_tracker", "person"}

  /** The states, besides the common ones, in which a listed domain is on. */
  predicate DomainOn(domain: string, s: string) {
    match domain
    case "media_player" => s == "paused"
    case "climate" => s !in ["off", "unavailable", "unknown"]
    case "vacuum" => s == "returning"
    case _ => false
  }

  /**
    Reference reading of `isStateOn`: a common on state, or a state the
    domain's own list accepts, or, for any other domain, a positive number.
   */
  lemma StateOnReference(state: string, domain: Option<string>, numericPositive: bool)
    ensures IsStateOn(state, domain, numericPositive) <==>
      Lower(state) in OnStates
      || (domain.Some? && domain.value in ListedDomains && DomainOn(domain.value, Lower(state)))
      || ((domain.None? || domain.value !in ListedDomains) && numericPositive)
  {
  }

  /** A common on state is on whatever the domain. */
  lemma CommonStatesOn(state: string, domain: Option<string>, numericPositive: bool)
    requires Lower(state) in OnStates
    ensures IsStateOn(state, domain, numericPositive)
  {
  }

  /** For a listed domain the number test does not matter; a climate device is on unless off, unavailable or unknown. */
  lemma ListedDomainsIgnoreNumbers(state: string, domain: string)
    requires domain in ListedDomains
    ensures IsStateOn(state, Some(domain), true) == IsStateOn(state, Some(domain), false)
    ensures domain == "climate" ==>
      (IsStateOn(state, Some(domain), false) <==> Lower(state) !in ["off", "unavailable", "unknown"])
  {
  }

  // ---------------------------------------------------------------- renderIcon layout

  datatype Placement = Top | Bottom

  /** Where the icon and the two text baselines go; a missing line has no baseline. */
  datatype KeyLayout = KeyLayout(icon: IconBox, titleY: Option<int>, stateY: Option<int>)

  /** The icon's side and its top-left corner. */
  datatype IconBox = IconBox(size: int, x: int, y: int)

  /**
    The sizes `renderIcon` derives from the key size with `Math.floor(size * f)`;
    for a whole, non-negative size these are the integer quotients below.
   */
  function Padding(size: nat): nat { size / 10 }
  function TextHeight(size: nat): nat { size * 15 / 100 }
  function FontSize(size: nat): nat { size * 12 / 100 }
  function TextIconSize(size: nat): nat { size * 55 / 100 }

  /** A title or state is drawn when it has something other than white space. */
  predicate Shown(text: string) { |Trim(text)| > 0 }

  /**
    The layout by cases. No text: the icon fills the key inside the padding.
    Text: a smaller icon, centred when there is text on both sides, below the
    top line when there is text on top only, and at the padding otherwise.
    The title's baseline is near the top or the bottom; a state on the same
    side as the title goes on the second line.
   */
  function LayoutSpec(size: nat, title: string, titlePosition: Option<Placement>,
                      state: string, statePosition: Option<Placement>): KeyLayout
  {
    var hasTitle, hasState := Shown(title), Shown(state);
    KeyLayout(IconSpec(size, hasTitle, titlePosition, hasState, statePosition), TitleSpec(size, hasTitle, titlePosition),
              StateSpec(size, hasState, statePosition, hasTitle, titlePosition))
  }

  /** The icon's size and top-left corner. */
  function IconSpec(size: nat, hasTitle: bool, titlePosition: Option<Placement>,
                    hasState: bool, statePosition: Option<Placement>): IconBox
  {
    var top := (hasTitle && titlePosition == Some(Top)) || (hasState && statePosition == Some(Top));
    var bottom := (hasTitle && titlePosition == Some(Bottom)) || (hasState && statePosition == Some(Bottom));
    var iconSize := if hasTitle || hasState then TextIconSize(size) else size - Padding(size) * 2;
    var iconY :=
      if !(hasTitle || hasState) then Padding(size)
      else if top && bottom then (size - iconSize) / 2
      else if top then TextHeight(size) + Padding(size)
      else Padding(size);
    IconBox(iconSize, (size - iconSize) / 2, iconY)
  }

  /** The title's baseline: the first line at the top, or the last line at the bottom. */
  function TitleSpec(size: nat, hasTitle: bool, titlePosition: Option<Placement>): Option<int> {
    if !hasTitle then None
    else if titlePosition == Some(Top) then Some(FontSize(size) + 2)
    else Some(size - 4)
  }

  /** The state's baseline: the title's line unless the title is on the same side, then the next line inwards. */
  function StateSpec(size: nat, hasState: bool, statePosition: Option<Placement>,
                     hasTitle: bool, titlePosition: Option<Placement>): Option<int>
  {
    if !hasState then None
    else if statePosition == Some(Top) then
      (if hasTitle && titlePosition == Some(Top) then Some(FontSize(size) * 2 + 4) else Some(FontSize(size) + 2))
    else
      (if hasTitle && titlePosition == Some(Bottom) then Some(size - FontSize(size) - 6) else Some(size - 4))
  }

  /** The placement arithmetic of `renderIcon`, step by step as it reassigns its variables. */
  method RenderLayout(size: nat, title: string, titlePosition: Option<Placement>,
                      state: string, statePosition: Option<Placement>) returns (layout: KeyLayout)
    ensures layout == LayoutSpec(size, title, titlePosition, state, statePosition)
  {
    var hasTitle := Shown(title);
    var hasState := Shown(state);
    var icon := PlaceIcon(size, hasTitle, titlePosition, hasState, statePosition);
    var titleY, stateY := PlaceText(size, hasTitle, titlePosition, hasState, statePosition);
    layout := KeyLayout(icon, titleY, stateY);
  }

  /** The icon's size and position: the full padded key, then shrunk and moved when there is text. */
  method PlaceIcon(size: nat, hasTitle: bool, titlePosition: Option<Placement>,
                   hasState: bool, statePosition: Option<Placement>) returns (icon: IconBox)
    ensures icon == IconSpec(size, hasTitle, titlePosition, hasState, statePosition)
  {
    var padding := size / 10;
    var iconSize := size - padding * 2;
    var iconY := padding;
    var textHeight := size * 15 / 100;
    if hasTitle || hasState {
      iconSize := size * 55 / 100;
      var topText := (hasTitle && titlePosition == Some(Top)) || (hasState && statePosition == Some(Top));
      var bottomText := (hasTitle && titlePosition == Some(Bottom)) || (hasState && statePosition == Some(Bottom));
      if topText && bottomText {
        iconY := (size - iconSize) / 2;
      } else if topText {
        iconY := textHeight + padding;
      } else if bottomText {
        iconY := padding;
      }
    }
    var iconX := (size - iconSize) / 2;
    icon := IconBox(iconSize, iconX, iconY);
  }

  /** The baselines of the title and the state lines. */
  method PlaceText(size: nat, hasTitle: bool, titlePosition: Option<Placement>,
                   hasState: bool, statePosition: Option<Placement>) returns (titleY: Option<int>, stateY: Option<int>)
    ensures titleY == TitleSpec(size, hasTitle, titlePosition)
    ensures stateY == StateSpec(size, hasState, statePosition, hasTitle, titlePosition)
  {
    var fontSize := size * 12 / 100;
    titleY := None;
    if hasTitle {
      titleY := if titlePosition == Some(Top) then Some(fontSize + 2) else Some(size - 4);
    }
    stateY := None;
    if hasState {
      if statePosition == Some(Top) {
        if hasTitle && titlePosition == Some(Top) {
          stateY := Some(fontSize * 2 + 4);
        } else {
          stateY := Some(fontSize + 2);
        }
      } else {
        if hasTitle && titlePosition == Some(Bottom) {
          stateY := Some(size - fontSize - 6);
        } else {
          stateY := Some(size - 4);
        }
      }
    }
  }

  /** The icon always lies inside the key. */
  lemma IconInsideKey(size: nat, hasTitle: bool, titlePosition: Option<Placement>,
                      hasState: bool, statePosition: Option<Placement>)
    ensures var b := IconSpec(size, hasTitle, titlePosition, hasState, statePosition);
      0 <= b.x && b.x + b.size <= size && 0 <= b.y && b.y + b.size <= size
  {
  }

  /**
    On keys of at least 60 pixels a single line of text on either side stays
    clear of the icon: a top line's baseline is at or above the icon, a bottom
    line's top (baseline minus font size) at or below it. Two lines at the
    bottom stay clear too, and the second line of a pair is the inner one.
   */
  lemma TextClearOfIcon(size: nat, hasTitle: bool, titlePosition: Option<Placement>,
                        hasState: bool, statePosition: Option<Placement>)
    requires size >= 60
    ensures var b := IconSpec(size, hasTitle, titlePosition, hasState, statePosition);
      var t := TitleSpec(size, hasTitle, titlePosition);
      var f := FontSize(size);
      && (t.Some? && titlePosition == Some(Top) ==> t.value <= b.y)
      && (t.Some? && titlePosition != Some(Top) ==> t.value - f >= b.y + b.size)
    ensures var b := IconSpec(size, hasTitle, titlePosition, hasState, statePosition);
      var s := StateSpec(size, hasState, statePosition, hasTitle, titlePosition);
      var f := FontSize(size);
      && (s.Some? && statePosition != Some(Top) ==> s.value - f >= b.y + b.size)
      && (s.Some? && statePosition == Some(Top) && !(hasTitle && titlePosition == Some(Top)) ==> s.value <= b.y)
    ensures var t := TitleSpec(size, hasTitle, titlePosition);
      var s := StateSpec(size, hasState, statePosition, hasTitle, titlePosition);
      t.Some? && s.Some? && titlePosition == statePosition == Some(Top) ==> t.value < s.value
    ensures var t := TitleSpec(size, hasTitle, titlePosition);
      var s := StateSpec(size, hasState, statePosition, hasTitle, titlePosition);
      t.Some? && s.Some? && titlePosition == statePosition == Some(Bottom) ==> s.value < t.value
  {
    var f := FontSize(size);
    assert 7 <= f && f * 2 + 4 > f + 2 && size - f - 6 < size - 4;
    if hasTitle && hasState && titlePosition == Some(Bottom) && statePosition == Some(Bottom) {
      assert TitleSpec(size, hasTitle, titlePosition) == Some(size - 4);
      assert StateSpec(size, hasState, statePosition, hasTitle, titlePosition) == Some(size - f - 6);
    } else if hasTitle && hasState && titlePosition == Some(Top) && statePosition == Some(Top) {
      assert TitleSpec(size, hasTitle, titlePosition) == Some(f + 2);
      assert StateSpec(size, hasState, statePosition, hasTitle, titlePosition) == Some(f * 2 + 4);
    }
  }

  /**
    With the title and the state both on top of a 144-pixel key (the size the
    entity button draws), the state's baseline falls below the top of the icon:
    only one line of text is reserved above it.
   */
  lemma TwoTopLinesOverlapIcon()
    ensures IconSpec(144, true, Some(Top), true, Some(Top)).y == 35
    ensures TitleSpec(144, true, Some(Top)) == Some(19)
    ensures StateSpec(144, true, Some(Top), true, Some(Top)) == Some(38)
  {
  }

  /**
    The overlap is not particular to 144 pixels: on every key smaller than
    240 pixels, two lines on top put the state's baseline below the icon's
    top.
   */
  lemma TwoTopLinesOverlapBelow240(size: nat)
    requires size < 240
    ensures StateSpec(size, true, Some(Top), true, Some(Top)).value > IconSpec(size, true, Some(Top), true, Some(Top)).y
  {
    TwoTopLinesByHundreds(size);
    RoundingGainLow(size % 100);
    if size >= 200 {
      RoundingGainEarly(size % 100);
    }
  }

  /**
    240 pixels is the first size where the icon starts at or below the
    state's baseline, and from 460 pixels on it always does; in between,
    the rounding decides.
   */
  lemma TwoTopLinesClearFrom460(size: nat)
    requires size == 240 || size >= 460
    ensures StateSpec(size, true, Some(Top), true, Some(Top)).value <= IconSpec(size, true, Some(Top), true, Some(Top)).y
  {
    TwoTopLinesByHundreds(size);
    if size == 240 {
      assert RoundingGain(40) == 2;
    } else if size < 500 {
      DivUnique(size, 100, 4, size - 400);
      RoundingGainLate(size - 400);
    } else {
      assert size / 100 >= 5;
      RoundingGainHigh(size % 100);
    }
  }

  /**
    What the rounding of the font size, text height and padding adds to the
    state's lead over the icon within one hundred pixels: from two to five.
   */
  function RoundingGain(r: nat): int {
    2 * (r * 12 / 100) - r * 15 / 100 - r / 10 + 4
  }

  /** The three roundings, as bounds on their quotients. */
  lemma RoundingBounds(r: nat)
    ensures 100 * (r * 12 / 100) <= r * 12 < 100 * (r * 12 / 100) + 100
    ensures 100 * (r * 15 / 100) <= r * 15 < 100 * (r * 15 / 100) + 100
    ensures 10 * (r / 10) <= r < 10 * (r / 10) + 10
  {
  }

  lemma RoundingGainLow(r: nat)
    requires r < 100
    ensures RoundingGain(r) >= 2
  {
    RoundingBounds(r);
  }

  lemma RoundingGainHigh(r: nat)
    requires r < 100
    ensures RoundingGain(r) <= 5
  {
    RoundingBounds(r);
  }

  /** In the first forty pixels of a hundred the gain is at least three, checked range by range. */
  lemma RoundingGainEarly(r: nat)
    requires r < 40
    ensures RoundingGain(r) >= 3
  {
    RoundingBounds(r);
    if r < 10 {
    } else if r < 20 {
    } else if r < 27 {
    } else if r < 34 {
    } else {
    }
  }

  /** From sixty pixels into a hundred the gain is at most four, checked range by range. */
  lemma RoundingGainLate(r: nat)
    requires 60 <= r < 100
    ensures RoundingGain(r) <= 4
  {
    RoundingBounds(r);
    if r < 67 {
    } else if r < 75 {
    } else if r < 84 {
    } else if r < 92 {
    } else {
    }
  }

  /**
    With both lines on top, the state's baseline lies below the icon's top by
    the rounding gain of the last hundred pixels, less one pixel per whole hundred.
   */
  lemma TwoTopLinesByHundreds(size: nat)
    ensures StateSpec(size, true, Some(Top), true, Some(Top)).value - IconSpec(size, true, Some(Top), true, Some(Top)).y
         == RoundingGain(size % 100) - size / 100
  {
    var q, r := size / 100, size % 100;
    assert size == 100 * q + r;
    assert size * 12 == 100 * (12 * q) + r * 12;
    DivAddMul(12 * q, r * 12, 100);
    assert size * 15 == 100 * (15 * q) + r * 15;
    DivAddMul(15 * q, r * 15, 100);
    assert size == 10 * (10 * q) + r;
    DivAddMul(10 * q, r, 10);
  }
}
