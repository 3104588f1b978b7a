/**
  The entity button action: which Home Assistant service a key press calls,
  the guards in front of it, how an entity state is shown, and the
  text-only title used when the icon cannot be drawn.
 */
module EntityButton {
  import opened Wrappers
  import opened Strings
  import opened Renderer

  // ---------------------------------------------------------------- settings

  datatype ButtonAction = Toggle | TurnOn | TurnOff | CallService | NoAction

  /** The action as it is spelled in the settings, which is also the service name it calls by default. */
  function ActionName(a: ButtonAction): string {
    match a
    case Toggle => "toggle"
    case TurnOn => "turn_on"
    case TurnOff => "turn_off"
    case CallService => "call_service"
    case NoAction => "none"
  }

  /** The `data` object of a custom service call, passed through unchanged. */
  type ServiceArgs = map<string, string>

  datatype ServiceData = ServiceData(domain: string, service: string, data: Option<ServiceArgs>)

  /** The appearance fields the fallback title reads; an empty `titleOverride` is an absent one. */
  datatype Appearance = Appearance(showTitle: bool, titleOverride: string, titlePosition: Placement,
                                   showState: bool, statePosition: Placement)

  datatype Settings = Settings(entityId: string, action: ButtonAction, serviceData: Option<ServiceData>,
                               appearance: Appearance)

  /** `haConnection.callService(domain, service, data, target)`; the target is `{entity_id}` when present. */
  datatype ServiceCall = ServiceCall(domain: string, service: string, data: Option<ServiceArgs>, target: Option<string>)

  // ---------------------------------------------------------------- executeAction

  /** `entityId.split(".")[0]`: the part before the first `.`, or all of it. */
  function EntityDomain(entityId: string): (domain: string)
    ensures '.' !in domain
    ensures |domain| <= |entityId| && entityId[..|domain|] == domain
    ensures domain == entityId || entityId[|domain|] == '.'
  {
    var i := IndexOf(entityId, '.');
    if i < 0 then entityId else entityId[..i]
  }

  /** The domains that take `toggle`, `turn_on` and `turn_off` as they are. */
  const PlainDomains: set<string> :=
    {"light", "switch", "fan", "input_boolean", "automation", "script", "humidifier", "water_heater"}

  /** Every domain with its own case; any other is served by the `homeassistant` domain. */
  const KnownDomains: set<string> :=
    PlainDomains + {"cover", "lock", "media_player", "climate", "scene", "vacuum"}

  /** The case of `executeAction`'s `switch (domain)` a domain falls into. */
  datatype DomainCase = PlainCase | CoverCase | LockCase | MediaPlayerCase | ClimateCase | SceneCase | VacuumCase | OtherCase

  function CaseOf(domain: string): (k: DomainCase)
    ensures k == PlainCase <==> domain in PlainDomains
    ensures k == OtherCase <==> domain !in KnownDomains
    ensures k == LockCase <==> domain == "lock"
    ensures k == ClimateCase <==> domain == "climate"
    ensures k == VacuumCase <==> domain == "vacuum"
    ensures k == SceneCase <==> domain == "scene"
  {
    if domain in PlainDomains then PlainCase
    else if domain == "cover" then CoverCase
    else if domain == "lock" then LockCase
    else if domain == "media_player" then MediaPlayerCase
    else if domain == "climate" then ClimateCase
    else if domain == "scene" then SceneCase
    else if domain == "vacuum" then VacuumCase
    else OtherCase
  }

  /** The service a domain's case picks, given the entity's current state if it is known. */
  function ServiceName(domain: string, action: ButtonAction, current: Option<string>): string {
    match CaseOf(domain)
    case PlainCase => if domain == "script" && action == Toggle then "turn_on" else ActionName(action)
    case CoverCase =>
      (match action
       case TurnOn => "open_cover"
       case TurnOff => "close_cover"
       case _ => ActionName(action))
    case LockCase =>
      (match action
       case TurnOn => "lock"
       case TurnOff => "unlock"
       case Toggle => if current == Some("locked") then "unlock" else "lock"
       case _ => ActionName(action))
    case ClimateCase =>
      if action == Toggle then (if current.Some? && current.value != "off" then "turn_off" else "turn_on")
      else ActionName(action)
    case SceneCase => "turn_on"
    case VacuumCase =>
      (match action
       case TurnOn => "start"
       case TurnOff => "return_to_base"
       case Toggle => if current == Some("cleaning") then "return_to_base" else "start"
       case _ => ActionName(action))
    case _ => ActionName(action)
  }

  /**
    The call `executeAction` makes, given the entity's cached state
    (`haConnection.getEntity(entityId)?.state`).
   */
  function ServiceCallFor(settings: Settings, current: Option<string>): (call: Option<ServiceCall>)
    ensures settings.action == NoAction <==> call.None?
    ensures settings.action == CallService && settings.serviceData.Some? ==>
      call == Some(ServiceCall(settings.serviceData.value.domain, settings.serviceData.value.service,
                               settings.serviceData.value.data,
                               if settings.entityId == "" then None else Some(settings.entityId)))
    ensures call.Some? && !(settings.action == CallService && settings.serviceData.Some?) ==>
      call.value.target == Some(settings.entityId) && call.value.data.None?
    ensures (call.Some? && !(settings.action == CallService && settings.serviceData.Some?)
             && EntityDomain(settings.entityId) !in KnownDomains) ==>
      call.value.domain == "homeassistant" && call.value.service == ActionName(settings.action)
    ensures call.Some? && EntityDomain(settings.entityId) == "scene" && settings.action != CallService ==>
      call.value == ServiceCall("scene", "turn_on", None, Some(settings.entityId))
  {
    if settings.action == NoAction then None
    else if settings.action == CallService && settings.serviceData.Some? then
      var sd := settings.serviceData.value;
      Some(ServiceCall(sd.domain, sd.service, sd.data, if settings.entityId == "" then None else Some(settings.entityId)))
    else
      var domain := EntityDomain(settings.entityId);
      if CaseOf(domain) != OtherCase then
        Some(ServiceCall(domain, ServiceName(domain, settings.action, current), None, Some(settings.entityId)))
      else
        Some(ServiceCall("homeassistant", ActionName(settings.action), None, Some(settings.entityId)))
  }

  /** `executeAction`: the switch over the domain that rewrites the service to call. */
  method ExecuteAction(settings: Settings, current: Option<string>) returns (call: Option<ServiceCall>)
    ensures call == ServiceCallFor(settings, current)
  {
    var entityId, action := settings.entityId, settings.action;
    if action == NoAction {
      return None;
    }
    if action == CallService && settings.serviceData.Some? {
      var sd := settings.serviceData.value;
      return Some(ServiceCall(sd.domain, sd.service, sd.data, if entityId != "" then Some(entityId) else None));
    }
    var domain := EntityDomain(entityId);
    var serviceDomain := domain;
    var service := ActionName(action);
    match CaseOf(domain) {
      case PlainCase =>
        if domain == "script" && action == Toggle {
          service := "turn_on";
        }
      case CoverCase =>
        if action == TurnOn {
          service := "open_cover";
        } else if action == TurnOff {
          service := "close_cover";
        } else if action == Toggle {
          service := "toggle";
        }
      case LockCase =>
        if action == TurnOn {
          service := "lock";
        } else if action == TurnOff {
          service := "unlock";
        } else if action == Toggle {
          if current.Some? {
            service := if current.value == "locked" then "unlock" else "lock";
          } else {
            service := "lock";
          }
        }
      case MediaPlayerCase =>
        if action == Toggle {
          service := "toggle";
        } else if action == TurnOn {
          service := "turn_on";
        } else if action == TurnOff {
          service := "turn_off";
        }
      case ClimateCase =>
        if action == TurnOn {
          service := "turn_on";
        } else if action == TurnOff {
          service := "turn_off";
        } else if action == Toggle {
          if current.Some? {
            service := if current.value == "off" then "turn_on" else "turn_off";
          } else {
            service := "turn_on";
          }
        }
      case SceneCase =>
        service := "turn_on";
      case VacuumCase =>
        if action == TurnOn {
          service := "start";
        } else if action == TurnOff {
          service := "return_to_base";
        } else if action == Toggle {
          if current.Some? {
            service := if current.value == "cleaning" then "return_to_base" else "start";
          } else {
            service := "start";
          }
        }
      case OtherCase =>
        serviceDomain := "homeassistant";
    }
    call := Some(ServiceCall(serviceDomain, service, None, Some(entityId)));
  }

  function WithAction(s: Settings, a: ButtonAction): Settings {
    s.(action := a)
  }

  /**
    Whether a lock, climate or vacuum entity counts as running for `toggle`:
    locked, not off, or cleaning. An entity missing from the cache never does.
   */
  predicate IsActive(domain: string, current: Option<string>) {
    current.Some? &&
    ((domain == "lock" && current.value == "locked") ||
     (domain == "climate" && current.value != "off") ||
     (domain == "vacuum" && current.value == "cleaning"))
  }

  /** For locks, climate devices and vacuums, `toggle` does what `turn_off` does when active and what `turn_on` does otherwise. */
  lemma ToggleFollowsState(s: Settings, current: Option<string>)
    requires s.action == Toggle && EntityDomain(s.entityId) in {"lock", "climate", "vacuum"}
    ensures ServiceCallFor(s, current) ==
      ServiceCallFor(WithAction(s, if IsActive(EntityDomain(s.entityId), current) then TurnOff else TurnOn), current)
  {
    var d := EntityDomain(s.entityId);
    var a := if IsActive(d, current) then TurnOff else TurnOn;
    ToggleService(d, current);
    assert ServiceCallFor(s, current) == Some(ServiceCall(d, ServiceName(d, Toggle, current), None, Some(s.entityId)));
    assert ServiceCallFor(WithAction(s, a), current) == Some(ServiceCall(d, ServiceName(d, a, current), None, Some(s.entityId)));
  }

  lemma ToggleService(d: string, current: Option<string>)
    requires d in {"lock", "climate", "vacuum"}
    ensures ServiceName(d, Toggle, current) == ServiceName(d, if IsActive(d, current) then TurnOff else TurnOn, current)
  {
    match CaseOf(d)
    case LockCase =>
    case ClimateCase =>
    case VacuumCase =>
  }

  /** `turn_on` and `turn_off` call different services in every domain except `scene`. */
  lemma OnOffDistinct(s: Settings, current: Option<string>)
    ensures ServiceCallFor(WithAction(s, TurnOn), current) != ServiceCallFor(WithAction(s, TurnOff), current)
      <==> EntityDomain(s.entityId) != "scene"
  {
    var d := EntityDomain(s.entityId);
    var on := ServiceCallFor(WithAction(s, TurnOn), current);
    var off := ServiceCallFor(WithAction(s, TurnOff), current);
    OnOffServices(d, current);
    assert on.Some? && off.Some? && on.value.domain == off.value.domain;
    if CaseOf(d) == OtherCase {
      assert on.value.service == "turn_on" && off.value.service == "turn_off";
    } else {
      assert on.value.service == ServiceName(d, TurnOn, current);
      assert off.value.service == ServiceName(d, TurnOff, current);
    }
  }

  /** Outside `scene`, the two services a domain picks for `turn_on` and `turn_off` differ, even in length. */
  lemma OnOffServices(d: string, current: Option<string>)
    ensures CaseOf(d) == SceneCase ==> ServiceName(d, TurnOn, current) == ServiceName(d, TurnOff, current)
    ensures CaseOf(d) != SceneCase ==> |ServiceName(d, TurnOn, current)| != |ServiceName(d, TurnOff, current)|
  {
    match CaseOf(d)
    case PlainCase =>
    case CoverCase =>
    case LockCase =>
    case MediaPlayerCase =>
    case ClimateCase =>
    case SceneCase =>
    case VacuumCase =>
    case OtherCase =>
  }

  // ---------------------------------------------------------------- onKeyDown

  /** `showOk` or `showAlert` on the key. */
  datatype Feedback = ShowOk | ShowAlert

  /**
    `onKeyDown`: a button without an entity (unless it calls a custom
    service) or a disconnected plugin shows an alert and calls nothing;
    otherwise the action runs, and a call that fails (`callSucceeds` false)
    shows an alert.
   */
  method OnKeyDown(settings: Settings, connected: bool, current: Option<string>, callSucceeds: bool)
    returns (feedback: Feedback, call: Option<ServiceCall>)
    ensures settings.entityId == "" && settings.action != CallService ==> feedback == ShowAlert && call.None?
    ensures !connected ==> feedback == ShowAlert && call.None?
    ensures (settings.entityId != "" || settings.action == CallService) && connected ==>
      call == ServiceCallFor(settings, current) &&
      feedback == (if call.None? || callSucceeds then ShowOk else ShowAlert)
  {
    if settings.entityId == "" && settings.action != CallService {
      return ShowAlert, None;
    }
    if !connected {
      return ShowAlert, None;
    }
    call := ExecuteAction(settings, current);
    if call.Some? && !callSucceeds {
      feedback := ShowAlert;
    } else {
      feedback := ShowOk;
    }
  }

  // ---------------------------------------------------------------- formatState

  const CapitalizedStates: seq<string> := ["unavailable", "unknown", "idle", "playing", "paused"]

  /** `charAt(0).toUpperCase() + slice(1).toLowerCase()`. */
  function Capitalize(s: string): string {
    if s == [] then [] else [UpperChar(s[0])] + Lower(s[1..])
  }

  /**
    `formatState`: with a unit, the state followed by it; `on`/`off` as
    `On`/`Off`; the five common states in any letter case capitalised;
    anything else as it is.
   */
  function FormatState(state: string, unit: string): (text: string)
    ensures unit != "" ==> text == state + unit
    ensures unit == "" && state == "on" ==> text == "On"
    ensures unit == "" && state == "off" ==> text == "Off"
    ensures unit == "" && state != "on" && state != "off" && Lower(state) !in CapitalizedStates ==> text == state
    ensures unit == "" && state != "on" && state != "off" && Lower(state) in CapitalizedStates ==>
      |text| == |state| && Lower(text) == Lower(state) && IsUpperAscii(text[0])
      && text[0] == UpperChar(state[0]) && text[1..] == Lower(state)[1..]
  {
    if unit != "" then state + unit
    else if state == "on" || state == "off" then [UpperChar(state[0])] + state[1..]
    else if Lower(state) in CapitalizedStates then
      CapitalizeCommonState(state);
      Capitalize(state)
    else state
  }

  lemma CaseChars(c: char)
    ensures UpperChar(LowerChar(c)) == UpperChar(c)
    ensures LowerChar(UpperChar(c)) == LowerChar(c)
    ensures LowerChar(LowerChar(c)) == LowerChar(c)
    ensures IsLowerAscii(LowerChar(c)) ==> IsUpperAscii(UpperChar(c))
  {
  }

  /**
    A common state, capitalised, keeps its letters, starts with a capital
    and is lower case after that.
   */
  lemma CapitalizeCommonState(state: string)
    requires Lower(state) in CapitalizedStates
    ensures |Capitalize(state)| == |state| && Lower(Capitalize(state)) == Lower(state)
    ensures IsUpperAscii(Capitalize(state)[0]) && Capitalize(state)[0] == UpperChar(state[0])
    ensures Capitalize(state)[1..] == Lower(state)[1..]
  {
    var low := Lower(state);
    assert |low| >= 4 && IsLowerAscii(low[0]);
    var cap := Capitalize(state);
    CaseChars(state[0]);
    forall i | 0 <= i < |state|
      ensures LowerChar(cap[i]) == LowerChar(state[i])
    {
      CaseChars(state[i]);
      if i > 0 {
        assert cap[i] == Lower(state[1..])[i - 1] == LowerChar(state[i]);
      }
    }
    assert Lower(state[1..]) == Lower(state)[1..];
  }

  /** Two spellings of a common state that differ only in letter case are shown the same way. */
  lemma FormatStateIgnoresCase(s: string, t: string)
    requires Lower(s) == Lower(t) && Lower(s) in CapitalizedStates
    ensures FormatState(s, "") == FormatState(t, "")
  {
    assert |s| == |t| && |s| >= 4;
    assert Lower(s)[0] == LowerChar(s[0]) && Lower(t)[0] == LowerChar(t[0]);
    CaseChars(s[0]);
    CaseChars(t[0]);
    assert Lower(s[1..]) == Lower(s)[1..] && Lower(t[1..]) == Lower(t)[1..];
  }

  // ---------------------------------------------------------------- the text-only title

  /** `titleOverride || friendly_name || entity_id`. */
  function DisplayTitle(titleOverride: string, friendlyName: string, entityId: string): string {
    if titleOverride != "" then titleOverride else if friendlyName != "" then friendlyName else entityId
  }

  /** The lines of the fallback title, top to bottom. */
  function ShownLines(a: Appearance, title: string, state: string): seq<string> {
    (if a.showTitle && a.titlePosition != Bottom then [title] else []) +
    (if a.showState && a.statePosition == Top then [state] else []) +
    (if a.showTitle && a.titlePosition == Bottom then [title] else []) +
    (if a.showState && a.statePosition == Bottom then [state] else [])
  }

  /**
    The text-only title `updateButtonAppearance` falls back to: built by
    successive `+=`, each step adding a line only when the title so far is
    not empty.
   */
  method FallbackTitle(a: Appearance, title: string, state: string) returns (text: string)
    ensures ShownLines(a, title, state) == [] ==> text == ""
    ensures title != "" && state != "" ==> text == Join(ShownLines(a, title, state), "\n")
    // An empty top state is swallowed by the title; an empty bottom state still adds its newline.
    ensures title != "" ==>
      text == Join(ShownLines(a.(showState := a.showState && !(a.statePosition == Top && state == "")), title, state), "\n")
  {
    text := "";
    if a.showState {
      if a.statePosition == Top {
        text := state;
      }
    }
    if a.showTitle {
      if a.titlePosition == Bottom {
        if text != "" {
          text := text + "\n" + title;
        } else {
          text := title;
        }
      } else {
        if text != "" {
          text := title + "\n" + text;
        } else {
          text := title;
        }
      }
    }
    if a.showState && a.statePosition == Bottom {
      if text != "" {
        text := text + "\n" + state;
      } else {
        text := state;
      }
    }
  }
}
