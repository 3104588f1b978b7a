/**
  The entity-button property inspector of the older Home Assistant plugin:
  one search term matched against an entity's name or id, the area and
  domain filters, and the connect form that stores the server's URL and
  token and asks the plugin to connect.
 */
module LegacyEntityButtonInspector {
  import opened Wrappers
  import opened Strings
  import opened EntityPicker
  import EntityButtonInspector

  // ---------------------------------------------------------------- filterEntities

  /** The search box's text, lower-cased and trimmed; it is matched as one piece. */
  function SearchTerm(input: string): string {
    Trim(Lower(input))
  }

  /** An entity passes the search term (in its name or its id) and the area and domain filters. */
  predicate LegacyMatches(e: PiEntity, term: string, area: string, domain: string) {
    (term == "" || Contains(Lower(e.friendlyName), term) || Contains(Lower(e.entityId), term)) &&
    (area == "" || e.areaId == area) &&
    (domain == "" || e.domain == domain)
  }

  /** `filterEntities`: the listed entities and the "(n)" count beside the dropdown. */
  function FilterEntities(entities: seq<PiEntity>, input: string, area: string, domain: string): (r: seq<PiEntity>)
    ensures forall e :: e in r <==> e in entities && LegacyMatches(e, SearchTerm(input), area, domain)
  {
    var term := SearchTerm(input);
    Filter(entities, e => LegacyMatches(e, term, area, domain))
  }

  /** With a blank search and no area or domain chosen, every entity is listed, in order. */
  lemma NoFilterListsAll(entities: seq<PiEntity>, input: string)
    requires SearchTerm(input) == ""
    ensures FilterEntities(entities, input, "", "") == entities
  {
    var term := SearchTerm(input);
    FilterAll(entities, e => LegacyMatches(e, term, "", ""));
  }

  /**
    A one-word term that this inspector finds is found by the newer
    inspector too: the name and the id are among the fields it searches.
   */
  lemma OneWordFoundByNewer(e: PiEntity, input: string, area: string, domain: string)
    requires SearchTerm(input) != ""
    requires forall k :: 0 <= k < |SearchTerm(input)| ==> !IsSpace(SearchTerm(input)[k])
    requires LegacyMatches(e, SearchTerm(input), area, domain)
    ensures EntityButtonInspector.EntityMatches(e, EntityButtonInspector.Filters(EntityButtonInspector.SearchWords(input), area, domain))
  {
    var term := SearchTerm(input);
    EntityButtonInspector.OneWordMatches(e, input);
    var fields := EntityButtonInspector.SearchFields(e);
    if Contains(Lower(e.friendlyName), term) {
      assert fields[0] == e.friendlyName;
    } else {
      assert fields[1] == e.entityId;
    }
  }

  /**
    The newer inspector also searches device, area and domain names: a
    one-word term found only in the entity's area name is found there but
    not here.
   */
  lemma AreaFoundOnlyByNewer(e: PiEntity, input: string)
    requires SearchTerm(input) != ""
    requires forall k :: 0 <= k < |SearchTerm(input)| ==> !IsSpace(SearchTerm(input)[k])
    requires Contains(Lower(e.areaName), SearchTerm(input))
    requires !Contains(Lower(e.friendlyName), SearchTerm(input)) && !Contains(Lower(e.entityId), SearchTerm(input))
    ensures EntityButtonInspector.EntityMatches(e, EntityButtonInspector.Filters(EntityButtonInspector.SearchWords(input), "", ""))
    ensures !LegacyMatches(e, SearchTerm(input), "", "")
  {
    EntityButtonInspector.OneWordMatches(e, input);
    assert EntityButtonInspector.SearchFields(e)[3] == e.areaName;
  }

  // ---------------------------------------------------------------- handleConnect

  /** Why the connect form was rejected. */
  datatype ConnectError = BlankInput | InvalidUrl

  /** The message shown for a rejection. */
  function Message(err: ConnectError): string {
    match err
    case BlankInput => "Please enter both URL and access token"
    case InvalidUrl => "Please enter a valid URL (e.g., http://192.168.1.254:8123)"
  }

  datatype ConnectRequest = ConnectRequest(url: string, token: string)

  /**
    What the connect button decides: both fields must hold more than white
    space, then the trimmed URL must pass `isValidUrl`; the URL and token
    used are the trimmed ones.
   */
  function CheckConnect(urlInput: string, tokenInput: string, isValidUrl: string -> bool): (r: Result<ConnectRequest, ConnectError>)
    ensures r.Ok? <==> Trim(urlInput) != "" && Trim(tokenInput) != "" && isValidUrl(Trim(urlInput))
    ensures r.Ok? ==> r.value == ConnectRequest(Trim(urlInput), Trim(tokenInput))
    ensures r == Err(BlankInput) <==> Trim(urlInput) == "" || Trim(tokenInput) == ""
  {
    var url := Trim(urlInput);
    var token := Trim(tokenInput);
    if url == "" || token == "" then Err(BlankInput)
    else if !isValidUrl(url) then Err(InvalidUrl)
    else Ok(ConnectRequest(url, token))
  }

  /** A blank field decides the outcome before the URL is ever checked. */
  lemma BlankSkipsUrlCheck(urlInput: string, tokenInput: string, isValidUrl: string -> bool, other: string -> bool)
    requires Trim(urlInput) == "" || Trim(tokenInput) == ""
    ensures CheckConnect(urlInput, tokenInput, isValidUrl) == CheckConnect(urlInput, tokenInput, other) == Err(BlankInput)
  {
  }

  /** How the connection indicator looks. */
  datatype Indicator = Disconnected | Connecting | Connected

  /** The inspector's state that the connect form touches. */
  class ConnectForm {
    /** The plugin-wide settings `haUrl` and `haToken`. */
    var haUrl: string
    var haToken: string
    var error: Option<string>
    var indicator: Indicator
    /** How many times the global settings were saved. */
    var saves: nat
    /** The `{event: "connect"}` messages sent to the plugin. */
    var connectsSent: nat

    constructor ()
      ensures haUrl == "" && haToken == "" && error.None? && indicator == Disconnected
      ensures saves == 0 && connectsSent == 0
    {
      haUrl := "";
      haToken := "";
      error := None;
      indicator := Disconnected;
      saves := 0;
      connectsSent := 0;
    }

    /**
      `handleConnect`: a rejected form shows its message and changes nothing
      else; an accepted one clears the message, shows "connecting", stores
      and saves the trimmed URL and token, and sends one connect request.
     */
    method HandleConnect(urlInput: string, tokenInput: string, isValidUrl: string -> bool)
      modifies this
      ensures CheckConnect(urlInput, tokenInput, isValidUrl).Err? ==>
        error == Some(Message(CheckConnect(urlInput, tokenInput, isValidUrl).error)) &&
        haUrl == old(haUrl) && haToken == old(haToken) && indicator == old(indicator) &&
        saves == old(saves) && connectsSent == old(connectsSent)
      ensures CheckConnect(urlInput, tokenInput, isValidUrl).Ok? ==>
        error == None && indicator == Connecting &&
        haUrl == Trim(urlInput) && haToken == Trim(tokenInput) &&
        saves == old(saves) + 1 && connectsSent == old(connectsSent) + 1
    {
      ghost var decided := CheckConnect(urlInput, tokenInput, isValidUrl);
      var url := Trim(urlInput);
      var token := Trim(tokenInput);
      if url == "" || token == "" {
        error := Some(Message(BlankInput));
        return;
      }
      if !isValidUrl(url) {
        error := Some(Message(InvalidUrl));
        return;
      }
      error := None;
      indicator := Connecting;
      haUrl := url;
      haToken := token;
      saves := saves + 1;
      connectsSent := connectsSent + 1;
    }
  }
}
