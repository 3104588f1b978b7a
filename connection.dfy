/**
  The plugin's in-memory view of Home Assistant: the entity cache, the
  area, device, entity and label registries, the subscribers to entity
  and connection changes, and the connection state. The websocket itself
  is not modelled: what it answers comes in as parameters, and what the
  plugin sends out is kept in a log of commands.
 */
module Connection {
  import opened Wrappers
  import opened Strings
  import opened LayoutLabels

  // ---------------------------------------------------------------- records

  /** A cached entity; its attributes are kept as they arrive. */
  datatype HAEntity = HAEntity(entityId: string, state: string, attributes: map<string, string>)

  datatype HAArea = HAArea(areaId: string, name: string)

  datatype HADevice = HADevice(id: string, name: string, areaId: Option<string>)

  /** An entity registry entry; a missing `labels` list is an empty one. */
  datatype RegistryEntry = RegistryEntry(entityId: string, deviceId: Option<string>, areaId: Option<string>,
                                         labels: seq<string>)

  datatype HALabel = HALabel(labelId: string, name: string)

  datatype ConnectionState = ConnectionState(connected: bool, error: Option<string>)

  datatype HAConfig = HAConfig(url: string, token: string)

  /** An entry of `getEntitiesWithDeckAssistantLabels`. */
  datatype LabelledEntity = LabelledEntity(entityId: string, labels: seq<string>, hierarchy: seq<seq<string>>)

  /** A subscriber callback, identified by the function object the caller passed in. */
  type Callback = nat

  /** One call of a subscriber callback and what it was given. */
  datatype Delivery =
    | EntitiesTo(callback: Callback, entities: map<string, HAEntity>)
    | StateTo(callback: Callback, state: ConnectionState)

  /** What the plugin sends to Home Assistant or does to its websocket, apart from registry reads. */
  datatype Command =
    | Open(url: string, token: string)
    | CallServiceCommand(domain: string, service: string, data: Option<map<string, string>>, target: Option<string>)
    | CreateLabelCommand(name: string)
    | UpdateEntityLabels(entityId: string, labelIds: seq<string>)
    | UnsubscribeEntities
    | Close

  /** What Home Assistant answers to `connect`: a failure, or the registries (`None` where a fetch failed or gave null). */
  datatype ConnectOutcome =
    | ConnectFailed(message: string)
    | Connected(handle: nat, areas: Option<seq<HAArea>>, devices: Option<seq<HADevice>>,
                registry: Option<seq<RegistryEntry>>, labels: Option<seq<HALabel>>)

  const NotConnectedError: string := "Not connected to Home Assistant"

  // ---------------------------------------------------------------- subscriber sets

  /** No callback twice: a JavaScript `Set`, kept in insertion order. */
  predicate NoDup(s: seq<Callback>) {
    forall i, j :: 0 <= i < j < |s| ==> s[i] != s[j]
  }

  /** `Set.add`: a new callback goes at the end, an existing one keeps its place. */
  function Add(s: seq<Callback>, cb: Callback): (r: seq<Callback>)
    ensures NoDup(s) ==> NoDup(r)
    ensures forall x :: x in r <==> x in s || x == cb
    ensures |s| <= |r| <= |s| + 1 && r[..|s|] == s
  {
    if cb in s then s else s + [cb]
  }

  /** `Set.delete`: only the given callback goes, the others keep their order. */
  function Remove(s: seq<Callback>, cb: Callback): (r: seq<Callback>)
    ensures NoDup(s) ==> NoDup(r)
    ensures forall x :: x in r <==> x in s && x != cb
    ensures |r| <= |s|
  {
    if s == [] then []
    else
      NoDupTail(s);
      if s[0] == cb then Remove(s[1..], cb)
      else
        var r := Remove(s[1..], cb);
        assert NoDup(s) ==> NoDup([s[0]] + r) by {
          if NoDup(s) {
            forall i, j | 0 <= i < j < |[s[0]] + r|
              ensures ([s[0]] + r)[i] != ([s[0]] + r)[j]
            {
              if i == 0 {
                assert ([s[0]] + r)[j] == r[j - 1] && r[j - 1] in r;
              }
            }
          }
        }
        [s[0]] + r
  }

  /** The rest of a set without duplicates has none either, and not the first element. */
  lemma NoDupTail(s: seq<Callback>)
    requires s != []
    ensures NoDup(s) ==> NoDup(s[1..]) && s[0] !in s[1..]
  {
    if NoDup(s) {
      forall i, j | 0 <= i < j < |s[1..]|
        ensures s[1..][i] != s[1..][j]
      {
        assert s[1..][i] == s[i + 1] && s[1..][j] == s[j + 1];
      }
      forall k | 0 <= k < |s[1..]|
        ensures s[1..][k] != s[0]
      {
        assert s[1..][k] == s[k + 1];
      }
    }
  }

  /** Removing a callback nobody had subscribed is a no-op. */
  lemma {:induction false} RemoveAbsent(s: seq<Callback>, cb: Callback)
    requires cb !in s
    ensures Remove(s, cb) == s
  {
    if s != [] {
      RemoveAbsent(s[1..], cb);
      assert s == [s[0]] + s[1..];
    }
  }

  /** The unsubscribe function undoes a subscription of a new callback exactly. */
  lemma AddRemove(s: seq<Callback>, cb: Callback)
    requires cb !in s
    ensures Remove(Add(s, cb), cb) == s
  {
    RemoveLast(s, cb);
  }

  /** Removing the callback appended last, and held nowhere else, gives back the rest. */
  lemma {:induction false} RemoveLast(s: seq<Callback>, cb: Callback)
    requires cb !in s
    ensures Remove(s + [cb], cb) == s
  {
    var t := s + [cb];
    if s == [] {
      assert t[1..] == [];
    } else {
      assert t[0] == s[0] && t[1..] == s[1..] + [cb];
      RemoveLast(s[1..], cb);
      assert s == [s[0]] + s[1..];
    }
  }

  /** The deliveries of one notification round: each subscriber in turn gets the same value. */
  function StateDeliveries(subs: seq<Callback>, state: ConnectionState): (r: seq<Delivery>)
    ensures |r| == |subs|
    ensures forall i :: 0 <= i < |subs| ==> r[i] == StateTo(subs[i], state)
  {
    if subs == [] then [] else StateDeliveries(subs[..|subs| - 1], state) + [StateTo(subs[|subs| - 1], state)]
  }

  function EntityDeliveries(subs: seq<Callback>, entities: map<string, HAEntity>): (r: seq<Delivery>)
    ensures |r| == |subs|
    ensures forall i :: 0 <= i < |subs| ==> r[i] == EntitiesTo(subs[i], entities)
  {
    if subs == [] then [] else EntityDeliveries(subs[..|subs| - 1], entities) + [EntitiesTo(subs[|subs| - 1], entities)]
  }

  // ---------------------------------------------------------------- labels

  /** `labels.filter(l => l.startsWith("deck-assistant:"))`. */
  function DeckLabels(labels: seq<string>): (r: seq<string>)
    ensures |r| <= |labels|
    ensures forall l :: l in r <==> l in labels && StartsWith(l, LabelPrefix)
  {
    if labels == [] then []
    else
      var rest := DeckLabels(labels[..|labels| - 1]);
      var last := labels[|labels| - 1];
      assert labels == labels[..|labels| - 1] + [last];
      if StartsWith(last, LabelPrefix) then rest + [last] else rest
  }

  /** One more label: it is kept after the others exactly when it has the prefix. */
  lemma DeckLabelsSnoc(front: seq<string>, last: string)
    ensures DeckLabels(front + [last]) == DeckLabels(front) + (if StartsWith(last, LabelPrefix) then [last] else [])
  {
    assert (front + [last])[..|front|] == front;
  }

  /**
    The filter goes label by label: one label is kept exactly when it has the
    prefix, and a concatenation gives the two kept lists in order.
   */
  lemma {:induction false} DeckLabelsSpec(a: seq<string>, b: seq<string>)
    ensures DeckLabels(a + b) == DeckLabels(a) + DeckLabels(b)
    ensures |a| == 1 ==> DeckLabels(a) == (if StartsWith(a[0], LabelPrefix) then a else [])
    decreases |b|
  {
    if b == [] {
      assert a + b == a;
    } else {
      var front, last := b[..|b| - 1], b[|b| - 1];
      assert b == front + [last];
      assert a + b == (a + front) + [last];
      DeckLabelsSpec(a, front);
      DeckLabelsSnoc(a + front, last);
      DeckLabelsSnoc(front, last);
      AppendAssoc(DeckLabels(a), DeckLabels(front), if StartsWith(last, LabelPrefix) then [last] else []);
    }
    if |a| == 1 {
      assert a == [] + [a[0]];
      DeckLabelsSnoc([], a[0]);
    }
  }

  /** `label.split(":").slice(1)`. */
  function LabelPath(text: string): seq<string> {
    Split(text, ':')[1..]
  }

  /** The entry an entity contributes, or none when it has no prefixed label. */
  function LabelledEntry(entry: RegistryEntry): Option<LabelledEntity> {
    var da := DeckLabels(entry.labels);
    if da == [] then None
    else Some(LabelledEntity(entry.entityId, da, seq(|da|, i requires 0 <= i < |da| => LabelPath(da[i]))))
  }

  /** The result of `getEntitiesWithDeckAssistantLabels` for a registry, entry by entry. */
  function LabelledEntries(registry: seq<RegistryEntry>): seq<LabelledEntity> {
    if registry == [] then []
    else
      var e := LabelledEntry(registry[|registry| - 1]);
      LabelledEntries(registry[..|registry| - 1]) + (if e.Some? then [e.value] else [])
  }

  /** Dropping the first `:`-piece of a prefixed label gives the hierarchy the layout editor parses. */
  lemma LabelPathAgrees(text: string)
    requires StartsWith(text, LabelPrefix)
    ensures LabelPath(text) == ParseLabelHierarchy(text)
  {
    var n := |LabelPrefix| - 1;
    assert text[..|LabelPrefix|] == LabelPrefix;
    assert text[n] == ':';
    assert ':' !in text[..n] by {
      assert text[..n] == LabelPrefix[..n];
      assert forall k :: 0 <= k < n ==> LabelPrefix[k] != ':';
    }
    assert IndexOf(text, ':') == n;
    assert text[n + 1..] == text[|LabelPrefix|..];
  }

  /**
    An entity contributes an entry exactly when it has a prefixed label; the
    entry carries those labels, in order, and each one's hierarchy as
    `parseLabelHierarchy` reads it.
   */
  lemma LabelledEntryShape(entry: RegistryEntry)
    ensures LabelledEntry(entry).Some? <==> exists l :: l in entry.labels && StartsWith(l, LabelPrefix)
    ensures LabelledEntry(entry).Some? ==>
      var x := LabelledEntry(entry).value;
      && x.entityId == entry.entityId && x.labels == DeckLabels(entry.labels)
      && |x.hierarchy| == |x.labels|
      && forall j :: 0 <= j < |x.labels| ==> x.hierarchy[j] == ParseLabelHierarchy(x.labels[j])
  {
    var da := DeckLabels(entry.labels);
    if da != [] {
      assert da[0] in da;
      forall j | 0 <= j < |da|
        ensures LabelPath(da[j]) == ParseLabelHierarchy(da[j])
      {
        assert da[j] in da;
        LabelPathAgrees(da[j]);
      }
    } else {
      assert forall l :: l in entry.labels && StartsWith(l, LabelPrefix) ==> l in da;
    }
  }

  /**
    The registry is read entry by entry: one entry contributes its own
    labelled entry or nothing, and a concatenation gives the two results in order.
   */
  lemma {:induction false} LabelledEntriesSpec(a: seq<RegistryEntry>, b: seq<RegistryEntry>)
    ensures LabelledEntries(a + b) == LabelledEntries(a) + LabelledEntries(b)
    ensures |a| == 1 ==> LabelledEntries(a) == (if LabelledEntry(a[0]).Some? then [LabelledEntry(a[0]).value] else [])
    decreases |b|
  {
    if b == [] {
      assert a + b == a;
    } else {
      var front, last := b[..|b| - 1], b[|b| - 1];
      var e := LabelledEntry(last);
      var tail := if e.Some? then [e.value] else [];
      calc {
        LabelledEntries(a + b);
        { assert a + b == (a + front) + [last]; LabelledEntriesSnoc(a + front, last); }
        LabelledEntries(a + front) + tail;
        { LabelledEntriesSpec(a, front); }
        (LabelledEntries(a) + LabelledEntries(front)) + tail;
        { AppendAssoc(LabelledEntries(a), LabelledEntries(front), tail); }
        LabelledEntries(a) + (LabelledEntries(front) + tail);
        { assert b == front + [last]; LabelledEntriesSnoc(front, last); }
        LabelledEntries(a) + LabelledEntries(b);
      }
    }
    if |a| == 1 {
      assert a == [] + [a[0]];
      LabelledEntriesSnoc([], a[0]);
    }
  }

  /** One more registry entry: its own labelled entry, if any, comes after the others. */
  lemma LabelledEntriesSnoc(front: seq<RegistryEntry>, last: RegistryEntry)
    ensures LabelledEntries(front + [last]) ==
      LabelledEntries(front) + (if LabelledEntry(last).Some? then [LabelledEntry(last).value] else [])
  {
    assert (front + [last])[..|front|] == front;
  }

  /** Every entry of the result comes from some registry entry. */
  lemma {:induction false} LabelledEntriesSound(registry: seq<RegistryEntry>)
    ensures |LabelledEntries(registry)| <= |registry|
    ensures forall i :: 0 <= i < |LabelledEntries(registry)| ==>
      exists k :: 0 <= k < |registry| && LabelledEntry(registry[k]) == Some(LabelledEntries(registry)[i])
  {
    if registry != [] {
      var front := registry[..|registry| - 1];
      LabelledEntriesSound(front);
      var res := LabelledEntries(registry);
      var prev := LabelledEntries(front);
      forall i | 0 <= i < |res|
        ensures exists k :: 0 <= k < |registry| && LabelledEntry(registry[k]) == Some(res[i])
      {
        if i < |prev| {
          var k :| 0 <= k < |front| && LabelledEntry(front[k]) == Some(prev[i]);
          assert registry[k] == front[k];
        } else {
          assert LabelledEntry(registry[|registry| - 1]) == Some(res[i]);
        }
      }
    }
  }

  /** Every registry entry with a prefixed label appears in the result. */
  lemma {:induction false} LabelledEntriesComplete(registry: seq<RegistryEntry>)
    ensures forall k :: 0 <= k < |registry| && LabelledEntry(registry[k]).Some? ==>
      LabelledEntry(registry[k]).value in LabelledEntries(registry)
  {
    if registry != [] {
      var front := registry[..|registry| - 1];
      LabelledEntriesComplete(front);
      forall k | 0 <= k < |registry| && LabelledEntry(registry[k]).Some?
        ensures LabelledEntry(registry[k]).value in LabelledEntries(registry)
      {
        if k < |front| {
          assert registry[k] == front[k];
        }
      }
    }
  }

  // ---------------------------------------------------------------- the URL

  /** `url.replace(/\/$/, "")`: one trailing slash goes, and only one. */
  function NormalizeUrl(url: string): (r: string)
    ensures url != [] && url[|url| - 1] == '/' ==> url == r + "/"
    ensures (url == [] || url[|url| - 1] != '/') ==> r == url
  {
    if url != [] && url[|url| - 1] == '/' then url[..|url| - 1] else url
  }

  /** Two trailing slashes leave one behind. */
  lemma NormalizeOnce(base: string)
    ensures NormalizeUrl(base + "//") == base + "/"
    ensures NormalizeUrl(NormalizeUrl(base + "//")) == base
  {
    assert (base + "//")[..|base| + 1] == base + "/";
  }

  // ---------------------------------------------------------------- the connection object

  class HomeAssistantConnection {
    /** The open websocket, by an opaque handle. */
    var connection: Option<nat>
    var entities: map<string, HAEntity>
    var areas: seq<HAArea>
    var devices: seq<HADevice>
    var entityRegistry: seq<RegistryEntry>
    var labels: seq<HALabel>
    var entitySubscribers: seq<Callback>
    var connectionSubscribers: seq<Callback>
    /** Whether `entitiesUnsubscribe` holds a live subscription. */
    var entitiesSubscribed: bool
    var connectionState: ConnectionState
    /** Every subscriber call made so far, in order. */
    var deliveries: seq<Delivery>
    /** Every command sent so far, in order. */
    var commands: seq<Command>

    ghost predicate Valid()
      reads this`entitySubscribers, this`connectionSubscribers
    {
      NoDup(entitySubscribers) && NoDup(connectionSubscribers)
    }

    /** A fresh object: nothing cached, nobody subscribed, not connected. */
    constructor()
      ensures Valid()
      ensures connection == None && entities == map[] && areas == [] && devices == []
      ensures entityRegistry == [] && labels == [] && entitySubscribers == [] && connectionSubscribers == []
      ensures !entitiesSubscribed && connectionState == ConnectionState(false, None)
      ensures deliveries == [] && commands == []
    {
      connection := None;
      entities := map[];
      areas := [];
      devices := [];
      entityRegistry := [];
      labels := [];
      entitySubscribers := [];
      connectionSubscribers := [];
      entitiesSubscribed := false;
      connectionState := ConnectionState(false, None);
      deliveries := [];
      commands := [];
    }

    /** `isConnected`: the flag of the last state stored. */
    function IsConnected(): (r: bool)
      reads this`connectionState
      ensures r <==> connectionState.connected
    {
      connectionState.connected
    }

    /** `getEntity`: the cached entity, if any. */
    function GetEntity(entityId: string): (r: Option<HAEntity>)
      reads this`entities
      ensures r.Some? <==> entityId in entities
      ensures r.Some? ==> r.value == entities[entityId]
    {
      if entityId in entities then Some(entities[entityId]) else None
    }

    /**
      `updateConnectionState`: store the state, then call every connection
      subscriber with it, in subscription order. A subscriber that throws is
      caught, so the round always reaches the rest.
     */
    method UpdateConnectionState(state: ConnectionState)
      modifies this`connectionState, this`deliveries
      ensures connectionState == state && IsConnected() == state.connected
      ensures deliveries == old(deliveries) + StateDeliveries(connectionSubscribers, state)
    {
      connectionState := state;
      var i := 0;
      while i < |connectionSubscribers|
        invariant 0 <= i <= |connectionSubscribers|
        invariant connectionState == state
        invariant deliveries == old(deliveries) + StateDeliveries(connectionSubscribers[..i], state)
      {
        assert connectionSubscribers[..i + 1][..i] == connectionSubscribers[..i];
        deliveries := deliveries + [StateTo(connectionSubscribers[i], state)];
        i := i + 1;
      }
      assert connectionSubscribers[..i] == connectionSubscribers;
    }

    /** `handleEntitiesUpdate`: replace the cache, then give every entity subscriber a copy of it. */
    method HandleEntitiesUpdate(update: map<string, HAEntity>)
      modifies this`entities, this`deliveries
      ensures entities == update
      ensures deliveries == old(deliveries) + EntityDeliveries(entitySubscribers, update)
    {
      entities := update;
      var i := 0;
      while i < |entitySubscribers|
        invariant 0 <= i <= |entitySubscribers|
        invariant entities == update
        invariant deliveries == old(deliveries) + EntityDeliveries(entitySubscribers[..i], update)
      {
        assert entitySubscribers[..i + 1][..i] == entitySubscribers[..i];
        deliveries := deliveries + [EntitiesTo(entitySubscribers[i], entities)];
        i := i + 1;
      }
      assert entitySubscribers[..i] == entitySubscribers;
    }

    /** `subscribeToEntities`: add the callback, and call it at once only if some entity is cached. */
    method SubscribeToEntities(callback: Callback)
      requires Valid()
      modifies this`entitySubscribers, this`deliveries
      ensures Valid()
      ensures entitySubscribers == Add(old(entitySubscribers), callback)
      ensures deliveries == old(deliveries) + (if |entities| > 0 then [EntitiesTo(callback, entities)] else [])
    {
      entitySubscribers := Add(entitySubscribers, callback);
      if |entities| > 0 {
        deliveries := deliveries + [EntitiesTo(callback, entities)];
      }
    }

    /** The function `subscribeToEntities` returns: it deletes that callback and no other. */
    method UnsubscribeFromEntities(callback: Callback)
      requires Valid()
      modifies this`entitySubscribers
      ensures Valid()
      ensures entitySubscribers == Remove(old(entitySubscribers), callback)
    {
      entitySubscribers := Remove(entitySubscribers, callback);
    }

    /** `subscribeToConnection`: add the callback and always call it at once with the current state. */
    method SubscribeToConnection(callback: Callback)
      requires Valid()
      modifies this`connectionSubscribers, this`deliveries
      ensures Valid()
      ensures connectionSubscribers == Add(old(connectionSubscribers), callback)
      ensures deliveries == old(deliveries) + [StateTo(callback, connectionState)]
    {
      connectionSubscribers := Add(connectionSubscribers, callback);
      deliveries := deliveries + [StateTo(callback, connectionState)];
    }

    /** The function `subscribeToConnection` returns. */
    method UnsubscribeFromConnection(callback: Callback)
      requires Valid()
      modifies this`connectionSubscribers
      ensures Valid()
      ensures connectionSubscribers == Remove(old(connectionSubscribers), callback)
    {
      connectionSubscribers := Remove(connectionSubscribers, callback);
    }

    /**
      `disconnect`: end the entity subscription and close the socket if there
      are any, empty every cache and registry, and announce the disconnected
      state. The subscribers stay.
     */
    method Disconnect()
      modifies this`commands, this`entitiesSubscribed, this`connection, this`entities, this`areas, this`devices,
               this`entityRegistry, this`labels, this`connectionState, this`deliveries
      ensures connection == None && !entitiesSubscribed
      ensures entities == map[] && areas == [] && devices == [] && entityRegistry == [] && labels == []
      ensures connectionState == ConnectionState(false, None) && !IsConnected()
      ensures commands == old(commands) + (if old(entitiesSubscribed) then [UnsubscribeEntities] else [])
                                        + (if old(connection).Some? then [Close] else [])
      ensures deliveries == old(deliveries) + StateDeliveries(connectionSubscribers, ConnectionState(false, None))
    {
      if entitiesSubscribed {
        commands := commands + [UnsubscribeEntities];
        entitiesSubscribed := false;
      }
      if connection.Some? {
        commands := commands + [Close];
        connection := None;
      }
      entities := map[];
      areas := [];
      devices := [];
      entityRegistry := [];
      labels := [];
      UpdateConnectionState(ConnectionState(false, None));
    }

    /**
      `connect`: open the socket at the URL without its trailing slash. On
      failure the state records the error and the error is passed on; on
      success the entity subscription starts, the four registries are
      stored (empty where a fetch failed) and the connected state announced.
     */
    method Connect(config: HAConfig, outcome: ConnectOutcome) returns (r: Result<(), string>)
      modifies this`commands, this`connection, this`entitiesSubscribed, this`areas, this`devices,
               this`entityRegistry, this`labels, this`connectionState, this`deliveries
      ensures commands == old(commands) + [Open(NormalizeUrl(config.url), config.token)]
      ensures outcome.ConnectFailed? ==>
        && r == Err(outcome.message)
        && connectionState == ConnectionState(false, Some(outcome.message))
        && connection == old(connection) && entitiesSubscribed == old(entitiesSubscribed)
        && areas == old(areas) && devices == old(devices) && entityRegistry == old(entityRegistry)
        && labels == old(labels)
      ensures outcome.Connected? ==>
        && r == Ok(())
        && connectionState == ConnectionState(true, None)
        && connection == Some(outcome.handle) && entitiesSubscribed
        && areas == outcome.areas.GetOr([]) && devices == outcome.devices.GetOr([])
        && entityRegistry == outcome.registry.GetOr([]) && labels == outcome.labels.GetOr([])
      ensures deliveries == old(deliveries) + StateDeliveries(connectionSubscribers, connectionState)
    {
      var url := NormalizeUrl(config.url);
      commands := commands + [Open(url, config.token)];
      match outcome {
        case ConnectFailed(message) =>
          UpdateConnectionState(ConnectionState(false, Some(message)));
          return Err(message);
        case Connected(handle, fetchedAreas, fetchedDevices, fetchedRegistry, fetchedLabels) =>
          connection := Some(handle);
          entitiesSubscribed := true;
          areas := fetchedAreas.GetOr([]);
          devices := fetchedDevices.GetOr([]);
          entityRegistry := fetchedRegistry.GetOr([]);
          labels := fetchedLabels.GetOr([]);
          UpdateConnectionState(ConnectionState(true, None));
          return Ok(());
      }
    }

    /**
      `callService`: refused without a connection, and then nothing is sent;
      otherwise the call goes out and Home Assistant's error, if any, is
      passed on.
     */
    method CallService(domain: string, service: string, data: Option<map<string, string>>, target: Option<string>,
                       failure: Option<string>) returns (r: Result<(), string>)
      modifies this`commands
      ensures connection.None? ==> r == Err(NotConnectedError) && commands == old(commands)
      ensures connection.Some? ==>
        commands == old(commands) + [CallServiceCommand(domain, service, data, target)]
        && r == (if failure.Some? then Err(failure.value) else Ok(()))
    {
      if connection.None? {
        return Err(NotConnectedError);
      }
      commands := commands + [CallServiceCommand(domain, service, data, target)];
      r := if failure.Some? then Err(failure.value) else Ok(());
    }

    /**
      `createLabel`: refused without a connection. Only the name is sent (the
      label id argument is not used). After a created label the label
      registry is fetched again (empty if that fetch fails); after an error
      nothing is refreshed and the error is passed on.
     */
    method CreateLabel(labelId: string, name: string, reply: Result<HALabel, string>, refreshed: Option<seq<HALabel>>)
      returns (r: Result<HALabel, string>)
      modifies this`commands, this`labels
      ensures connection.None? ==> r == Err(NotConnectedError) && commands == old(commands) && labels == old(labels)
      ensures connection.Some? ==> commands == old(commands) + [CreateLabelCommand(name)]
      ensures connection.Some? && reply.Err? ==> r == reply && labels == old(labels)
      ensures connection.Some? && reply.Ok? ==> r == reply && labels == refreshed.GetOr([])
    {
      if connection.None? {
        return Err(NotConnectedError);
      }
      commands := commands + [CreateLabelCommand(name)];
      if reply.Err? {
        return reply;
      }
      labels := refreshed.GetOr([]);
      r := reply;
    }

    /**
      `assignLabelsToEntity`: refused without a connection; otherwise the
      update is sent and, if it succeeds, the entity registry is fetched
      again (empty if that fetch fails).
     */
    method AssignLabelsToEntity(entityId: string, labelIds: seq<string>, failure: Option<string>,
                                refreshed: Option<seq<RegistryEntry>>) returns (r: Result<(), string>)
      modifies this`commands, this`entityRegistry
      ensures connection.None? ==>
        r == Err(NotConnectedError) && commands == old(commands) && entityRegistry == old(entityRegistry)
      ensures connection.Some? ==> commands == old(commands) + [UpdateEntityLabels(entityId, labelIds)]
      ensures connection.Some? && failure.Some? ==> r == Err(failure.value) && entityRegistry == old(entityRegistry)
      ensures connection.Some? && failure.None? ==> r == Ok(()) && entityRegistry == refreshed.GetOr([])
    {
      if connection.None? {
        return Err(NotConnectedError);
      }
      commands := commands + [UpdateEntityLabels(entityId, labelIds)];
      if failure.Some? {
        return Err(failure.value);
      }
      entityRegistry := refreshed.GetOr([]);
      r := Ok(());
    }

    /** `getEntitiesWithDeckAssistantLabels`: one pass over the registry, pushing each labelled entity. */
    method GetEntitiesWithDeckAssistantLabels() returns (results: seq<LabelledEntity>)
      ensures results == LabelledEntries(entityRegistry)
    {
      results := [];
      var i := 0;
      while i < |entityRegistry|
        invariant 0 <= i <= |entityRegistry|
        invariant results == LabelledEntries(entityRegistry[..i])
      {
        var entry := entityRegistry[i];
        assert entityRegistry[..i + 1][..i] == entityRegistry[..i];
        if |entry.labels| != 0 {
          var daLabels := DeckLabels(entry.labels);
          if |daLabels| != 0 {
            var hierarchy := seq(|daLabels|, k requires 0 <= k < |daLabels| => LabelPath(daLabels[k]));
            results := results + [LabelledEntity(entry.entityId, daLabels, hierarchy)];
          }
        }
        i := i + 1;
      }
      assert entityRegistry[..i] == entityRegistry;
    }
  }
}
