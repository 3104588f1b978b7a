/**
  The data of the layout editor's setup wizard and the pure rules it
  applies when it finishes: the step list, the groups it builds (either
  the user's groups or one group per area), the `deck-assistant:` label
  assignments written for them, and the `streamdeck:` labels of
  `syncLabels`.
 */
module LayoutWizard {
  import opened Wrappers
  import opened Strings
  import opened PageModel
  import opened LayoutLabels
  import opened LayoutPages
  import opened LayoutSelection

  /** The step ids, in the order of `wizardSteps`. */
  const WizardSteps: seq<string> := [
    "welcome", "approach", "group-type", "group-filter", "group-entities",
    "group-name", "group-complete", "simple-entities", "layout", "confirm"
  ]

  /** `getWizardStepIndex`: the index of the step with that id, or -1. */
  function StepIndex(stepId: string): (r: int)
    ensures -1 <= r < |WizardSteps|
    ensures r >= 0 ==> WizardSteps[r] == stepId
    ensures r < 0 ==> stepId !in WizardSteps
  {
    if stepId == "welcome" then 0
    else if stepId == "approach" then 1
    else if stepId == "group-type" then 2
    else if stepId == "group-filter" then 3
    else if stepId == "group-entities" then 4
    else if stepId == "group-name" then 5
    else if stepId == "group-complete" then 6
    else if stepId == "simple-entities" then 7
    else if stepId == "layout" then 8
    else if stepId == "confirm" then 9
    else -1
  }

  /**
    The step `wizardBack` moves to from `stepId` through `goToWizardStep`;
    the empty id for `welcome` and `approach`, where it does something else.
   */
  function BackTarget(stepId: string, sel: WizardSelections): string {
    if stepId == "group-type" then "approach"
    else if stepId == "group-filter" then "group-type"
    else if stepId == "group-entities" then (if sel.groupType == "custom" then "group-type" else "group-filter")
    else if stepId == "group-name" then "group-entities"
    else if stepId == "group-complete" then "group-name"
    else if stepId == "simple-entities" then "approach"
    else if stepId == "layout" then (if sel.approach == "simple" then "simple-entities" else "group-complete")
    else if stepId == "confirm" then "layout"
    else ""
  }

  /** The step index `wizardBack` leaves from step `step` > 0. */
  function BackIndex(step: nat, sel: WizardSelections): int
    requires 0 < step < |WizardSteps|
  {
    if step == 1 then 0 else StepIndex(BackTarget(WizardSteps[step], sel))
  }

  /**
    The step `wizardNext` moves to from `stepId` once its check passes; none
    for `group-complete` (left through `handleGroupCompleteChoice`) and
    `confirm` (which finishes the wizard).
   */
  function NextTarget(stepId: string, sel: WizardSelections): Option<string> {
    if stepId == "welcome" then Some("approach")
    else if stepId == "approach" then Some(if sel.approach == "groups" then "group-type" else "simple-entities")
    else if stepId == "group-type" then Some(if sel.groupType == "custom" then "group-entities" else "group-filter")
    else if stepId == "group-filter" then Some("group-entities")
    else if stepId == "group-entities" then Some("group-name")
    else if stepId == "group-name" then Some("group-complete")
    else if stepId == "simple-entities" then Some("layout")
    else if stepId == "layout" then Some("confirm")
    else None
  }

  /** The check `wizardNext` makes before leaving `stepId`: the alert shown, if any. */
  function StepAlert(stepId: string, sel: WizardSelections): Option<string> {
    if stepId == "group-filter" && sel.groupFilter == "" then Some("Please select an option")
    else if stepId == "group-entities" && |sel.currentGroupEntities| == 0 then Some("Please select at least one entity")
    else if stepId == "group-name" && Trim(sel.currentGroupName) == "" then Some("Please enter a group name")
    else if stepId == "simple-entities" && |sel.simpleEntities| == 0 then Some("Please select at least one entity")
    else None
  }

  /**
    The selections once `wizardNext` has left `stepId`: a custom group type
    clears the filter and the name; a named group is stored and the group
    being built is cleared.
   */
  function NextSelections(stepId: string, sel: WizardSelections): WizardSelections {
    if stepId == "group-type" && sel.groupType == "custom" then sel.(groupFilter := "", currentGroupName := "")
    else if stepId == "group-name" then
      sel.(groups := sel.groups + [WizardGroup(Trim(sel.currentGroupName), sel.currentGroupEntities)],
           currentGroupEntities := [], currentGroupName := "", groupFilter := "")
    else sel
  }

  /** Going back always lands on an earlier step, and never leaves the step list. */
  lemma BackMovesEarlier(step: nat, sel: WizardSelections)
    requires 0 < step < |WizardSteps|
    ensures 0 <= BackIndex(step, sel) < step
  {
  }

  /**
    Going forward and then back returns to the starting step, on the path
    the options allow: from `group-filter` only for a non-custom group type,
    from `simple-entities` only in the quick-setup approach.
   */
  lemma BackUndoesNext(step: nat, sel: WizardSelections)
    requires step < |WizardSteps|
    requires NextTarget(WizardSteps[step], sel).Some?
    requires WizardSteps[step] == "group-filter" ==> sel.groupType != "custom"
    requires WizardSteps[step] == "simple-entities" ==> sel.approach == "simple"
    ensures var t := StepIndex(NextTarget(WizardSteps[step], sel).value);
      0 < t < |WizardSteps| && BackIndex(t, sel) == step
  {
  }

  /** The step ids are distinct, so every step is found at its own index. */
  lemma StepIndexOfStep(i: nat)
    requires i < |WizardSteps|
    ensures StepIndex(WizardSteps[i]) == i
  {
  }

  datatype WizardGroup = WizardGroup(name: string, entities: seq<string>)

  /**
    `wizardSelections`. The empty `groupFilter` stands for `null`: every use
    of the filter tests it for truthiness, so the two agree.
   */
  datatype WizardSelections = WizardSelections(
    approach: string,
    groupType: string,
    groupFilter: string,
    currentGroupEntities: seq<string>,
    currentGroupName: string,
    groups: seq<WizardGroup>,
    simpleEntities: seq<string>,
    layoutStyle: string)

  /** The selections `startWizard` resets to. */
  const InitialSelections: WizardSelections :=
    WizardSelections("groups", "area", "", [], "", [], [], "groups-as-folders")

  // ---------------------------------------------------------------- areas

  datatype Area = Area(areaId: string, name: string)

  /** `areas.find(a => a.area_id === id)`. */
  function FindArea(areas: seq<Area>, id: string): (r: Option<Area>)
    ensures r.Some? ==> r.value in areas && r.value.areaId == id
    ensures r.None? ==> forall a :: a in areas ==> a.areaId != id
  {
    if areas == [] then None
    else if areas[0].areaId == id then Some(areas[0])
    else FindArea(areas[1..], id)
  }

  /** `getAreaName`: the area's name, or "" (for `null`) for an empty or unknown id. */
  function AreaName(areas: seq<Area>, id: string): string {
    if id == "" then "" else match FindArea(areas, id) case Some(a) => a.name case None => ""
  }

  /** The group name `autoGroup` gives an area bucket: the area's name, else `Other`. */
  function AutoGroupName(areas: seq<Area>, key: string): (name: string)
    ensures name != ""
  {
    match FindArea(areas, key)
    case Some(a) => if a.name != "" then a.name else "Other"
    case None => "Other"
  }

  /** The group name the quick-setup flow gives an area bucket. */
  function WizardAreaName(areas: seq<Area>, key: string): (name: string)
    ensures name != ""
  {
    if key == "__unassigned__" then "Other"
    else if AreaName(areas, key) != "" then AreaName(areas, key)
    else "Unknown"
  }

  /** The suggested group name when a filter option is picked. */
  function SuggestedGroupName(areas: seq<Area>, groupType: string, optionId: string, current: string): string {
    if groupType == "area" then
      (match FindArea(areas, optionId) case Some(a) => a.name case None => "Unassigned")
    else if groupType == "domain" then FormatDomainName(optionId)
    else current
  }

  // ---------------------------------------------------------------- bucketing selected entities

  /** The `(area key, id)` pairs of the known entities among `ids`; an entity without an area gets `fallback`. */
  function AreaPairs(all: seq<Entity>, ids: seq<string>, fallback: string): seq<(string, string)>
    decreases |ids|
  {
    if ids == [] then []
    else
      var init := AreaPairs(all, ids[..|ids| - 1], fallback);
      match FindEntity(all, ids[|ids| - 1])
      case Some(e) => init + [(if e.areaId != "" then e.areaId else fallback, ids[|ids| - 1])]
      case None => init
  }

  /** One group per bucket, with consecutive fresh ids. */
  function GroupsFromBuckets(buckets: seq<Bucket>, names: seq<string>, kind: GroupKind, firstId: nat): (groups: seq<Group>)
    requires |names| == |buckets|
    ensures |groups| == |buckets|
    ensures forall j :: 0 <= j < |groups| ==>
      groups[j] == Group(firstId + j, names[j], kind, buckets[j].ids)
  {
    seq(|buckets|, j requires 0 <= j < |buckets| => Group(firstId + j, names[j], kind, buckets[j].ids))
  }

  function AutoGroupNames(areas: seq<Area>, buckets: seq<Bucket>): (names: seq<string>)
    ensures |names| == |buckets|
    ensures forall j :: 0 <= j < |buckets| ==> names[j] == AutoGroupName(areas, buckets[j].key)
  {
    seq(|buckets|, j requires 0 <= j < |buckets| => AutoGroupName(areas, buckets[j].key))
  }

  /** The folder groups `autoGroup` builds: one per area of the selected entities, `other` for those without one. */
  function AreaGroups(all: seq<Entity>, areas: seq<Area>, selected: seq<string>, firstId: nat): seq<Group> {
    var buckets := BucketsOf(AreaPairs(all, selected, "other"));
    GroupsFromBuckets(buckets, AutoGroupNames(areas, buckets), FolderGroup, firstId)
  }

  function WizardAreaNames(areas: seq<Area>, buckets: seq<Bucket>): (names: seq<string>)
    ensures |names| == |buckets|
    ensures forall j :: 0 <= j < |buckets| ==> names[j] == WizardAreaName(areas, buckets[j].key)
  {
    seq(|buckets|, j requires 0 <= j < |buckets| => WizardAreaName(areas, buckets[j].key))
  }

  /** `layoutStyle === 'groups-as-pages' ? 'page' : 'folder'`. */
  function KindFor(layoutStyle: string): GroupKind {
    if layoutStyle == "groups-as-pages" then PageGroup else FolderGroup
  }

  /** The groups `finishWizard` hands to the layout. */
  function FinalGroups(all: seq<Entity>, areas: seq<Area>, sel: WizardSelections, firstId: nat): seq<Group> {
    var kind := KindFor(sel.layoutStyle);
    if sel.approach == "groups" then
      seq(|sel.groups|, i requires 0 <= i < |sel.groups| =>
        Group(firstId + i, sel.groups[i].name, kind, sel.groups[i].entities))
    else
      var buckets := BucketsOf(AreaPairs(all, sel.simpleEntities, "__unassigned__"));
      GroupsFromBuckets(buckets, WizardAreaNames(areas, buckets), kind, firstId)
  }

  /**
    The final groups are numbered from `firstId` in order and all take the
    kind of the chosen layout style; in the groups flow they are the user's
    groups, one for one.
   */
  lemma FinalGroupsNumbered(all: seq<Entity>, areas: seq<Area>, sel: WizardSelections, firstId: nat)
    ensures var groups := FinalGroups(all, areas, sel, firstId);
      && (sel.approach == "groups" ==>
            |groups| == |sel.groups| &&
            forall i :: 0 <= i < |groups| ==>
              groups[i] == Group(firstId + i, sel.groups[i].name, KindFor(sel.layoutStyle), sel.groups[i].entities))
      && forall i :: 0 <= i < |groups| ==> groups[i].id == firstId + i && groups[i].kind == KindFor(sel.layoutStyle)
  {
  }

  /** `groups.flatMap(g => g.entities)`. */
  function Flatten(groups: seq<Group>): seq<string>
    decreases |groups|
  {
    if groups == [] then [] else groups[0].entities + Flatten(groups[1..])
  }

  /**
    In the quick-setup flow every known selected entity ends up in exactly
    the group of its area: each group lists precisely the selected ids of
    its area, in selection order, and no two groups share an area.
   */
  lemma QuickSetupGroups(all: seq<Entity>, areas: seq<Area>, sel: WizardSelections, firstId: nat)
    requires sel.approach != "groups"
    ensures var pairs := AreaPairs(all, sel.simpleEntities, "__unassigned__");
      var buckets := BucketsOf(pairs);
      var groups := FinalGroups(all, areas, sel, firstId);
      && |groups| == |buckets|
      && DistinctKeys(buckets)
      && (forall j :: 0 <= j < |groups| ==>
            groups[j].entities == IdsWithKey(pairs, buckets[j].key)
            && groups[j].name == WizardAreaName(areas, buckets[j].key))
      && (forall p :: p in pairs ==> exists j :: 0 <= j < |buckets| && buckets[j].key == p.0)
  {
    BucketsOfSpec(AreaPairs(all, sel.simpleEntities, "__unassigned__"));
  }

  // ---------------------------------------------------------------- saveGroupLabels

  datatype LabelAssignment = LabelAssignment(entityId: string, labelText: string)

  /** One assignment of `text` per id, in order. */
  function Tagged(ids: seq<string>, text: string): (run: seq<LabelAssignment>)
    ensures |run| == |ids|
  {
    seq(|ids|, i requires 0 <= i < |ids| => LabelAssignment(ids[i], text))
  }

  /** Every entity of the group gets the label of the group's slug. */
  function GroupAssignments(g: Group): seq<LabelAssignment> {
    Tagged(g.entities, BuildLabelString([Slugify(g.name)]))
  }

  /** The label assignments `saveGroupLabels` queues: one per entity of every group, group by group. */
  function LabelAssignments(groups: seq<Group>): seq<LabelAssignment>
    decreases |groups|
  {
    if groups == [] then [] else GroupAssignments(groups[0]) + LabelAssignments(groups[1..])
  }

  /** One step of `saveGroupLabels`' outer loop: appending group `i`'s assignments keeps the queue a prefix of the whole. */
  lemma LabelAssignmentsStep(groups: seq<Group>, i: nat, acc: seq<LabelAssignment>)
    requires i < |groups|
    requires acc + LabelAssignments(groups[i..]) == LabelAssignments(groups)
    ensures (acc + GroupAssignments(groups[i])) + LabelAssignments(groups[i + 1..]) == LabelAssignments(groups)
  {
    var tail := groups[i..];
    assert tail[0] == groups[i] && tail[1..] == groups[i + 1..];
    var rest := LabelAssignments(groups[i + 1..]);
    assert LabelAssignments(tail) == GroupAssignments(groups[i]) + rest;
    AppendAssoc(acc, GroupAssignments(groups[i]), rest);
  }

  function AssignedIds(assignments: seq<LabelAssignment>): (ids: seq<string>)
    ensures |ids| == |assignments|
  {
    seq(|assignments|, i requires 0 <= i < |assignments| => assignments[i].entityId)
  }

  lemma AssignedIdsAppend(a: seq<LabelAssignment>, b: seq<LabelAssignment>)
    ensures AssignedIds(a + b) == AssignedIds(a) + AssignedIds(b)
  {
  }

  lemma AssignedIdsOfGroup(g: Group)
    ensures AssignedIds(GroupAssignments(g)) == g.entities
  {
  }

  /**
    The assignments cover the groups' entities in order, and every label
    parses back to the slug of the name of a group holding that entity.
   */
  lemma {:induction false} LabelAssignmentsSpec(groups: seq<Group>)
    ensures AssignedIds(LabelAssignments(groups)) == Flatten(groups)
    ensures forall a :: a in LabelAssignments(groups) ==>
      exists g :: g in groups && a.entityId in g.entities && ParseLabelHierarchy(a.labelText) == [Slugify(g.name)]
    decreases |groups|
  {
    if groups != [] {
      var g := groups[0];
      LabelAssignmentsSpec(groups[1..]);
      AssignedIdsOfGroup(g);
      AssignedIdsAppend(GroupAssignments(g), LabelAssignments(groups[1..]));
      GroupLabelParses(g.name);
      forall a | a in LabelAssignments(groups)
        ensures exists h :: h in groups && a.entityId in h.entities && ParseLabelHierarchy(a.labelText) == [Slugify(h.name)]
      {
        if a in GroupAssignments(g) {
          var i :| 0 <= i < |g.entities| && GroupAssignments(g)[i] == a;
          assert g in groups && a.entityId == g.entities[i];
        } else {
          var h :| h in groups[1..] && a.entityId in h.entities && ParseLabelHierarchy(a.labelText) == [Slugify(h.name)];
          assert h in groups;
        }
      }
    }
  }

  /** The label of every assignment, in order. */
  function AssignedLabels(assignments: seq<LabelAssignment>): (labels: seq<string>)
    ensures |labels| == |assignments|
  {
    seq(|assignments|, i requires 0 <= i < |assignments| => assignments[i].labelText)
  }

  /** `[...new Set(labels)]`: the labels `saveGroupLabels` asks to create, each once, in first-seen order. */
  function UniqueLabels(groups: seq<Group>): seq<string> {
    AddMissing([], AssignedLabels(LabelAssignments(groups)))
  }

  lemma AssignedLabelsMembers(assignments: seq<LabelAssignment>)
    ensures forall l :: l in AssignedLabels(assignments) <==> exists a :: a in assignments && a.labelText == l
  {
    var labels := AssignedLabels(assignments);
    forall l
      ensures l in labels <==> exists a :: a in assignments && a.labelText == l
    {
      if l in labels {
        var i :| 0 <= i < |labels| && labels[i] == l;
        assert assignments[i] in assignments;
      }
      if a :| a in assignments && a.labelText == l {
        var i :| 0 <= i < |assignments| && assignments[i] == a;
        assert labels[i] == l;
      }
    }
  }

  /**
    One creation request per distinct label of the assignments, none
    repeated, in the order the labels first occur; each names a group's slug.
   */
  lemma UniqueLabelsSpec(groups: seq<Group>)
    ensures NoDuplicates(UniqueLabels(groups))
    ensures forall l :: l in UniqueLabels(groups) <==> exists a :: a in LabelAssignments(groups) && a.labelText == l
    ensures FirstSeenOrder(UniqueLabels(groups), AssignedLabels(LabelAssignments(groups)))
    ensures forall l :: l in UniqueLabels(groups) ==> exists g :: g in groups && ParseLabelHierarchy(l) == [Slugify(g.name)]
  {
    var assignments := LabelAssignments(groups);
    var labels := AssignedLabels(assignments);
    var unique := AddMissing([], labels);
    AddMissingSpec([], labels);
    AddMissingSuffix([], labels);
    assert unique[0..] == unique;
    AssignedLabelsMembers(assignments);
    LabelAssignmentsSpec(groups);
    forall l | l in unique
      ensures exists g :: g in groups && ParseLabelHierarchy(l) == [Slugify(g.name)]
    {
      var a :| a in assignments && a.labelText == l;
      var g :| g in groups && a.entityId in g.entities && ParseLabelHierarchy(a.labelText) == [Slugify(g.name)];
    }
  }

  // ---------------------------------------------------------------- processPendingLabelAssignments

  /** A Home Assistant label as the editor lists it. */
  datatype KnownLabel = KnownLabel(labelId: string, name: string)

  /** An `assignLabels` request sent to the plugin. */
  datatype AssignRequest = AssignRequest(entityId: string, labelIds: seq<string>)

  /** `haLabels.find(l => l.name === name)`: the first label with that name, if any. */
  function FindLabelByName(labels: seq<KnownLabel>, name: string): (r: Option<KnownLabel>)
    ensures r.Some? ==> r.value in labels && r.value.name == name
    ensures r.None? ==> forall l :: l in labels ==> l.name != name
  {
    if labels == [] then None
    else if labels[0].name == name then Some(labels[0])
    else FindLabelByName(labels[1..], name)
  }

  /** The request for one assignment: its entity and the id of the label named by it, when that label exists. */
  function AssignRequestFor(a: LabelAssignment, labels: seq<KnownLabel>): Option<AssignRequest> {
    match FindLabelByName(labels, a.labelText)
    case Some(l) => Some(AssignRequest(a.entityId, [l.labelId]))
    case None => None
  }

  /** The requests `processPendingLabelAssignments` sends, assignment by assignment. */
  function AssignRequests(pending: seq<LabelAssignment>, labels: seq<KnownLabel>): seq<AssignRequest>
    decreases |pending|
  {
    if pending == [] then []
    else
      var r := AssignRequestFor(pending[|pending| - 1], labels);
      AssignRequests(pending[..|pending| - 1], labels) + (if r.Some? then [r.value] else [])
  }

  /** Every request names an entity with a pending assignment and the id of a label whose name is that assignment's label. */
  lemma {:induction false} AssignRequestsSound(pending: seq<LabelAssignment>, labels: seq<KnownLabel>)
    ensures |AssignRequests(pending, labels)| <= |pending|
    ensures forall q :: q in AssignRequests(pending, labels) ==>
      exists a, l :: a in pending && l in labels && l.name == a.labelText && q == AssignRequest(a.entityId, [l.labelId])
    decreases |pending|
  {
    if pending != [] {
      var front := pending[..|pending| - 1];
      var last := pending[|pending| - 1];
      AssignRequestsSound(front, labels);
      assert forall a :: a in front ==> a in pending;
      var r := AssignRequestFor(last, labels);
      if r.Some? {
        var l := FindLabelByName(labels, last.labelText).value;
        assert r.value == AssignRequest(last.entityId, [l.labelId]);
      }
    }
  }

  /** When every pending label exists, each assignment gets its request, in order. */
  lemma {:induction false} AssignRequestsComplete(pending: seq<LabelAssignment>, labels: seq<KnownLabel>)
    requires forall a :: a in pending ==> exists l :: l in labels && l.name == a.labelText
    ensures |AssignRequests(pending, labels)| == |pending|
    ensures forall i :: 0 <= i < |pending| ==> AssignRequests(pending, labels)[i] == AssignRequestFor(pending[i], labels).value
    decreases |pending|
  {
    if pending != [] {
      var front := pending[..|pending| - 1];
      var last := pending[|pending| - 1];
      assert forall a :: a in front ==> a in pending;
      AssignRequestsComplete(front, labels);
      assert last in pending;
      assert FindLabelByName(labels, last.labelText).Some?;
      var prev := AssignRequests(front, labels);
      assert AssignRequests(pending, labels) == prev + [AssignRequestFor(last, labels).value];
      forall i | 0 <= i < |pending|
        ensures AssignRequests(pending, labels)[i] == AssignRequestFor(pending[i], labels).value
      {
        if i < |front| {
          assert pending[i] == front[i];
        }
      }
    }
  }

  // ---------------------------------------------------------------- syncLabels

  /** The `streamdeck:` labels of the groups' entities, numbered on from `start` across all groups. */
  function GroupSyncLabels(groups: seq<Group>, start: nat): seq<LabelAssignment>
    decreases |groups|
  {
    if groups == [] then []
    else
      var g := groups[0];
      SyncRun(g.entities, DashedName(g.name), start) + GroupSyncLabels(groups[1..], start + |g.entities|)
  }

  /** One step of `syncLabels`' outer loop: appending group `i`'s run keeps the labels a prefix of the whole. */
  lemma GroupSyncLabelsStep(groups: seq<Group>, i: nat, acc: seq<LabelAssignment>, order: nat)
    requires i < |groups|
    requires acc + GroupSyncLabels(groups[i..], order) == GroupSyncLabels(groups, 0)
    ensures (acc + SyncRun(groups[i].entities, DashedName(groups[i].name), order))
      + GroupSyncLabels(groups[i + 1..], order + |groups[i].entities|) == GroupSyncLabels(groups, 0)
  {
    var tail := groups[i..];
    assert tail[0] == groups[i] && tail[1..] == groups[i + 1..];
    var run := SyncRun(groups[i].entities, DashedName(groups[i].name), order);
    var rest := GroupSyncLabels(groups[i + 1..], order + |groups[i].entities|);
    assert GroupSyncLabels(tail, order) == run + rest;
    AppendAssoc(acc, run, rest);
  }

  /** The labels of one group's entities, numbered from `start`. */
  function SyncRun(ids: seq<string>, part: string, start: nat): (run: seq<LabelAssignment>)
    ensures |run| == |ids|
  {
    seq(|ids|, i requires 0 <= i < |ids| => LabelAssignment(ids[i], SyncLabel(part, start + i)))
  }

  lemma SyncRunCons(ids: seq<string>, part: string, start: nat)
    requires ids != []
    ensures SyncRun(ids, part, start) == [LabelAssignment(ids[0], SyncLabel(part, start))] + SyncRun(ids[1..], part, start + 1)
  {
  }

  /** The `streamdeck:main:<i>` labels used when the groups hold no entity. */
  function MainSyncLabels(selected: seq<string>): seq<LabelAssignment> {
    seq(|selected|, i requires 0 <= i < |selected| => LabelAssignment(selected[i], SyncLabel("main", i)))
  }

  /** What `syncLabels` sends. */
  function SyncLabelsSpec(groups: seq<Group>, selected: seq<string>): seq<LabelAssignment> {
    var fromGroups := GroupSyncLabels(groups, 0);
    if fromGroups == [] then MainSyncLabels(selected) else fromGroups
  }

  /**
    The group labels follow the groups' entities in order and carry one
    running number: the k-th label ends in `start + k` and names the group
    of its entity.
   */
  lemma {:induction false} GroupSyncLabelsSpec(groups: seq<Group>, start: nat)
    ensures AssignedIds(GroupSyncLabels(groups, start)) == Flatten(groups)
    ensures forall k :: 0 <= k < |GroupSyncLabels(groups, start)| ==>
      exists g :: g in groups &&
        GroupSyncLabels(groups, start)[k].labelText == SyncLabel(DashedName(g.name), start + k)
    decreases |groups|
  {
    if groups != [] {
      var g := groups[0];
      var part := DashedName(g.name);
      var head := SyncRun(g.entities, part, start);
      var tail := GroupSyncLabels(groups[1..], start + |g.entities|);
      var all := GroupSyncLabels(groups, start);
      GroupSyncLabelsSpec(groups[1..], start + |g.entities|);
      assert AssignedIds(head) == g.entities;
      AssignedIdsAppend(head, tail);
      assert all == head + tail;
      forall k | 0 <= k < |all|
        ensures exists h :: h in groups && all[k].labelText == SyncLabel(DashedName(h.name), start + k)
      {
        if k < |head| {
          assert all[k] == head[k];
          assert head[k].labelText == SyncLabel(DashedName(g.name), start + k);
          assert g in groups;
        } else {
          var j := k - |head|;
          assert all[k] == tail[j];
          var h :| h in groups[1..] && tail[j].labelText == SyncLabel(DashedName(h.name), start + |g.entities| + j);
          assert h in groups;
        }
      }
    }
  }
}
