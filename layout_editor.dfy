/**
  The layout editor's state object: the device grid, the entity catalogue,
  the selection, the groups, the generated pages and the setup wizard. Its
  methods update these fields in place; each is proved against the page,
  selection and wizard rules of the modules it imports.
 */
module LayoutEditor {
  import opened Wrappers
  import opened Strings
  import opened PageModel
  import opened LayoutLabels
  import opened LayoutPages
  import opened LayoutSelection
  import opened LayoutWizard

  class Editor {
    var cols: nat
    var rows: nat
    var allEntities: seq<Entity>
    var areas: seq<Area>
    var searchFilter: string
    var domainFilter: string
    var areaFilter: string
    var selectedEntities: seq<string>
    var groups: seq<Group>
    var pages: seq<Page>
    var currentPage: nat
    /** The fresh-id supply behind `generateId`. */
    var nextId: nat
    var showWizard: bool
    var wizardStep: nat
    var wizardEntitySearch: string
    var wizardShowLinkedOnly: bool
    var wizardSelections: WizardSelections
    var wizardComplete: bool
    var mode: string
    var showProfileNameModal: bool
    var pendingLabelAssignments: seq<LabelAssignment>
    /** The label names sent to the plugin with `createLabel`, in order. */
    var labelRequests: seq<string>
    /** The `assignLabels` requests sent to the plugin, in order. */
    var labelAssignRequests: seq<AssignRequest>

    /**
      A grid with room for at least one entity next to the reserved cell
      (with a single cell `createPagesForEntities` never ends), and a wizard
      step that exists.
     */
    ghost predicate Valid()
      reads this`cols, this`rows, this`wizardStep
    {
      cols >= 1 && rows >= 1 && Capacity(cols, rows) >= 1 && wizardStep < |WizardSteps|
    }

    /** The editor after `init()`: one empty page, nothing selected, the wizard closed. */
    constructor(cols: nat, rows: nat, entities: seq<Entity>, areas: seq<Area>)
      requires cols >= 1 && rows >= 1 && cols * rows >= 2
      ensures Valid()
      ensures this.cols == cols && this.rows == rows && allEntities == entities && this.areas == areas
      ensures pages == [Page(0, "Page 1", EmptyLayout(cols, rows))] && nextId == 1 && currentPage == 0
      ensures selectedEntities == [] && groups == []
      ensures searchFilter == "" && domainFilter == "" && areaFilter == ""
      ensures !showWizard && wizardStep == 0 && wizardSelections == InitialSelections
      ensures wizardEntitySearch == "" && !wizardShowLinkedOnly && !wizardComplete
      ensures mode == "freeform" && !showProfileNameModal && pendingLabelAssignments == [] && labelRequests == []
      ensures labelAssignRequests == []
    {
      this.cols := cols;
      this.rows := rows;
      allEntities := entities;
      this.areas := areas;
      searchFilter, domainFilter, areaFilter := "", "", "";
      selectedEntities := [];
      groups := [];
      currentPage := 0;
      showWizard := false;
      wizardStep := 0;
      wizardEntitySearch := "";
      wizardShowLinkedOnly := false;
      wizardSelections := InitialSelections;
      wizardComplete := false;
      mode := "freeform";
      showProfileNameModal := false;
      pendingLabelAssignments := [];
      labelRequests := [];
      labelAssignRequests := [];
      pages := [Page(0, "Page 1", EmptyLayout(cols, rows))];
      nextId := 1;
    }

    /** `generateId`: a fresh id. */
    method GenerateId() returns (id: nat)
      modifies this`nextId
      ensures id == old(nextId) && nextId == old(nextId) + 1
    {
      id := nextId;
      nextId := nextId + 1;
    }

    /** `initializePages`: a single empty page called `Page 1`. */
    method InitializePages()
      modifies this`pages, this`nextId
      ensures pages == [Page(old(nextId), "Page 1", EmptyLayout(cols, rows))]
      ensures nextId == old(nextId) + 1
    {
      var id := GenerateId();
      pages := [Page(id, "Page 1", EmptyLayout(cols, rows))];
    }

    // ---------------------------------------------------------------- selection

    /** `filteredEntities`. */
    function FilteredEntities(): seq<Entity>
      reads this
    {
      FilterVisible(allEntities, searchFilter, domainFilter, areaFilter)
    }

    /** `toggleSelection`: removes the first occurrence of the id, or appends it. */
    method ToggleSelection(entityId: string)
      modifies this`selectedEntities
      ensures selectedEntities == Toggled(old(selectedEntities), entityId)
    {
      var index := IndexOfItem(selectedEntities, entityId);
      if index == -1 {
        selectedEntities := selectedEntities + [entityId];
      } else {
        selectedEntities := selectedEntities[..index] + selectedEntities[index + 1..];
      }
    }

    /** `selectAllVisible`: appends every visible id not yet selected. */
    method SelectAllVisible()
      modifies this`selectedEntities
      ensures selectedEntities == AddMissing(old(selectedEntities), EntityIds(FilteredEntities()))
    {
      var visible := FilteredEntities();
      var ids := EntityIds(visible);
      var i := 0;
      while i < |visible|
        invariant 0 <= i <= |visible|
        invariant selectedEntities == AddMissing(old(selectedEntities), ids[..i])
      {
        assert ids[..i + 1][..i] == ids[..i];
        if visible[i].entityId !in selectedEntities {
          selectedEntities := selectedEntities + [visible[i].entityId];
        }
        i := i + 1;
      }
      assert ids[..i] == ids;
    }

    /** `clearSelection`. */
    method ClearSelection()
      modifies this`selectedEntities, this`groups
      ensures selectedEntities == [] && groups == []
    {
      selectedEntities := [];
      groups := [];
    }

    // ---------------------------------------------------------------- pages

    /** `createPagesForEntities`: the entities cut into pages of `cols * rows - 1`, placed row-major. */
    method CreatePagesForEntities(entities: seq<Entity>, baseName: string) returns (result: seq<Page>)
      requires Valid()
      modifies this`nextId
      ensures result == PagesFor(entities, cols, rows, baseName, old(nextId), 0)
      ensures nextId == old(nextId) + |result|
    {
      var c, r := cols, rows;
      ghost var whole := PagesFor(entities, c, r, baseName, nextId, 0);
      ghost var start := nextId;
      result := [];
      var cellsPerPage := c * r - 1;
      var currentEntities := entities;
      var pageNum := 1;
      while |currentEntities| > 0
        invariant nextId == start + |result|
        invariant pageNum == |result| + 1
        invariant result + PagesFor(currentEntities, c, r, baseName, nextId, |result|) == whole
        decreases |currentEntities|
      {
        ghost var rest := currentEntities;
        var n := Min(cellsPerPage, |currentEntities|);
        var pageEntities := currentEntities[..n];
        currentEntities := currentEntities[n..];
        var id := GenerateId();
        var name := if |result| == 0 then baseName else baseName + " " + NatToString(pageNum);
        var layout := PlaceEntities(pageEntities, c, r);
        assert name == PageName(baseName, |result|);
        PagesForStep(result, rest, c, r, baseName, id, n, whole);
        result := result + [Page(id, name, layout)];
        pageNum := pageNum + 1;
      }
    }

    /** The inner loop of `createPagesForEntities`: the page's entities written into an empty grid, row by row. */
    static method PlaceEntities(pageEntities: seq<Entity>, cols: nat, rows: nat) returns (layout: seq<seq<Cell>>)
      requires cols >= 1 && |pageEntities| <= cols * rows
      ensures layout == PlaceRowMajor(pageEntities, cols, rows)
    {
      layout := EmptyLayout(cols, rows);
      PlaceNothing(cols, rows);
      var position := 0;
      while position < |pageEntities|
        invariant 0 <= position <= |pageEntities|
        invariant layout == PlaceRowMajor(pageEntities[..position], cols, rows)
      {
        PlaceOneMore(pageEntities, position, cols, rows);
        var row := position / cols;
        var col := position % cols;
        layout := layout[row := layout[row][col := EntityCell(pageEntities[position])]];
        position := position + 1;
      }
      assert pageEntities[..position] == pageEntities;
    }

    /**
      `autoLayout`: rebuilds `pages` from the groups (or the selection) as
      `AutoLayoutSpec` describes. `ok` is false when the folder-button patch
      indexes a row past the main page and throws; the pages built so far
      stay and `currentPage` is not reset.
     */
    method AutoLayout() returns (ok: bool)
      requires Valid()
      modifies this`pages, this`nextId, this`currentPage
      ensures LayoutOutcome(pages, nextId, ok) == AutoLayoutSpec(allEntities, selectedEntities, groups, cols, rows, old(nextId))
      ensures ok ==> currentPage == 0 && pages != []
      ensures !ok ==> currentPage == old(currentPage)
    {
      pages := [];
      ok := true;
      if |groups| == 0 {
        var p := CreatePagesForEntities(ResolveEntities(allEntities, selectedEntities), "Page");
        pages := pages + p;
      } else if AllPageGroups(groups) {
        var p := LayoutPageGroups();
        pages := pages + p;
      } else {
        var p;
        p, ok := LayoutFolders();
        pages := pages + p;
        if !ok {
          return;
        }
      }
      if |pages| == 0 {
        InitializePages();
      }
      currentPage := 0;
    }

    /** The all-pages branch of `autoLayout`: each group's pages in turn. */
    method LayoutPageGroups() returns (result: seq<Page>)
      requires Valid()
      modifies this`nextId
      ensures result == GroupPages(allEntities, groups, cols, rows, old(nextId))
      ensures nextId == old(nextId) + |result|
    {
      result := [];
      var i := 0;
      while i < |groups|
        invariant 0 <= i <= |groups|
        invariant nextId == old(nextId) + |result|
        invariant result + GroupPages(allEntities, groups[i..], cols, rows, nextId) ==
          GroupPages(allEntities, groups, cols, rows, old(nextId))
      {
        ghost var acc, id := result, nextId;
        var p := CreatePagesForEntities(ResolveEntities(allEntities, groups[i].entities), groups[i].name);
        result := result + p;
        GroupPagesStep(allEntities, groups, i, acc, p, cols, rows, old(nextId), id, nextId);
        i := i + 1;
      }
    }

    /**
      The mixed branch of `autoLayout`: a `Main` page holding one folder
      button per folder group, followed by the groups' pages. `ok` is false
      when a folder button lies past the main page's last row and the
      assignment of its target throws; `result` then holds the pages pushed
      before it.
     */
    method LayoutFolders() returns (result: seq<Page>, ok: bool)
      requires Valid()
      modifies this`nextId
      ensures var st := FolderRun(allEntities, groups, FolderState(EmptyLayout(cols, rows), [], 0, old(nextId) + 1, true), cols, rows);
        result == [Page(old(nextId), "Main", st.main)] + st.pages && nextId == st.nextId && ok == st.ok
    {
      var mainId := GenerateId();
      var main := EmptyLayout(cols, rows);
      var pushed: seq<Page> := [];
      ghost var start := FolderState(main, [], 0, nextId, true);
      var mainPosition := 0;
      var i := 0;
      while i < |groups|
        invariant 0 <= i <= |groups|
        invariant IsGrid(main, cols, rows)
        invariant FolderRun(allEntities, groups[i..], FolderState(main, pushed, mainPosition, nextId, true), cols, rows) ==
          FolderRun(allEntities, groups, start, cols, rows)
      {
        ghost var st := FolderState(main, pushed, mainPosition, nextId, true);
        FolderRunStep(allEntities, groups, i, st, start, cols, rows);
        var stepOk;
        main, pushed, mainPosition, stepOk := LayoutFolderGroup(main, pushed, mainPosition, groups[i]);
        if !stepOk {
          result, ok := [Page(mainId, "Main", main)] + pushed, false;
          return;
        }
        i := i + 1;
      }
      result, ok := [Page(mainId, "Main", main)] + pushed, true;
    }

    /**
      One group of the mixed branch: a folder group takes the next folder
      button of the main page and pushes its pages, the button's target
      becoming the first of them; a page group only pushes its pages.
      `stepOk` is false when the button lies past the main page's last row.
     */
    method LayoutFolderGroup(main: seq<seq<Cell>>, pushed: seq<Page>, mainPosition: nat, group: Group)
      returns (main': seq<seq<Cell>>, pushed': seq<Page>, mainPosition': nat, stepOk: bool)
      requires Valid() && IsGrid(main, cols, rows)
      modifies this`nextId
      ensures FolderState(main', pushed', mainPosition', nextId, stepOk) ==
        FolderStep(allEntities, group, FolderState(main, pushed, mainPosition, old(nextId), true), cols, rows)
    {
      main', pushed', mainPosition', stepOk := main, pushed, mainPosition, true;
      var entities := ResolveEntities(allEntities, group.entities);
      if group.kind == FolderGroup {
        var row := mainPosition / cols;
        var col := mainPosition % cols;
        if row < rows {
          main' := main[row := main[row][col := FolderCell(group.name, None)]];
        }
        mainPosition' := mainPosition + 1;
        var subPages := CreatePagesForEntities(entities, group.name);
        if |subPages| > 0 {
          var r := (mainPosition' - 1) / cols;
          var c := (mainPosition' - 1) % cols;
          if r >= rows {
            stepOk := false;
            return;
          }
          main' := main'[r := main'[r][c := main'[r][c].(targetPageId := Some(subPages[0].id))]];
          pushed' := pushed + subPages;
        }
      } else {
        var groupPages := CreatePagesForEntities(entities, group.name);
        pushed' := pushed + groupPages;
      }
    }

    /**
      `autoGroup`: one folder group per area of the selected entities (an
      entity without an area goes to `other`), then `autoLayout`.
     */
    method AutoGroup() returns (ok: bool)
      requires Valid()
      modifies this`groups, this`pages, this`nextId, this`currentPage
      ensures groups == AreaGroups(allEntities, areas, selectedEntities, old(nextId))
      ensures LayoutOutcome(pages, nextId, ok) ==
        AutoLayoutSpec(allEntities, selectedEntities, groups, cols, rows, old(nextId) + |groups|)
      ensures ok ==> currentPage == 0 && pages != []
      ensures !ok ==> currentPage == old(currentPage)
    {
      GroupByArea();
      ghost var spec := AutoLayoutSpec(allEntities, selectedEntities, groups, cols, rows, nextId);
      ok := AutoLayout();
      assert LayoutOutcome(pages, nextId, ok) == spec;
    }

    /** The grouping half of `autoGroup`. */
    method GroupByArea()
      modifies this`groups, this`nextId
      ensures groups == AreaGroups(allEntities, areas, selectedEntities, old(nextId))
      ensures nextId == old(nextId) + |groups|
    {
      var byArea := Bucketize(selectedEntities, "other");
      var names := AutoGroupNames(areas, byArea);
      groups := MakeGroups(byArea, names, FolderGroup);
    }

    /** The `byArea` loop shared by `autoGroup` and `finishWizard`. */
    method Bucketize(ids: seq<string>, fallback: string) returns (byArea: seq<Bucket>)
      ensures byArea == BucketsOf(AreaPairs(allEntities, ids, fallback))
    {
      byArea := [];
      var i := 0;
      while i < |ids|
        invariant 0 <= i <= |ids|
        invariant byArea == BucketsOf(AreaPairs(allEntities, ids[..i], fallback))
      {
        assert ids[..i + 1][..i] == ids[..i];
        var entity := FindEntity(allEntities, ids[i]);
        if entity.Some? {
          var areaId := if entity.value.areaId != "" then entity.value.areaId else fallback;
          byArea := AddToBucket(byArea, areaId, ids[i]);
        }
        i := i + 1;
      }
      assert ids[..i] == ids;
    }

    /** One group per bucket, each with a fresh id. */
    method MakeGroups(buckets: seq<Bucket>, names: seq<string>, kind: GroupKind) returns (result: seq<Group>)
      requires |names| == |buckets|
      modifies this`nextId
      ensures result == GroupsFromBuckets(buckets, names, kind, old(nextId))
      ensures nextId == old(nextId) + |buckets|
    {
      result := [];
      var j := 0;
      while j < |buckets|
        invariant 0 <= j <= |buckets|
        invariant nextId == old(nextId) + j
        invariant result == GroupsFromBuckets(buckets, names, kind, old(nextId))[..j]
      {
        var id := GenerateId();
        result := result + [Group(id, names[j], kind, buckets[j].ids)];
        j := j + 1;
      }
    }

    // ---------------------------------------------------------------- labels

    /** `syncLabels`: the labels sent to the plugin. */
    method SyncLabels() returns (labelData: seq<LabelAssignment>)
      ensures labelData == SyncLabelsSpec(groups, selectedEntities)
    {
      labelData := [];
      var order := 0;
      var i := 0;
      while i < |groups|
        invariant 0 <= i <= |groups|
        invariant order == |labelData|
        invariant labelData + GroupSyncLabels(groups[i..], order) == GroupSyncLabels(groups, 0)
      {
        var group := groups[i];
        var part := DashedName(group.name);
        GroupSyncLabelsStep(groups, i, labelData, order);
        labelData := AppendSyncRun(labelData, group.entities, part, order);
        order := order + |group.entities|;
        i := i + 1;
      }
      if |labelData| == 0 {
        labelData := SelectionSyncLabels(selectedEntities);
      }
    }

    /** The fallback loop of `syncLabels`: `streamdeck:main:<i>` in selection order. */
    static method SelectionSyncLabels(selected: seq<string>) returns (labelData: seq<LabelAssignment>)
      ensures labelData == MainSyncLabels(selected)
    {
      labelData := [];
      var k := 0;
      while k < |selected|
        invariant 0 <= k <= |selected|
        invariant labelData == MainSyncLabels(selected)[..k]
      {
        labelData := labelData + [LabelAssignment(selected[k], SyncLabel("main", k))];
        k := k + 1;
      }
    }

    /** The inner loop of `syncLabels`: the group's entities numbered on from `order`. */
    static method AppendSyncRun(acc: seq<LabelAssignment>, ids: seq<string>, part: string, order: nat)
      returns (result: seq<LabelAssignment>)
      ensures result == acc + SyncRun(ids, part, order)
    {
      result := acc;
      var j := 0;
      while j < |ids|
        invariant 0 <= j <= |ids|
        invariant result == acc + SyncRun(ids[..j], part, order)
      {
        assert SyncRun(ids[..j + 1], part, order) == SyncRun(ids[..j], part, order) + [LabelAssignment(ids[j], SyncLabel(part, order + j))];
        result := result + [LabelAssignment(ids[j], SyncLabel(part, order + j))];
        j := j + 1;
      }
      assert ids[..j] == ids;
    }

    /**
      `saveGroupLabels`: asks the plugin to create each distinct
      `deck-assistant:<slug>` label once, then queues one assignment of its
      group's label per entity of every group.
     */
    method SaveGroupLabels(finalGroups: seq<Group>)
      modifies this`pendingLabelAssignments, this`labelRequests
      ensures pendingLabelAssignments == LabelAssignments(finalGroups)
      ensures labelRequests == old(labelRequests) + UniqueLabels(finalGroups)
    {
      var assignments: seq<LabelAssignment> := [];
      var i := 0;
      while i < |finalGroups|
        invariant 0 <= i <= |finalGroups|
        invariant assignments + LabelAssignments(finalGroups[i..]) == LabelAssignments(finalGroups)
        invariant labelRequests == old(labelRequests)
      {
        var group := finalGroups[i];
        var groupSlug := Slugify(group.name);
        var labelString := BuildLabelString([groupSlug]);
        LabelAssignmentsStep(finalGroups, i, assignments);
        assignments := AppendTagged(assignments, group.entities, labelString);
        i := i + 1;
      }
      var uniqueLabels := AddMissing([], AssignedLabels(assignments));
      var k := 0;
      while k < |uniqueLabels|
        invariant 0 <= k <= |uniqueLabels|
        invariant labelRequests == old(labelRequests) + uniqueLabels[..k]
      {
        labelRequests := labelRequests + [uniqueLabels[k]];
        k := k + 1;
      }
      assert uniqueLabels[..k] == uniqueLabels;
      pendingLabelAssignments := assignments;
    }

    /**
      `processPendingLabelAssignments`: each queued assignment whose label is
      found by name among `haLabels` becomes an `assignLabels` request for
      its entity; then the queue is emptied.
     */
    method ProcessPendingLabelAssignments(haLabels: seq<KnownLabel>)
      modifies this`pendingLabelAssignments, this`labelAssignRequests
      ensures labelAssignRequests == old(labelAssignRequests) + AssignRequests(old(pendingLabelAssignments), haLabels)
      ensures pendingLabelAssignments == []
    {
      var pending := pendingLabelAssignments;
      var i := 0;
      while i < |pending|
        invariant 0 <= i <= |pending|
        invariant labelAssignRequests == old(labelAssignRequests) + AssignRequests(pending[..i], haLabels)
      {
        assert pending[..i + 1][..i] == pending[..i];
        var assignment := pending[i];
        var found := FindLabelByName(haLabels, assignment.labelText);
        if found.Some? {
          labelAssignRequests := labelAssignRequests + [AssignRequest(assignment.entityId, [found.value.labelId])];
        }
        i := i + 1;
      }
      assert pending[..i] == pending;
      pendingLabelAssignments := [];
    }

    /** The inner loop of `saveGroupLabels`: one assignment of `labelString` per id. */
    static method AppendTagged(acc: seq<LabelAssignment>, ids: seq<string>, labelString: string)
      returns (result: seq<LabelAssignment>)
      ensures result == acc + Tagged(ids, labelString)
    {
      result := acc;
      var j := 0;
      while j < |ids|
        invariant 0 <= j <= |ids|
        invariant result == acc + Tagged(ids[..j], labelString)
      {
        assert Tagged(ids[..j + 1], labelString) == Tagged(ids[..j], labelString) + [LabelAssignment(ids[j], labelString)];
        result := result + [LabelAssignment(ids[j], labelString)];
        j := j + 1;
      }
      assert ids[..j] == ids;
    }

    // ---------------------------------------------------------------- wizard

    /** `startWizard`. */
    method StartWizard()
      modifies this`showWizard, this`wizardStep, this`wizardSelections
      ensures showWizard && wizardStep == 0 && wizardSelections == InitialSelections
    {
      showWizard := true;
      wizardStep := 0;
      wizardSelections := InitialSelections;
    }

    /** `goToWizardStep`: an unknown id changes nothing. */
    method GoToWizardStep(stepId: string)
      modifies this`wizardStep, this`wizardEntitySearch, this`wizardShowLinkedOnly
      ensures StepIndex(stepId) == -1 ==>
        wizardStep == old(wizardStep) && wizardEntitySearch == old(wizardEntitySearch) &&
        wizardShowLinkedOnly == old(wizardShowLinkedOnly)
      ensures StepIndex(stepId) != -1 ==>
        wizardStep == StepIndex(stepId) && wizardEntitySearch == "" && !wizardShowLinkedOnly
    {
      var index := StepIndex(stepId);
      if index != -1 {
        wizardStep := index;
        wizardEntitySearch := "";
        wizardShowLinkedOnly := false;
      }
    }

    /** `wizardBack`: at the first step it only closes the wizard. */
    method WizardBack()
      requires Valid()
      modifies this`showWizard, this`wizardStep, this`wizardEntitySearch, this`wizardShowLinkedOnly
      ensures Valid()
      ensures old(wizardStep) == 0 ==>
        !showWizard && wizardStep == 0 && wizardEntitySearch == old(wizardEntitySearch) &&
        wizardShowLinkedOnly == old(wizardShowLinkedOnly)
      ensures old(wizardStep) == 1 ==>
        showWizard == old(showWizard) && wizardStep == 0 && wizardEntitySearch == old(wizardEntitySearch) &&
        wizardShowLinkedOnly == old(wizardShowLinkedOnly)
      ensures old(wizardStep) > 1 ==>
        showWizard == old(showWizard) && wizardStep == BackIndex(old(wizardStep), wizardSelections) &&
        wizardEntitySearch == "" && !wizardShowLinkedOnly
    {
      var stepId := WizardSteps[wizardStep];
      if wizardStep == 0 {
        showWizard := false;
        return;
      }
      if stepId == "group-type" {
        GoToWizardStep("approach");
      } else if stepId == "group-filter" {
        GoToWizardStep("group-type");
      } else if stepId == "group-entities" {
        if wizardSelections.groupType == "custom" {
          GoToWizardStep("group-type");
        } else {
          GoToWizardStep("group-filter");
        }
      } else if stepId == "group-name" {
        GoToWizardStep("group-entities");
      } else if stepId == "group-complete" {
        GoToWizardStep("group-name");
      } else if stepId == "simple-entities" {
        GoToWizardStep("approach");
      } else if stepId == "layout" {
        if wizardSelections.approach == "simple" {
          GoToWizardStep("simple-entities");
        } else {
          GoToWizardStep("group-complete");
        }
      } else if stepId == "confirm" {
        GoToWizardStep("layout");
      } else {
        wizardStep := wizardStep - 1;
      }
    }

    /** `handleGroupCompleteChoice`: `another` starts a new group, anything else goes to the layout step. */
    method HandleGroupCompleteChoice(choice: string)
      modifies this`wizardStep, this`wizardEntitySearch, this`wizardShowLinkedOnly
      ensures wizardStep == (if choice == "another" then StepIndex("group-type") else StepIndex("layout"))
      ensures wizardEntitySearch == "" && !wizardShowLinkedOnly
    {
      if choice == "another" {
        GoToWizardStep("group-type");
      } else {
        GoToWizardStep("layout");
      }
    }

    /** `isWizardOptionSelected`. */
    function IsWizardOptionSelected(optionId: string): bool
      requires Valid()
      reads this
    {
      var stepId := WizardSteps[wizardStep];
      if stepId == "approach" then wizardSelections.approach == optionId
      else if stepId == "group-type" then wizardSelections.groupType == optionId
      else if stepId == "group-filter" then wizardSelections.groupFilter == optionId
      else if stepId == "group-entities" then optionId in wizardSelections.currentGroupEntities
      else if stepId == "simple-entities" then optionId in wizardSelections.simpleEntities
      else if stepId == "layout" then wizardSelections.layoutStyle == optionId
      else false
    }

    /**
      `toggleWizardOption`: records the option the current step offers. On a
      multi-select step, picking an entity flips whether it is selected.
     */
    method ToggleWizardOption(optionId: string)
      requires Valid()
      modifies this`wizardSelections
      ensures var sel := old(wizardSelections);
        var stepId := WizardSteps[wizardStep];
        wizardSelections ==
          if stepId == "approach" then sel.(approach := optionId)
          else if stepId == "group-type" then sel.(groupType := optionId, groupFilter := "")
          else if stepId == "group-filter" then
            sel.(groupFilter := optionId,
                 currentGroupName := SuggestedGroupName(areas, sel.groupType, optionId, sel.currentGroupName))
          else if stepId == "group-entities" then sel.(currentGroupEntities := Toggled(sel.currentGroupEntities, optionId))
          else if stepId == "simple-entities" then sel.(simpleEntities := Toggled(sel.simpleEntities, optionId))
          else if stepId == "layout" then sel.(layoutStyle := optionId)
          else sel
      ensures (WizardSteps[wizardStep] == "group-entities" && NoDuplicates(old(wizardSelections).currentGroupEntities)) ||
              (WizardSteps[wizardStep] == "simple-entities" && NoDuplicates(old(wizardSelections).simpleEntities)) ==>
        IsWizardOptionSelected(optionId) == !old(IsWizardOptionSelected(optionId))
    {
      var stepId := WizardSteps[wizardStep];
      if stepId == "approach" {
        wizardSelections := wizardSelections.(approach := optionId);
      } else if stepId == "group-type" {
        wizardSelections := wizardSelections.(groupType := optionId, groupFilter := "");
      } else if stepId == "group-filter" {
        wizardSelections := wizardSelections.(groupFilter := optionId);
        if wizardSelections.groupType == "area" {
          var area := FindArea(areas, optionId);
          var name := if area.Some? then area.value.name else "Unassigned";
          wizardSelections := wizardSelections.(currentGroupName := name);
        } else if wizardSelections.groupType == "domain" {
          wizardSelections := wizardSelections.(currentGroupName := FormatDomainName(optionId));
        }
      } else if stepId == "group-entities" {
        var items := ToggleArrayItem(wizardSelections.currentGroupEntities, optionId);
        wizardSelections := wizardSelections.(currentGroupEntities := items);
        ToggleFlipsIfClean(old(wizardSelections).currentGroupEntities, optionId);
      } else if stepId == "simple-entities" {
        var items := ToggleArrayItem(wizardSelections.simpleEntities, optionId);
        wizardSelections := wizardSelections.(simpleEntities := items);
        ToggleFlipsIfClean(old(wizardSelections).simpleEntities, optionId);
      } else if stepId == "layout" {
        wizardSelections := wizardSelections.(layoutStyle := optionId);
      }
    }

    /** `toggleArrayItem` on a copy of the list. */
    static method ToggleArrayItem(arr: seq<string>, item: string) returns (result: seq<string>)
      ensures result == Toggled(arr, item)
    {
      var index := IndexOfItem(arr, item);
      if index == -1 {
        result := arr + [item];
      } else {
        result := arr[..index] + arr[index + 1..];
      }
    }

    static lemma ToggleFlipsIfClean(s: seq<string>, x: string)
      ensures NoDuplicates(s) ==> (x in Toggled(s, x) <==> x !in s)
    {
      if NoDuplicates(s) {
        ToggleFlips(s, x);
      }
    }

    /**
      `wizardNext`: checks the current step and moves on. A failed check
      returns its alert and changes nothing; on `group-name` a valid name
      saves the group and clears the draft; on `confirm` the wizard
      finishes, and `layoutOk` reports whether the layout completed.
     */
    method WizardNext() returns (alert: Option<string>, layoutOk: bool, ghost firstPageId: nat)
      requires Valid()
      modifies this`wizardStep, this`wizardEntitySearch, this`wizardShowLinkedOnly, this`wizardSelections,
        this`groups, this`selectedEntities, this`showWizard, this`wizardComplete, this`mode, this`pages,
        this`nextId, this`currentPage, this`showProfileNameModal, this`pendingLabelAssignments, this`labelRequests
      ensures Valid()
      ensures var stepId := old(WizardSteps[wizardStep]);
        var sel := old(wizardSelections);
        stepId != "confirm" ==>
          && layoutOk
          && groups == old(groups) && selectedEntities == old(selectedEntities) && pages == old(pages)
          && nextId == old(nextId) && currentPage == old(currentPage) && showWizard == old(showWizard)
          && wizardComplete == old(wizardComplete) && mode == old(mode)
          && showProfileNameModal == old(showProfileNameModal)
          && pendingLabelAssignments == old(pendingLabelAssignments) && labelRequests == old(labelRequests)
      ensures alert == StepAlert(old(WizardSteps[wizardStep]), old(wizardSelections))
      ensures alert.Some? ==>
        wizardStep == old(wizardStep) && wizardSelections == old(wizardSelections) &&
        wizardEntitySearch == old(wizardEntitySearch) && wizardShowLinkedOnly == old(wizardShowLinkedOnly)
      ensures var stepId := old(WizardSteps[wizardStep]);
        var sel := old(wizardSelections);
        alert.None? && NextTarget(stepId, sel).Some? ==>
          && wizardStep == StepIndex(NextTarget(stepId, sel).value)
          && wizardEntitySearch == "" && !wizardShowLinkedOnly
          && wizardSelections == NextSelections(stepId, sel)
      ensures old(WizardSteps[wizardStep]) == "group-complete" ==>
        wizardStep == old(wizardStep) && wizardSelections == old(wizardSelections) &&
        wizardEntitySearch == old(wizardEntitySearch) && wizardShowLinkedOnly == old(wizardShowLinkedOnly)
      ensures old(WizardSteps[wizardStep]) == "confirm" ==>
        && wizardStep == old(wizardStep) && wizardSelections == old(wizardSelections)
        && wizardEntitySearch == old(wizardEntitySearch) && wizardShowLinkedOnly == old(wizardShowLinkedOnly)
        && FinishedWizard(old(nextId), old(wizardSelections), old(currentPage), old(showProfileNameModal), old(labelRequests), layoutOk, firstPageId)
    {
      var stepId := WizardSteps[wizardStep];
      if stepId == "confirm" {
        alert := None;
        layoutOk, firstPageId := FinishWizard();
      } else {
        alert := AdvanceWizard();
        layoutOk, firstPageId := true, 0;
      }
    }

    /** The checks and moves of `wizardNext` for every step but `confirm`. */
    method AdvanceWizard() returns (alert: Option<string>)
      requires Valid() && WizardSteps[wizardStep] != "confirm"
      modifies this`wizardStep, this`wizardEntitySearch, this`wizardShowLinkedOnly, this`wizardSelections
      ensures Valid()
      ensures alert == StepAlert(old(WizardSteps[wizardStep]), old(wizardSelections))
      ensures alert.Some? ==>
        wizardStep == old(wizardStep) && wizardSelections == old(wizardSelections) &&
        wizardEntitySearch == old(wizardEntitySearch) && wizardShowLinkedOnly == old(wizardShowLinkedOnly)
      ensures var stepId := old(WizardSteps[wizardStep]);
        var sel := old(wizardSelections);
        alert.None? && NextTarget(stepId, sel).Some? ==>
          && wizardStep == StepIndex(NextTarget(stepId, sel).value)
          && wizardEntitySearch == "" && !wizardShowLinkedOnly
          && wizardSelections == NextSelections(stepId, sel)
      ensures old(WizardSteps[wizardStep]) == "group-complete" ==>
        wizardStep == old(wizardStep) && wizardSelections == old(wizardSelections) &&
        wizardEntitySearch == old(wizardEntitySearch) && wizardShowLinkedOnly == old(wizardShowLinkedOnly)
    {
      var stepId := WizardSteps[wizardStep];
      alert := None;
      if stepId == "welcome" {
        GoToWizardStep("approach");
      } else if stepId == "approach" {
        if wizardSelections.approach == "groups" {
          GoToWizardStep("group-type");
        } else {
          GoToWizardStep("simple-entities");
        }
      } else if stepId == "group-type" {
        if wizardSelections.groupType == "custom" {
          wizardSelections := wizardSelections.(groupFilter := "", currentGroupName := "");
          GoToWizardStep("group-entities");
        } else {
          GoToWizardStep("group-filter");
        }
      } else if stepId == "group-filter" {
        if wizardSelections.groupFilter == "" {
          alert := Some("Please select an option");
          return;
        }
        GoToWizardStep("group-entities");
      } else if stepId == "group-entities" {
        if |wizardSelections.currentGroupEntities| == 0 {
          alert := Some("Please select at least one entity");
          return;
        }
        GoToWizardStep("group-name");
      } else if stepId == "group-name" {
        var name := Trim(wizardSelections.currentGroupName);
        if name == "" {
          alert := Some("Please enter a group name");
          return;
        }
        wizardSelections := wizardSelections.(
          groups := wizardSelections.groups + [WizardGroup(name, wizardSelections.currentGroupEntities)]);
        wizardSelections := wizardSelections.(currentGroupEntities := [], currentGroupName := "", groupFilter := "");
        GoToWizardStep("group-complete");
      } else if stepId == "group-complete" {
      } else if stepId == "simple-entities" {
        if |wizardSelections.simpleEntities| == 0 {
          alert := Some("Please select at least one entity");
          return;
        }
        GoToWizardStep("layout");
      } else if stepId == "layout" {
        GoToWizardStep("confirm");
      }
    }

    /** The state `finishWizard` leaves, from the id supply, selections, page index and modal flag it started with. */
    ghost predicate FinishedWizard(nextId0: nat, sel: WizardSelections, currentPage0: nat, modal0: bool, requests0: seq<string>,
                                   layoutOk: bool, firstPageId: nat)
      requires Valid()
      reads this
    {
      && groups == FinalGroups(allEntities, areas, sel, nextId0)
      && pendingLabelAssignments == LabelAssignments(groups)
      && labelRequests == requests0 + UniqueLabels(groups)
      && selectedEntities == Flatten(groups)
      && !showWizard && wizardComplete && mode == "freeform"
      && firstPageId == nextId0 + |groups|
      && LayoutOutcome(pages, nextId, layoutOk) == AutoLayoutSpec(allEntities, selectedEntities, groups, cols, rows, firstPageId)
      && (layoutOk ==> currentPage == 0 && pages != [])
      && (!layoutOk ==> currentPage == currentPage0)
      && showProfileNameModal == (if layoutOk && selectedEntities != [] then true else modal0)
    }

    /**
      `finishWizard`: builds the final groups (the user's groups, or one per
      area in the quick-setup flow), queues their labels, selects their
      entities, closes the wizard and lays the pages out.
     */
    method FinishWizard() returns (layoutOk: bool, ghost firstPageId: nat)
      requires Valid()
      modifies this`groups, this`selectedEntities, this`showWizard, this`wizardComplete, this`mode,
        this`pages, this`nextId, this`currentPage, this`showProfileNameModal, this`pendingLabelAssignments, this`labelRequests
      ensures Valid()
      ensures groups == FinalGroups(allEntities, areas, wizardSelections, old(nextId))
      ensures pendingLabelAssignments == LabelAssignments(groups)
      ensures labelRequests == old(labelRequests) + UniqueLabels(groups)
      ensures selectedEntities == Flatten(groups)
      ensures !showWizard && wizardComplete && mode == "freeform"
      ensures firstPageId == old(nextId) + |groups|
      ensures LayoutOutcome(pages, nextId, layoutOk) == AutoLayoutSpec(allEntities, selectedEntities, groups, cols, rows, firstPageId)
      ensures layoutOk ==> currentPage == 0 && pages != []
      ensures !layoutOk ==> currentPage == old(currentPage)
      ensures showProfileNameModal == (if layoutOk && selectedEntities != [] then true else old(showProfileNameModal))
    {
      var finalGroups := BuildFinalGroups();
      firstPageId := nextId;
      layoutOk := CommitGroups(finalGroups);
    }

    /**
      The rest of `finishWizard` once the final groups exist: their labels
      are queued, they become the editor's groups and selection, the wizard
      closes and the layout runs; the profile-name dialog opens only after a
      layout that succeeded with something selected.
     */
    method CommitGroups(finalGroups: seq<Group>) returns (layoutOk: bool)
      requires Valid()
      modifies this`groups, this`selectedEntities, this`showWizard, this`wizardComplete, this`mode,
        this`pages, this`nextId, this`currentPage, this`showProfileNameModal, this`pendingLabelAssignments, this`labelRequests
      ensures Valid()
      ensures groups == finalGroups
      ensures pendingLabelAssignments == LabelAssignments(finalGroups)
      ensures labelRequests == old(labelRequests) + UniqueLabels(finalGroups)
      ensures selectedEntities == Flatten(finalGroups)
      ensures !showWizard && wizardComplete && mode == "freeform"
      ensures LayoutOutcome(pages, nextId, layoutOk) == AutoLayoutSpec(allEntities, selectedEntities, groups, cols, rows, old(nextId))
      ensures layoutOk ==> currentPage == 0 && pages != []
      ensures !layoutOk ==> currentPage == old(currentPage)
      ensures showProfileNameModal == (if layoutOk && selectedEntities != [] then true else old(showProfileNameModal))
    {
      SaveGroupLabels(finalGroups);
      groups, selectedEntities := finalGroups, Flatten(finalGroups);
      layoutOk := CloseWizardAndLayout();
    }

    /** The end of `finishWizard`: the wizard closes, the layout runs, and a layout with something selected offers the profile-name dialog. */
    method CloseWizardAndLayout() returns (layoutOk: bool)
      requires Valid()
      modifies this`showWizard, this`wizardComplete, this`mode, this`pages, this`nextId, this`currentPage,
        this`showProfileNameModal
      ensures Valid()
      ensures !showWizard && wizardComplete && mode == "freeform"
      ensures LayoutOutcome(pages, nextId, layoutOk) == AutoLayoutSpec(allEntities, selectedEntities, groups, cols, rows, old(nextId))
      ensures layoutOk ==> currentPage == 0 && pages != []
      ensures !layoutOk ==> currentPage == old(currentPage)
      ensures showProfileNameModal == (if layoutOk && selectedEntities != [] then true else old(showProfileNameModal))
    {
      showWizard, wizardComplete, mode := false, true, "freeform";
      layoutOk := AutoLayout();
      if layoutOk && |selectedEntities| > 0 {
        showProfileNameModal := true;
      }
    }

    /** The first half of `finishWizard`: the user's groups, or one group per area in the quick-setup flow. */
    method BuildFinalGroups() returns (finalGroups: seq<Group>)
      modifies this`nextId
      ensures finalGroups == FinalGroups(allEntities, areas, wizardSelections, old(nextId))
      ensures nextId == old(nextId) + |finalGroups|
    {
      var sel := wizardSelections;
      var kind := KindFor(sel.layoutStyle);
      finalGroups := [];
      FinalGroupsNumbered(allEntities, areas, sel, old(nextId));
      if sel.approach == "groups" {
        var i := 0;
        while i < |sel.groups|
          invariant 0 <= i <= |sel.groups|
          invariant nextId == old(nextId) + i
          invariant finalGroups == FinalGroups(allEntities, areas, sel, old(nextId))[..i]
        {
          var id := GenerateId();
          finalGroups := finalGroups + [Group(id, sel.groups[i].name, kind, sel.groups[i].entities)];
          i := i + 1;
        }
      } else {
        var byArea := Bucketize(sel.simpleEntities, "__unassigned__");
        finalGroups := MakeGroups(byArea, WizardAreaNames(areas, byArea), kind);
      }
    }
  }
}
