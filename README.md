# Deck Assistant core, modelled in Dafny

Deck Assistant is a Stream Deck plugin for Home Assistant. This project models
the parts of it that decide something, and proves what they promise.

- **The layout editor** (`layout-editor.js`): the entity selection, the page
  layout passes (`autoLayout`, `createPagesForEntities`, `autoGroup`), the
  setup wizard's step machine, and the labels it writes back to Home Assistant.
  - `LayoutEditor.Editor` is a class whose fields are the editor's state.
    Its methods update that state in place, as the script's methods do.
  - `LayoutPages`, `LayoutSelection`, `LayoutWizard` and `LayoutLabels` hold
    the functions that specify those methods and the lemmas about them.
- **The profile generator** (`profile-generator.ts`):
  - `ProfileIds` models the folder-id encoding of a profile UUID. It proves
    the encoding can be decoded back, and so is injective.
  - `ProfileGenerator` models the action map of the first page, the
    back-button position and the manifests.
- **The entity button** (`entity-button.ts`): the service call a key press
  sends for each domain and action, the key-press guards, the state text and
  the text-only fallback title.
- **The icon renderer** (`renderer.ts`): the key's geometry, XML escaping and
  truncation of its labels, the default icon per domain, and the on/off
  reading of a state.
- **The Home Assistant connection** (`connection.ts`): a class holding the
  subscriber lists, the cached entities and registry, and the connection
  state.
  - Calls to the WebSocket library are recorded as a list of commands.
  - Their replies are parameters.
- **The two entity-button property inspectors**: the newer one in
  `com.deckassistant.sdPlugin` (`EntityButtonInspector`) and the older one in
  `com.homeassistant.streamdeck.sdPlugin` (`LegacyEntityButtonInspector`).
  They share `EntityPicker`, which holds the entity-dropdown text and how a
  dropdown keeps its selection.
  - The searches, the device filter and the colour inputs are modelled.
  - So is the connect form.

`Strings`, `Arithmetic`, `Wrappers` and `PageModel` are support modules:
- JavaScript's string operations (`trim`, `split`, `toLowerCase`, `replace`
  with a regular expression, `padStart`) written as functions over
  `seq<char>`;
- small arithmetic facts;
- `Option`/`Result`;
- the page and cell datatypes.

### Points of the code worth knowing

- `createPagesForEntities` keeps one key of every page free
  (`cellsPerPage - 1` entities per page) and places nothing there; the
  model proves the reserved bottom-right key stays empty
  (`LayoutPages.PagesForShape`).
- `generateProfile` writes only the actions of `pages[0]`, and the model
  does the same.
- In the mixed layout, the main page gets a folder cell for each folder
  group. `createEntityButtonAction` then fails on a folder cell of the first
  page, so such a profile cannot be generated;
  `ProfileGenerator.GenerateProfile` returns that error.
- `createPagesForEntities` returns no page for no entities; an empty
  selection ends with one empty page only through `autoLayout`'s fallback.

## Model

| member | source | states |
|---|---|---|
| LayoutEditor.Editor.constructor | com.deckassistant.sdPlugin/ui/js/layout-editor.js:58-262 | The editor starts with one empty "Page 1" grid of the device's size, nothing selected, no groups, no pending label assignments or label requests, the wizard closed at its first step, and all filters cleared. |
| LayoutEditor.Editor.GenerateId | com.deckassistant.sdPlugin/ui/js/layout-editor.js:288-290 | Each id handed out is fresh: it is the supply's old value, and the supply moves past it. |
| LayoutEditor.Editor.InitializePages | com.deckassistant.sdPlugin/ui/js/layout-editor.js:255-262 | The pages become exactly one empty page named "Page 1" with a fresh id. |
| LayoutEditor.Editor.ToggleSelection | com.deckassistant.sdPlugin/ui/js/layout-editor.js:449-456 | The selection after a click is the old selection with the entity removed if present, else appended at the end. |
| LayoutEditor.Editor.SelectAllVisible | com.deckassistant.sdPlugin/ui/js/layout-editor.js:458-464 | Every entity passing the search, domain and area filters ends up selected; the earlier selection keeps its order and is not duplicated. |
| LayoutEditor.Editor.ClearSelection | com.deckassistant.sdPlugin/ui/js/layout-editor.js:466-469 | Both the selection and the groups become empty. |
| LayoutEditor.Editor.CreatePagesForEntities | com.deckassistant.sdPlugin/ui/js/layout-editor.js:674-701 | The loop produces exactly `PagesFor`: consecutive ids from the counter, names `base`, `base 2`, ..., each page filled row-major with the next `cols*rows-1` entities; the counter advances by the number of pages. |
| LayoutEditor.Editor.PlaceEntities | com.deckassistant.sdPlugin/ui/js/layout-editor.js:689-694 | The nested placement loop builds the row-major grid: entity k lands at row k / cols, column k % cols. |
| LayoutEditor.Editor.AutoLayout | com.deckassistant.sdPlugin/ui/js/layout-editor.js:607-667 | The pages, id counter and success flag equal the layout specification for the selection and groups (ungrouped, all-page-groups, or mixed with folder buttons); on success the first page is shown and there is at least one page; when the line-650 patch throws, the current page is left alone. |
| LayoutEditor.Editor.LayoutPageGroups | com.deckassistant.sdPlugin/ui/js/layout-editor.js:616-621 | With only page groups, the result is each group's pages in group order, named after the group. |
| LayoutEditor.Editor.LayoutFolders | com.deckassistant.sdPlugin/ui/js/layout-editor.js:622-658 | The mixed pass: a "Main" page with the reserved first id, the folder buttons on it, and each folder group's pages pushed after it, as the fold of `FolderStep` over the groups states. |
| LayoutEditor.Editor.LayoutFolderGroup | com.deckassistant.sdPlugin/ui/js/layout-editor.js:632-657 | One group of the mixed pass: a folder group places a folder button on the next free main key and pushes its pages, and a page group pushes its pages; the line-650 patch fails when that key is off the grid. |
| LayoutEditor.Editor.AutoGroup | com.deckassistant.sdPlugin/ui/js/layout-editor.js:575-605 | The groups become one folder group per area of the selected entities (named after the area, else "Other"), and then the layout is that of `autoLayout` on those groups. |
| LayoutEditor.Editor.GroupByArea | com.deckassistant.sdPlugin/ui/js/layout-editor.js:578-602 | The groups are the area buckets of the selection, with consecutive fresh ids. |
| LayoutEditor.Editor.Bucketize | com.deckassistant.sdPlugin/ui/js/layout-editor.js:580-589 | The by-area loop builds exactly `BucketsOf` of the (area, id) pairs, with buckets in order of first appearance. |
| LayoutEditor.Editor.MakeGroups | com.deckassistant.sdPlugin/ui/js/layout-editor.js:592-601 | One group per bucket, with the given name and kind, the bucket's ids, and ids counted up from the counter. |
| LayoutEditor.Editor.SyncLabels | com.deckassistant.sdPlugin/ui/js/layout-editor.js:1270-1298 | The label data is one `streamdeck:<group-name-dashed>:<order>` entry per grouped entity, in group order, with one running order number; when no group holds an entity, it is one `streamdeck:main:<i>` entry per selected entity. |
| LayoutEditor.Editor.SelectionSyncLabels | com.deckassistant.sdPlugin/ui/js/layout-editor.js:1285-1292 | The fallback loop labels each selected entity `main`, numbered by its position. |
| LayoutEditor.Editor.AppendSyncRun | com.deckassistant.sdPlugin/ui/js/layout-editor.js:1274-1282 | The inner loop appends one label per entity of a group, numbered on from the running order. |
| LayoutEditor.Editor.SaveGroupLabels | com.deckassistant.sdPlugin/ui/js/layout-editor.js:1175-1207 | A `createLabel` request is sent for each distinct `deck-assistant:<slug>` label of the groups, once, in first-seen order; the pending assignments become one label per entity of every group, in order. |
| LayoutEditor.Editor.ProcessPendingLabelAssignments | com.deckassistant.sdPlugin/ui/js/layout-editor.js:1209-1221 | Each queued assignment whose label is found by name becomes an `assignLabels` request for its entity with that label's id, in queue order; the queue is then empty. |
| LayoutEditor.Editor.AppendTagged | com.deckassistant.sdPlugin/ui/js/layout-editor.js:1179-1189 | The assignment loop appends one assignment per entity of a group, all with that group's label. |
| LayoutEditor.Editor.StartWizard | com.deckassistant.sdPlugin/ui/js/layout-editor.js:732-745 | The wizard opens at its first step with the initial selections. |
| LayoutEditor.Editor.GoToWizardStep | com.deckassistant.sdPlugin/ui/js/layout-editor.js:757-765 | A known step id moves to that step and clears the entity search and the linked-only switch; an unknown id changes nothing. |
| LayoutEditor.Editor.WizardBack | com.deckassistant.sdPlugin/ui/js/layout-editor.js:965-1014 | Back from the first step closes the wizard; otherwise it moves to the step `BackIndex` names, which is always earlier and undoes the matching `next`. |
| LayoutEditor.Editor.HandleGroupCompleteChoice | com.deckassistant.sdPlugin/ui/js/layout-editor.js:1106-1112 | "another" returns to the group-type step, and any other choice goes to the layout step. |
| LayoutEditor.Editor.ToggleWizardOption | com.deckassistant.sdPlugin/ui/js/layout-editor.js:919-951 | Each step's option click updates only that step's selection: a single choice is replaced, an entity list is toggled, and a filter choice suggests the group name. |
| LayoutEditor.Editor.ToggleArrayItem | com.deckassistant.sdPlugin/ui/js/layout-editor.js:956-963 | The result is the array with the item removed where it was, or appended when absent. |
| LayoutEditor.Editor.ToggleFlipsIfClean | com.deckassistant.sdPlugin/ui/js/layout-editor.js:956-963 | On a list without duplicates, toggling flips the item's membership. |
| LayoutEditor.Editor.WizardNext | com.deckassistant.sdPlugin/ui/js/layout-editor.js:1016-1101 | Before the confirm step, next is `AdvanceWizard` and touches no layout state; at confirm, it is `FinishWizard`. |
| LayoutEditor.Editor.AdvanceWizard | com.deckassistant.sdPlugin/ui/js/layout-editor.js:1016-1099 | A step whose required choice is missing raises its alert and changes nothing; otherwise it moves to the step `NextTarget` names, clearing the search, and records the finished group on the group-name step. |
| LayoutEditor.Editor.FinishWizard | com.deckassistant.sdPlugin/ui/js/layout-editor.js:1114-1173 | The groups become the wizard's final groups (the user's groups, or one per area in quick setup), the creation of their distinct labels is requested and their label assignments are queued, the selection is their entities, the wizard closes, and the layout is `autoLayout`'s on them. |
| LayoutEditor.Editor.CommitGroups | com.deckassistant.sdPlugin/ui/js/layout-editor.js:1155-1172 | The save-and-close tail of `finishWizard` for given groups. |
| LayoutEditor.Editor.CloseWizardAndLayout | com.deckassistant.sdPlugin/ui/js/layout-editor.js:1160-1172 | The wizard closes, the layout runs, and the profile-name dialog opens only when the layout succeeded on a non-empty selection. |
| LayoutEditor.Editor.BuildFinalGroups | com.deckassistant.sdPlugin/ui/js/layout-editor.js:1118-1152 | Builds exactly `FinalGroups`, with consecutive fresh ids. |
| LayoutSelection.IndexOfItem | com.deckassistant.sdPlugin/ui/js/layout-editor.js:956-963 | `indexOf`: the first position holding the item, or -1 exactly when it is absent. |
| LayoutSelection.ToggleFlips | com.deckassistant.sdPlugin/ui/js/layout-editor.js:449-456 | Toggling keeps a selection free of duplicates, flips the toggled entity's membership, and leaves every other entity's membership alone. |
| LayoutSelection.ToggleMultiset | com.deckassistant.sdPlugin/ui/js/layout-editor.js:449-456 | As a multiset, toggling removes one copy of a present id or adds one of an absent id. |
| LayoutSelection.ToggleAbsentTwice | com.deckassistant.sdPlugin/ui/js/layout-editor.js:449-456 | Selecting and then deselecting an unselected entity restores the selection exactly. |
| LayoutSelection.AddMissingSpec | com.deckassistant.sdPlugin/ui/js/layout-editor.js:458-464 | "Select all visible" keeps the old selection as a prefix, the result holds exactly the old and the visible ids, and it adds no duplicates. |
| LayoutSelection.AddMissingSuffix | com.deckassistant.sdPlugin/ui/js/layout-editor.js:458-464 | What is appended is exactly the ids not already selected, in the order of their first occurrence among the visible ids. |
| LayoutSelection.FilterVisible | com.deckassistant.sdPlugin/ui/js/layout-editor.js:105-117 | An entity is listed exactly when it passes the case-insensitive search on id or name and the domain and area filters. |
| LayoutSelection.FilterVisibleSpec | com.deckassistant.sdPlugin/ui/js/layout-editor.js:105-117 | The list is built entity by entity: one entity is listed exactly when it is visible, and a concatenation gives the two lists in order. |
| LayoutPages.FindEntity | com.deckassistant.sdPlugin/ui/js/layout-editor.js:475-477 | The entity found has the id asked for, and none is found only when no entity has it. |
| LayoutPages.ResolveEntities | com.deckassistant.sdPlugin/ui/js/layout-editor.js:615 | Only known entities are produced, never more than there are ids. |
| LayoutPages.ResolveEntitiesSpec | com.deckassistant.sdPlugin/ui/js/layout-editor.js:615 | Resolution is id by id, in order: one id gives its entity when `getEntityById` finds it and nothing otherwise, and a concatenation of ids resolves to the two resolutions one after the other. |
| LayoutPages.PlaceRowMajor | com.deckassistant.sdPlugin/ui/js/layout-editor.js:689-694 | The placement is always a `rows` by `cols` grid. |
| LayoutPages.PlaceOneMore | com.deckassistant.sdPlugin/ui/js/layout-editor.js:689-694 | Placing one more entity changes exactly one key, the one at row k / cols and column k % cols. |
| LayoutPages.PlacedAt | com.deckassistant.sdPlugin/ui/js/layout-editor.js:689-694 | The k-th entity sits at row k / cols, column k % cols. |
| LayoutPages.LastCellEmpty | com.deckassistant.sdPlugin/ui/js/layout-editor.js:676-694 | With fewer entities than keys, the bottom-right key stays empty. |
| LayoutPages.OccupantsOfPlaced | com.deckassistant.sdPlugin/ui/js/layout-editor.js:689-694 | Reading a placed grid row by row gives back the entities, up to the grid's capacity. |
| LayoutPages.PagesFor | com.deckassistant.sdPlugin/ui/js/layout-editor.js:674-701 | The pages get consecutive ids from the first id. |
| LayoutPages.PagesForCount | com.deckassistant.sdPlugin/ui/js/layout-editor.js:676-698 | There are exactly ceil(n / (cols*rows - 1)) pages. |
| LayoutPages.PagesForShape | com.deckassistant.sdPlugin/ui/js/layout-editor.js:674-701 | Every page is a full grid named `base` or `base k`, with at least one entity and its last key left free. |
| LayoutPages.PagesForContents | com.deckassistant.sdPlugin/ui/js/layout-editor.js:674-701 | Reading all pages in order gives back exactly the entities, so none is lost, duplicated or reordered. |
| LayoutPages.FolderRunSucceeds | com.deckassistant.sdPlugin/ui/js/layout-editor.js:634-650 | When the folder buttons fit on the main page, the mixed pass never hits the line-650 failure. |
| LayoutPages.FolderRunTargets | com.deckassistant.sdPlugin/ui/js/layout-editor.js:634-656 | Every folder button the mixed pass places points to a page that the pass produced. |
| LayoutPages.AutoLayoutSucceeds | com.deckassistant.sdPlugin/ui/js/layout-editor.js:607-667 | With no more folder groups than main keys, `autoLayout` succeeds with at least one page. |
| LayoutPages.AutoLayoutUngrouped | com.deckassistant.sdPlugin/ui/js/layout-editor.js:613-663 | Without groups, the pages hold exactly the known selected entities in selection order; with none of them, a single empty `Page 1`. |
| LayoutPages.BucketsOfSpec | com.deckassistant.sdPlugin/ui/js/layout-editor.js:580-589 | Bucketing gives one bucket per key; every pair's key has a bucket and every bucket's key comes from a pair; the keys come in order of first appearance; each bucket holds exactly the ids with its key, in order. |
| LayoutPages.BucketKeysFirstSeen | com.deckassistant.sdPlugin/ui/js/layout-editor.js:580-589 | The bucket keys are exactly the pairs' keys with repeats dropped, in order of first appearance. |
| LayoutPages.BucketsOfKeys | com.deckassistant.sdPlugin/ui/js/layout-editor.js:580-589 | Every bucket key is some pair's key, and the keys are ordered by their first index among the pairs. |
| LayoutPages.BucketsOfIds | com.deckassistant.sdPlugin/ui/js/layout-editor.js:580-589 | No two buckets share a key, and each bucket holds exactly the ids paired with its key, in their order. |
| LayoutPages.BucketsOfCover | com.deckassistant.sdPlugin/ui/js/layout-editor.js:580-589 | Every pair's key has a bucket. |
| LayoutWizard.StepIndex | com.deckassistant.sdPlugin/ui/js/layout-editor.js:750-752 | `findIndex`: the step's position in the step list, or -1 exactly for an unknown id. |
| LayoutWizard.BackMovesEarlier | com.deckassistant.sdPlugin/ui/js/layout-editor.js:965-1014 | Back from any later step lands on a strictly earlier step. |
| LayoutWizard.BackUndoesNext | com.deckassistant.sdPlugin/ui/js/layout-editor.js:965-1101 | Wherever `next` moves, `back` from there returns to the step it came from. |
| LayoutWizard.StepIndexOfStep | com.deckassistant.sdPlugin/ui/js/layout-editor.js:167-247 | The step ids are distinct, so each step's id finds that step. |
| LayoutWizard.FindArea | com.deckassistant.sdPlugin/ui/js/layout-editor.js:1223-1227 | The area found has the id asked for, and none is found only when no area has it. |
| LayoutWizard.AutoGroupName | com.deckassistant.sdPlugin/ui/js/layout-editor.js:592-601 | An area group's name is never empty: the `area?.name || 'Other'` fallback covers a missing area and an unnamed one. |
| LayoutWizard.WizardAreaName | com.deckassistant.sdPlugin/ui/js/layout-editor.js:1140-1150 | A quick-setup group's name is never empty: `Other` for entities without an area, else the area's name, else `Unknown`. |
| LayoutWizard.GroupsFromBuckets | com.deckassistant.sdPlugin/ui/js/layout-editor.js:592-601 | One group per bucket, in order, with consecutive ids and the bucket's ids. |
| LayoutWizard.FinalGroupsNumbered | com.deckassistant.sdPlugin/ui/js/layout-editor.js:1118-1152 | In the groups approach, the final groups are the user's groups in order, with the layout style's kind; in any approach, they have consecutive ids. |
| LayoutWizard.QuickSetupGroups | com.deckassistant.sdPlugin/ui/js/layout-editor.js:1129-1152 | Quick setup gives one group per area bucket of the chosen entities, holding exactly that area's entities. |
| LayoutWizard.LabelAssignmentsSpec | com.deckassistant.sdPlugin/ui/js/layout-editor.js:1175-1207 | The assignments cover exactly the groups' entities in order, and each carries a label that parses back to its group's slug. |
| LayoutWizard.UniqueLabelsSpec | com.deckassistant.sdPlugin/ui/js/layout-editor.js:1191-1192 | The labels to create are the distinct labels of the assignments, none repeated, in the order they first occur, each naming a group's slug. |
| LayoutWizard.FindLabelByName | com.deckassistant.sdPlugin/ui/js/layout-editor.js:1214 | A label found has the name asked for, and none is found only when no label has it. |
| LayoutWizard.AssignRequestsSound | com.deckassistant.sdPlugin/ui/js/layout-editor.js:1209-1221 | Every request pairs a queued entity with the id of a label named as its assignment, and there are never more requests than assignments. |
| LayoutWizard.AssignRequestsComplete | com.deckassistant.sdPlugin/ui/js/layout-editor.js:1209-1221 | When every queued label exists, each assignment gets its request, in queue order. |
| LayoutWizard.GroupSyncLabelsSpec | com.deckassistant.sdPlugin/ui/js/layout-editor.js:1270-1282 | The sync labels cover exactly the grouped entities in order, and the k-th one carries order number k. |
| LayoutLabels.SlugifyIsSlug | com.deckassistant.sdPlugin/ui/js/layout-editor.js:1229-1234 | A slug holds only lower-case letters, digits and single inner underscores, with none at either end. |
| LayoutLabels.SlugifyIdempotent | com.deckassistant.sdPlugin/ui/js/layout-editor.js:1229-1234 | Slugifying a slug changes nothing. |
| LayoutLabels.BuildLabelString | com.deckassistant.sdPlugin/ui/js/layout-editor.js:1305-1307 | Every label built starts with `deck-assistant:`. |
| LayoutLabels.ParseLabelHierarchy | com.deckassistant.sdPlugin/ui/js/layout-editor.js:1312-1315 | A non-label text parses to nothing; a label parses to at least one part, and building from them gives the label back. |
| LayoutLabels.ParseBuildLabel | com.deckassistant.sdPlugin/ui/js/layout-editor.js:1305-1315 | Parsing a built label gives back any non-empty hierarchy whose parts hold no `:`. |
| LayoutLabels.ParseBuildEmpty | com.deckassistant.sdPlugin/ui/js/layout-editor.js:1305-1315 | The empty hierarchy does not come back: it parses to one empty part. |
| LayoutLabels.GroupLabelParses | com.deckassistant.sdPlugin/ui/js/layout-editor.js:1175-1234 | A group's label parses back to the group's slug. |
| LayoutLabels.FormatDomainName | com.deckassistant.sdPlugin/ui/js/layout-editor.js:873-894 | A known domain gets its fixed name; any other keeps its length, with the first letter upper-cased and every later `_` shown as a space. |
| LayoutLabels.GetEntityLabel | com.deckassistant.sdPlugin/ui/js/layout-editor.js:505-510 | A missing entity's caption is empty; otherwise it is the display name, or a proper prefix of it followed by `…`: whole up to 10 characters, the first 9 and `…` beyond. |
| PageModel.EmptyLayout | com.deckassistant.sdPlugin/ui/js/layout-editor.js:280-286 | A `rows` by `cols` grid with every key empty. |
| ProfileIds.ProfileFolderId | src/layout/profile-generator.ts:61-71 | The folder id ends in `Z` and never contains `U`. |
| ProfileIds.Remap | src/layout/profile-generator.ts:66-68 | Upper-cases, then turns `V` into `W` and `U` into `V`, character by character. |
| ProfileIds.RemapDigit | src/layout/profile-generator.ts:64-68 | Each base-32 digit, once remapped, still names that digit uniquely. |
| ProfileIds.PadQuad | src/layout/profile-generator.ts:64-66 | Padding the base-32 text of a five-hex-digit group gives its four-digit form. |
| ProfileIds.QuadRoundTrip | src/layout/profile-generator.ts:64-68 | Every four-digit remapped group decodes back to its value. |
| ProfileIds.GroupRoundTrip | src/layout/profile-generator.ts:62-68 | Every five-hex-digit group decodes back from its remapped four digits. |
| ProfileIds.DecodeEncode | src/layout/profile-generator.ts:62-68 | A whole run of groups decodes back to the hex it encodes. |
| ProfileIds.PaddedEncoding | src/layout/profile-generator.ts:62-70 | The 32 hex digits padded with `000` encode as six whole groups and one group holding the last two digits. |
| ProfileIds.FolderIdLayout | src/layout/profile-generator.ts:61-71 | The folder id is 24 characters for the first 30 hex digits, two for the last two, and `Z`. |
| ProfileIds.DecodeParts | src/layout/profile-generator.ts:61-71 | Decoding a folder id of that layout gives the 30 digits followed by the last two. |
| ProfileIds.FolderIdRoundTrip | src/layout/profile-generator.ts:61-71 | A UUID's folder id has 27 characters, ends in `Z`, and decodes back to the UUID's 32 hex digits. |
| ProfileIds.FolderIdInjective | src/layout/profile-generator.ts:61-71 | Two UUIDs with the same folder id have the same hex digits. |
| ProfileGenerator.PositionKeyInjective | src/layout/profile-generator.ts:98-104 | Different keys of the grid get different `col,row` action keys. |
| ProfileGenerator.BackButtonOnCorner | src/layout/profile-generator.ts:218-230 | The back button sits on the named corner of the grid; an unknown name means bottom-right. |
| ProfileGenerator.BackButtonCornersDistinct | src/layout/profile-generator.ts:218-230 | On a grid of at least 2 by 2, the four corner names give four different keys. |
| ProfileGenerator.IconColor | src/layout/profile-generator.ts:167 | The colour is the domain's configured colour when there is one, and the default otherwise. |
| ProfileGenerator.ButtonTitle | src/layout/profile-generator.ts:185 | A title of at most 12 characters is kept; a longer one is cut to 11 and `…`. |
| ProfileGenerator.CreateEntityButtonAction | src/layout/profile-generator.ts:162-192 | A folder cell is an error; an entity cell becomes an entity-button action with the entity's settings, colour and title. |
| ProfileGenerator.RowActions | src/layout/profile-generator.ts:95-106 | The inner loop records every entity key of the row, or fails exactly when the grid holds a folder cell. |
| ProfileGenerator.PageActions | src/layout/profile-generator.ts:95-106 | The action map has exactly one action per entity key, under its `col,row` key, and fails exactly when the page holds a folder cell. |
| ProfileGenerator.SafeFilename | src/layout/profile-generator.ts:78 | The file name holds only ASCII letters, digits, `_` and `-`. |
| ProfileGenerator.SafeFilenameKeeps | src/layout/profile-generator.ts:78 | A name of ASCII letters, digits and `-` is kept as it is. |
| ProfileGenerator.GenerateProfile | src/layout/profile-generator.ts:76-157 | Fails exactly when the first page holds a folder cell; otherwise the archive holds the two manifests under the UUID and folder-id paths, the first page's actions and the back button, and a safe file name. |
| EntityButton.EntityDomain | src/actions/entity-button.ts:400-401 | The domain is the part of the entity id before its first dot. |
| EntityButton.CaseOf | src/actions/entity-button.ts:407-504 | Each domain falls into exactly one branch of the switch. |
| EntityButton.ServiceCallFor | src/actions/entity-button.ts:382-508 | "none" sends nothing; a custom call with data passes its domain, service and data through; every other call goes to the entity's domain and targets the entity. |
| EntityButton.ExecuteAction | src/actions/entity-button.ts:382-508 | The switch sends exactly the call `ServiceCallFor` describes. |
| EntityButton.ToggleFollowsState | src/actions/entity-button.ts:434-490 | For locks, climate and vacuums, toggle is turn-off when the entity is active and turn-on otherwise. |
| EntityButton.OnOffDistinct | src/actions/entity-button.ts:407-504 | Turn-on and turn-off send different calls in every domain except scenes. |
| EntityButton.OnKeyDown | src/actions/entity-button.ts:119-143 | No entity (outside a custom call) or no connection shows an alert and sends nothing; otherwise the call is sent, with OK on success and an alert on failure. |
| EntityButton.FormatState | src/actions/entity-button.ts:513-533 | A unit is appended; `on`/`off` become `On`/`Off`; the five common states, in any letter case, become their first letter upper-cased and the rest lower-cased; anything else is kept. |
| EntityButton.CapitalizeCommonState | src/actions/entity-button.ts:528-530 | Capitalising a common state keeps its letters, upper-cases the first and lower-cases all the others. |
| EntityButton.FormatStateIgnoresCase | src/actions/entity-button.ts:528-530 | Common states that differ only in case are shown the same way. |
| EntityButton.FallbackTitle | src/actions/entity-button.ts:314-350 | Without an image, the key title is the shown lines (top state, title, bottom state) joined by newlines, except that an empty state on top is dropped (the title is then alone) while an empty state at the bottom still adds a newline. |
| Renderer.EscapeXmlPerChar | src/icons/renderer.ts:219-226 | The five chained replacements equal escaping character by character. |
| Renderer.UnescapeEscape | src/icons/renderer.ts:219-226 | Escaping is undone by unescaping, so no text is lost. |
| Renderer.EscapeXmlSafe | src/icons/renderer.ts:219-226 | Escaped text holds no `<`, `>`, `"` or `'`. |
| Renderer.TruncateText | src/icons/renderer.ts:231-236 | A short text is kept; a longer one keeps its first `maxLength - 1` characters and gains `...`. |
| Renderer.TruncateIdempotent | src/icons/renderer.ts:231-236 | Truncating twice is the same as truncating once. |
| Renderer.KeyLabelSafe | src/icons/renderer.ts:164-197 | A key label cannot break the SVG markup, unescapes to the truncated text, and stands for at most 12 characters. |
| Renderer.DefaultIconForDomain | src/icons/renderer.ts:265-303 | The icon is never empty, and is the domain's listed icon or `home`. |
| Renderer.DefaultIconLookup | src/icons/renderer.ts:265-303 | A listed domain gets its own icon, and any other gets `home`. |
| Renderer.StateOnReference | src/icons/renderer.ts:311-351 | A state is on exactly when it is a common on state, or one its domain's list accepts, or, for any other domain, a positive number. |
| Renderer.CommonStatesOn | src/icons/renderer.ts:312-318 | The common on states count as on in every domain. |
| Renderer.ListedDomainsIgnoreNumbers | src/icons/renderer.ts:320-342 | For the listed domains, numbers do not matter; climate is on unless it is off, unavailable or unknown. |
| Renderer.RenderLayout | src/icons/renderer.ts:103-197 | The icon box and the text baselines are the layout specification's. |
| Renderer.PlaceIcon | src/icons/renderer.ts:103-134 | The icon's size and position follow the text placement. |
| Renderer.PlaceText | src/icons/renderer.ts:164-192 | The title and state baselines follow their placements, with the state moving clear of a title on the same side. |
| Renderer.IconInsideKey | src/icons/renderer.ts:103-134 | The icon always lies inside the key. |
| Renderer.TextClearOfIcon | src/icons/renderer.ts:103-192 | On keys of at least 60 pixels, a single top or bottom line does not overlap the icon. |
| Renderer.TwoTopLinesOverlapIcon | src/icons/renderer.ts:103-192 | On a 144-pixel key with title and state both on top, the state's baseline (38) falls below the icon's top (35). |
| Renderer.TwoTopLinesOverlapBelow240 | src/icons/renderer.ts:103-192 | With title and state both on top, the state's baseline falls below the icon's top on every key smaller than 240 pixels. |
| Renderer.TwoTopLinesClearFrom460 | src/icons/renderer.ts:103-192 | With title and state both on top, the icon starts at or below the state's baseline at 240 pixels and on every key from 460 pixels on. |
| Renderer.TwoTopLinesByHundreds | src/icons/renderer.ts:103-192 | With title and state both on top, the state's baseline lies below the icon's top by the rounding gain of the last hundred pixels, less one pixel per whole hundred. |
| Connection.Add | src/homeassistant/connection.ts:165-177 | `Set.add`: the callback is present afterwards, others keep their order, and no duplicate appears. |
| Connection.Remove | src/homeassistant/connection.ts:165-177 | `Set.delete`: the callback is gone afterwards, others stay, and no duplicate appears. |
| Connection.AddRemove | src/homeassistant/connection.ts:165-177 | Unsubscribing right after subscribing restores the subscriber list. |
| Connection.RemoveAbsent | src/homeassistant/connection.ts:165-177 | Unsubscribing a callback that is not subscribed changes nothing. |
| Connection.StateDeliveries | src/homeassistant/connection.ts:411-421 | Each connection subscriber receives the new state once, in subscription order. |
| Connection.EntityDeliveries | src/homeassistant/connection.ts:369-387 | Each entity subscriber receives the entity map once, in subscription order. |
| Connection.DeckLabels | src/homeassistant/connection.ts:348 | Exactly the labels that start with `deck-assistant:` are kept. |
| Connection.DeckLabelsSpec | src/homeassistant/connection.ts:348 | The filter is label by label, in order: one label is kept exactly when it has the prefix, and a concatenation gives the two kept lists one after the other. |
| Connection.LabelPathAgrees | src/homeassistant/connection.ts:351-354 | The hierarchy read here equals the one the layout editor parses from the same label. |
| Connection.LabelledEntryShape | src/homeassistant/connection.ts:345-361 | A registry entry is reported exactly when it has a deck label, with its id, its deck labels and one hierarchy per label. |
| Connection.LabelledEntriesSound | src/homeassistant/connection.ts:345-361 | Every reported entry comes from a labelled registry entry. |
| Connection.LabelledEntriesComplete | src/homeassistant/connection.ts:345-361 | Every labelled registry entry is reported. |
| Connection.LabelledEntriesSpec | src/homeassistant/connection.ts:345-361 | The result follows registry order: one entry contributes its own labelled entry or nothing, and a concatenation gives the two results one after the other. |
| Connection.NormalizeUrl | src/homeassistant/connection.ts:46 | One trailing slash is removed, and other URLs are kept. |
| Connection.NormalizeOnce | src/homeassistant/connection.ts:46 | Only one slash goes: `base//` becomes `base/`. |
| Connection.HomeAssistantConnection.constructor | src/homeassistant/connection.ts:22-38 | Starts disconnected, with no cached data and no subscribers. |
| Connection.HomeAssistantConnection.IsConnected | src/homeassistant/connection.ts:197-199 | True exactly when the stored state says connected. |
| Connection.HomeAssistantConnection.GetEntity | src/homeassistant/connection.ts:123-125 | The cached entity with that id, if there is one. |
| Connection.HomeAssistantConnection.UpdateConnectionState | src/homeassistant/connection.ts:411-421 | Stores the state and notifies every connection subscriber. |
| Connection.HomeAssistantConnection.HandleEntitiesUpdate | src/homeassistant/connection.ts:369-387 | Replaces the cache and notifies every entity subscriber. |
| Connection.HomeAssistantConnection.SubscribeToEntities | src/homeassistant/connection.ts:165-177 | Adds the callback and sends it the current entities when there are any. |
| Connection.HomeAssistantConnection.UnsubscribeFromEntities | src/homeassistant/connection.ts:165-177 | The returned unsubscribe removes the callback. |
| Connection.HomeAssistantConnection.SubscribeToConnection | src/homeassistant/connection.ts:182-192 | Adds the callback and sends it the current state at once. |
| Connection.HomeAssistantConnection.UnsubscribeFromConnection | src/homeassistant/connection.ts:182-192 | The returned unsubscribe removes the callback. |
| Connection.HomeAssistantConnection.Disconnect | src/homeassistant/connection.ts:85-102 | Drops the entity subscription and the connection, clears every cache, and reports disconnected. |
| Connection.HomeAssistantConnection.Connect | src/homeassistant/connection.ts:43-80 | Opens the normalised URL; on failure, reports the error as disconnected and fails; on success, loads the registries, subscribes to entities, and reports connected. |
| Connection.HomeAssistantConnection.CallService | src/homeassistant/connection.ts:107-118 | Without a connection, it fails with "Not connected" and sends nothing; otherwise it sends the call. |
| Connection.HomeAssistantConnection.CreateLabel | src/homeassistant/connection.ts:287-306 | Without a connection, it fails; otherwise it sends the request and, on success, reloads the labels. |
| Connection.HomeAssistantConnection.AssignLabelsToEntity | src/homeassistant/connection.ts:311-329 | Without a connection, it fails; otherwise it sends the update and, on success, reloads the registry. |
| Connection.HomeAssistantConnection.GetEntitiesWithDeckAssistantLabels | src/homeassistant/connection.ts:334-364 | The loop reports exactly the labelled entries of the registry, in registry order. |
| EntityPicker.Filter | com.deckassistant.sdPlugin/ui/js/entity-button-pi.js:996-1019 | `Array.filter`: exactly the elements passing the test, never more than the input. |
| EntityPicker.FilterSpec | com.deckassistant.sdPlugin/ui/js/entity-button-pi.js:996-1019 | Filtering is element by element, in order: one element is kept exactly when it passes, and a concatenation gives the two filtered parts one after the other. |
| EntityPicker.ObjectIdText | com.deckassistant.sdPlugin/ui/js/entity-button-pi.js:1050-1061 | `split(".")[1]`: the piece between the first and second dot, or "undefined" when there is no dot. |
| EntityPicker.OptionText | com.deckassistant.sdPlugin/ui/js/entity-button-pi.js:1050-1061 | The option starts with the entity's name and ends with ` [state]` when there is a state; when all entities are listed and the device is known, ` - <device>` follows the name and object part; a bare entity shows just its id. |
| EntityPicker.NamedEntityOption | com.homeassistant.streamdeck.sdPlugin/ui/js/entity-button-pi.js:452-458 | A named `domain.object` entity is listed as `name (object) [state]`. |
| EntityPicker.DeviceEntityOption | com.deckassistant.sdPlugin/ui/js/entity-button-pi.js:1050-1061 | Listing all entities, a named `domain.object` entity with a device is shown as `name (object) - device [state]`. |
| EntityPicker.ObjectIdOf | com.homeassistant.streamdeck.sdPlugin/ui/js/entity-button-pi.js:452-458 | The object part of `domain.object` is `object`. |
| EntityPicker.CountText | com.deckassistant.sdPlugin/ui/js/entity-button-pi.js:1024 | The count label is `(`, decimal digits reading back as the count, and `)`. |
| EntityPicker.Reselect | com.deckassistant.sdPlugin/ui/js/entity-button-pi.js:974-976 | A rebuilt dropdown keeps the wanted value when an option has it, and falls back to the empty placeholder otherwise. |
| EntityPicker.RestoreEntity | com.deckassistant.sdPlugin/ui/js/entity-button-pi.js:1068-1076 | The dropdown's value, or the saved id when it was empty, is kept exactly when a new option has it; otherwise nothing is selected. |
| EntityButtonInspector.SearchWords | com.deckassistant.sdPlugin/ui/js/entity-button-pi.js:856-857 | No words come exactly from a blank search, and every word is non-empty and free of white space. |
| EntityButtonInspector.OneWordSearch | com.deckassistant.sdPlugin/ui/js/entity-button-pi.js:856-857 | A search without inner spaces is one word. |
| EntityButtonInspector.WordInSearchText | com.deckassistant.sdPlugin/ui/js/entity-button-pi.js:834-850 | A word is found in the joined search text exactly when one of the five fields contains it. |
| EntityButtonInspector.MatchesIffEachWordInAField | com.deckassistant.sdPlugin/ui/js/entity-button-pi.js:834-850 | An entity matches exactly when every search word is in one of its name, id, device, area or domain. |
| EntityButtonInspector.OneWordMatches | com.deckassistant.sdPlugin/ui/js/entity-button-pi.js:834-850 | A one-word search matches exactly when some field contains the word. |
| EntityButtonInspector.MatchedDeviceIds | com.deckassistant.sdPlugin/ui/js/entity-button-pi.js:865-880 | Exactly the devices of the matching entities. |
| EntityButtonInspector.HasStandalone | com.deckassistant.sdPlugin/ui/js/entity-button-pi.js:865-880 | True exactly when some matching entity has no device. |
| EntityButtonInspector.FilterDevices | com.deckassistant.sdPlugin/ui/js/entity-button-pi.js:855-934 | A device is listed exactly when it passes the area filter and has a matching entity (or matches the words directly); the "no device" option appears exactly when a match has no device; the count counts both. |
| EntityButtonInspector.AllMatchingEntities | com.deckassistant.sdPlugin/ui/js/entity-button-pi.js:921-933 | Exactly the entities matching the search and the filters. |
| EntityButtonInspector.DeviceSelection | com.deckassistant.sdPlugin/ui/js/entity-button-pi.js:939-977 | The chosen device is kept exactly when it is still listed, and the selection is otherwise cleared. |
| EntityButtonInspector.DeviceEntities | com.deckassistant.sdPlugin/ui/js/entity-button-pi.js:982-1025 | No device chosen lists nothing; otherwise exactly the matching entities of that device (or without one). |
| EntityButtonInspector.EntityListedOnce | com.deckassistant.sdPlugin/ui/js/entity-button-pi.js:982-1025 | A matching entity is listed under exactly one device choice: its own, or "no device". |
| EntityButtonInspector.StandaloneOptionIff | com.deckassistant.sdPlugin/ui/js/entity-button-pi.js:883-1019 | The "no device" option is offered exactly when choosing it lists something. |
| EntityButtonInspector.DeviceOfMatchListed | com.deckassistant.sdPlugin/ui/js/entity-button-pi.js:883-907 | The device of a matching entity is listed when it passes the area filter. |
| EntityButtonInspector.TextChange | com.deckassistant.sdPlugin/ui/js/entity-button-pi.js:237-247 | A trimmed `#rrggbb` text updates the picker and is reported; other text reports nothing; the text box shows the picker's colour upper-cased. |
| EntityButtonInspector.UpperColor | com.deckassistant.sdPlugin/ui/js/entity-button-pi.js:232-247 | An upper-cased colour text is still a colour text. |
| EntityButtonInspector.TextChangeSettles | com.deckassistant.sdPlugin/ui/js/entity-button-pi.js:237-247 | A second change event on what the box now shows changes nothing. |
| EntityButtonInspector.ColorInputs.constructor | com.deckassistant.sdPlugin/ui/js/entity-button-pi.js:231-248 | Both inputs start on the saved colour, agreeing, with nothing reported. |
| EntityButtonInspector.ColorInputs.OnPickerInput | com.deckassistant.sdPlugin/ui/js/entity-button-pi.js:232-235 | A picker input shows upper-cased in the text box and is reported; the inputs agree. |
| EntityButtonInspector.ColorInputs.OnTextChange | com.deckassistant.sdPlugin/ui/js/entity-button-pi.js:237-247 | A text change acts as `TextChange`, and the inputs agree afterwards. |
| LegacyEntityButtonInspector.FilterEntities | com.homeassistant.streamdeck.sdPlugin/ui/js/entity-button-pi.js:391-425 | Exactly the entities whose name or id contains the trimmed lower-cased term and that pass the area and domain filters. |
| LegacyEntityButtonInspector.NoFilterListsAll | com.homeassistant.streamdeck.sdPlugin/ui/js/entity-button-pi.js:391-425 | With no term and no filter, every entity is listed in order. |
| LegacyEntityButtonInspector.OneWordFoundByNewer | com.homeassistant.streamdeck.sdPlugin/ui/js/entity-button-pi.js:397-418 | A one-word term this inspector finds is found by the newer inspector too. |
| LegacyEntityButtonInspector.AreaFoundOnlyByNewer | com.homeassistant.streamdeck.sdPlugin/ui/js/entity-button-pi.js:397-418 | A term found only in the area name is found by the newer inspector but not here. |
| LegacyEntityButtonInspector.CheckConnect | com.homeassistant.streamdeck.sdPlugin/ui/js/entity-button-pi.js:232-257 | The form is accepted exactly when both trimmed fields are non-blank and the URL is valid, and then carries the trimmed values; a blank field is the "enter both" error. |
| LegacyEntityButtonInspector.BlankSkipsUrlCheck | com.homeassistant.streamdeck.sdPlugin/ui/js/entity-button-pi.js:236-239 | A blank field decides the outcome whatever the URL check would say. |
| LegacyEntityButtonInspector.ConnectForm.constructor | com.homeassistant.streamdeck.sdPlugin/ui/js/entity-button-pi.js:232-257 | Nothing is stored, shown or sent yet. |
| LegacyEntityButtonInspector.ConnectForm.HandleConnect | com.homeassistant.streamdeck.sdPlugin/ui/js/entity-button-pi.js:232-257 | A rejected form shows its message and changes nothing else; an accepted one stores and saves the trimmed values, shows "connecting", and sends one connect request. |

## Left out

- The DOM, rendering of HTML, event wiring, the Stream Deck SDK, and the WebSocket library. A library call becomes a recorded command, and its reply a parameter.
- `isValidUrl` (a `new URL` try/catch) and `parseFloat` are parameters (`isValidUrl`, `numericPositive`): URL parsing and floating-point parsing are not modelled.
- LayoutEditor.Editor.GenerateId: the script returns a random `id-` string from `Math.random`; the model hands out a counter instead. Ids are therefore always distinct, and a collision of random ids is not modelled. Page and group ids are numbers in the model.
- `uuidv4` in `generateProfile` is a parameter that must have the UUID shape.
- JSZip and base64: the profile archive is a map from path to file contents; compression and encoding are not modelled.
- `Math.floor(size * 0.55)` and the other layout factors are integer quotients (`size * 55 / 100`), which agree with the floating-point result on whole-pixel sizes.
- Case mapping (`toLowerCase`, `toUpperCase`) is ASCII only: letters outside `A`-`Z` and `a`-`z` keep their case. White space (`\s`, `trim`) is JavaScript's full set, including the Unicode space separators.
- `Object.entries` lists integer-like keys before the others; the area buckets keep first-appearance order for every key, which is the script's order for Home Assistant's slug-shaped area ids.
- Sorting by `localeCompare` (the wizard's area and entity lists) is display order only; the model keeps input order.
- The device option text of the newer inspector, and the area and domain option lists, are display only.
- LayoutEditor.Editor.SaveGroupLabels: the half-second wait before queuing and the one-second timer that runs `processPendingLabelAssignments` are not modelled; the two steps are separate methods, and the labels `haLabels` holds when the timer fires are a parameter of the second.
- Icon fetching from the CDN, the icon cache, and the SVG path itself: only the geometry and the escaped text are modelled.
- `pendingLabelAssignments` is `null` in the script before the first save and after processing; the model uses the empty list, which processing treats the same way (nothing is sent).
- A colour `<input>` normalises what it is given; the model's picker takes the text as it is.
- ProfileGenerator.ButtonTitle: lengths count Unicode characters, while JavaScript's `length` and `substring` count UTF-16 code units; a title with characters outside the Basic Multilingual Plane (emoji) is cut at a different place.
- LayoutLabels.GetEntityLabel: counts Unicode characters rather than UTF-16 code units, as for `ButtonTitle`.
- Renderer.TruncateText: counts Unicode characters rather than UTF-16 code units, as for `ButtonTitle`.
- EntityButton.FallbackTitle: the text for an empty display title is not stated; the display title falls back to the entity id, which is never empty.
- `hideError` in the older inspector hides the message but keeps its text; the model's `error` becomes `None` on success.
- CreatePagesForEntities: requires `cols*rows >= 2`. With a single key, `cellsPerPage - 1` is 0 and the script's loop never ends, so that input is excluded rather than modelled.
- LayoutEditor.Editor.AutoLayout: the model has no exceptions. The `TypeError` at line 650 becomes `ok == false`. The pages and id counter are left as far as the pass got, and the current page is unchanged, as the script leaves them.
