/**
  The profile serialiser: the `"col,row"` action map built from the first
  page of the layout, the back button written over one corner, the two
  manifests of a `.streamDeckProfile` archive and the file name it is
  offered under.
 */
module ProfileGenerator {
  import opened Wrappers
  import opened Strings
  import opened PageModel
  import opened LayoutLabels
  import opened ProfileIds

  // ---------------------------------------------------------------- data

  datatype ActionSettings =
    | EntitySettings(entityId: string, domain: string, friendlyName: string, iconSource: string,
                     iconColor: string, backgroundColor: string, showTitle: bool, showState: bool)
    | BackSettings(deviceUuid: int)

  datatype ActionState = ActionState(title: string, titleAlignment: string, showTitle: bool)

  /** One key of the Stream Deck profile. */
  datatype ProfileAction = ProfileAction(name: string, settings: ActionSettings, state: int,
                                         states: seq<ActionState>, uuid: string)

  datatype Theme = Theme(backgroundColor: string, backButtonPosition: string)

  datatype Device = Device(model: string, cols: int, rows: int)

  datatype ProfileConfig = ProfileConfig(name: string, device: Device, pages: seq<Page>, theme: Theme,
                                         domainColors: map<string, string>)

  datatype Controller = Controller(actions: map<string, ProfileAction>, kind: string)

  /** The two manifests of the archive, before `JSON.stringify`. */
  datatype Manifest =
    | ProfileManifest(controllers: seq<Controller>)
    | TopManifest(name: string, current: string, pages: seq<string>, version: string)

  /** The archive as a map from path to manifest, and the name it is offered under. */
  datatype GeneratedProfile = GeneratedProfile(files: map<string, Manifest>, filename: string)

  const DefaultIconColor: string := "#888888"
  const EntityButtonUuid: string := "com.deckassistant.entity-button"
  const ProfileExtension: string := ".streamDeckProfile"

  // ---------------------------------------------------------------- positions

  /** `${col},${row}`: the key of a cell in the action map. */
  function PositionKey(col: int, row: int): string {
    IntToString(col) + "," + IntToString(row)
  }

  /** Different cells have different keys. */
  lemma PositionKeyInjective(c1: int, r1: int, c2: int, r2: int)
    requires PositionKey(c1, r1) == PositionKey(c2, r2)
    ensures c1 == c2 && r1 == r2
  {
    var a1, b1, a2, b2 := IntToString(c1), IntToString(r1), IntToString(c2), IntToString(r2);
    assert ',' !in a1 && ',' !in b1 && ',' !in a2 && ',' !in b2;
    assert Join([a1, b1], [',']) == PositionKey(c1, r1);
    assert Join([a2, b2], [',']) == PositionKey(c2, r2);
    SplitJoin([a1, b1], ',');
    SplitJoin([a2, b2], ',');
    IntToStringInjective(c1, c2);
    IntToStringInjective(r1, r2);
  }

  /** `getBackButtonPosition`: the cell of a named corner; any other name means bottom-right. */
  function BackButtonCell(position: string, cols: int, rows: int): (cell: (int, int))
  {
    match position
    case "top-left" => (0, 0)
    case "top-right" => (cols - 1, 0)
    case "bottom-left" => (0, rows - 1)
    case _ => (cols - 1, rows - 1)
  }

  function GetBackButtonPosition(position: string, cols: int, rows: int): string {
    PositionKey(BackButtonCell(position, cols, rows).0, BackButtonCell(position, cols, rows).1)
  }

  const CornerNames: set<string> := {"top-left", "top-right", "bottom-left", "bottom-right"}

  /**
    On a grid of at least one key the back button sits on a corner of the
    grid; an unknown name is read as bottom-right.
   */
  lemma BackButtonOnCorner(position: string, cols: int, rows: int)
    requires cols >= 1 && rows >= 1
    ensures var (c, r) := BackButtonCell(position, cols, rows);
      0 <= c < cols && 0 <= r < rows && (c == 0 || c == cols - 1) && (r == 0 || r == rows - 1)
    ensures position !in CornerNames ==> BackButtonCell(position, cols, rows) == (cols - 1, rows - 1)
  {
  }

  /** On a grid of at least 2×2 the four corner names give four different keys. */
  lemma BackButtonCornersDistinct(p1: string, p2: string, cols: int, rows: int)
    requires cols >= 2 && rows >= 2
    requires p1 in CornerNames && p2 in CornerNames && p1 != p2
    ensures GetBackButtonPosition(p1, cols, rows) != GetBackButtonPosition(p2, cols, rows)
  {
    var (c1, r1) := BackButtonCell(p1, cols, rows);
    var (c2, r2) := BackButtonCell(p2, cols, rows);
    if GetBackButtonPosition(p1, cols, rows) == GetBackButtonPosition(p2, cols, rows) {
      PositionKeyInjective(c1, r1, c2, r2);
      assert false;
    }
  }

  // ---------------------------------------------------------------- actions

  /** `domainColors[domain] || '#888888'`. */
  function IconColor(domain: string, colors: map<string, string>): (color: string)
    ensures color != ""
    ensures domain in colors && colors[domain] != "" ==> color == colors[domain]
    ensures color != DefaultIconColor ==> domain in colors && colors[domain] == color
  {
    if domain in colors && colors[domain] != "" then colors[domain] else DefaultIconColor
  }

  /** The key title: a name of at most 12 characters whole, a longer one as 11 characters and `…`. */
  function ButtonTitle(name: string): (title: string)
    ensures |title| <= 12
    ensures |name| <= 12 ==> title == name
    ensures |name| > 12 ==> |title| == 12 && title[..11] == name[..11] && title[11] == '…'
  {
    if |name| > 12 then name[..11] + "…" else name
  }

  /** The entity button a non-empty entity cell becomes. */
  function EntityButton(e: Entity, colors: map<string, string>, theme: Theme): ProfileAction {
    var name := DisplayName(e);
    ProfileAction(name,
      EntitySettings(e.entityId, e.domain, name, "domain", IconColor(e.domain, colors), theme.backgroundColor, true, true),
      0, [ActionState(ButtonTitle(name), "bottom", true)], EntityButtonUuid)
  }

  /**
    `createEntityButtonAction`, called on every non-empty cell. A folder
    cell has neither `friendly_name` nor `entity_id`, so reading the length
    of its name throws: that is the error here.
   */
  function CreateEntityButtonAction(cell: Cell, colors: map<string, string>, theme: Theme): (r: Result<ProfileAction, string>)
    requires cell != Empty
    ensures r.Err? <==> cell.FolderCell?
    ensures r.Ok? ==>
      && r.value.uuid == EntityButtonUuid && r.value.name == DisplayName(cell.entity)
      && r.value.settings.EntitySettings? && r.value.settings.entityId == cell.entity.entityId
      && |r.value.states| == 1 && |r.value.states[0].title| <= 12
  {
    match cell
    case FolderCell(_, _) => Err("Cannot read properties of undefined (reading 'length')")
    case EntityCell(e) => Ok(EntityButton(e, colors, theme))
  }

  /** `createBackToDefaultAction`. */
  const BackToDefaultAction: ProfileAction :=
    ProfileAction("Back", BackSettings(0), 0, [ActionState("← Back", "middle", true)],
                  "com.elgato.streamdeck.profile.backtoparent")

  // ---------------------------------------------------------------- the action map

  predicate InGrid(col: int, row: int, cols: int, rows: int) {
    0 <= col < cols && 0 <= row < rows
  }

  ghost predicate IsGridKey(key: string, cols: int, rows: int) {
    exists c, r :: InGrid(c, r, cols, rows) && key == PositionKey(c, r)
  }

  ghost predicate HasFolderCell(layout: seq<seq<Cell>>, cols: int, rows: int) {
    exists c, r :: InGrid(c, r, cols, rows) && CellAt(layout, r, c).FolderCell?
  }

  /** Cell `(c, r)` comes before `(col, row)` in row-major order. */
  predicate Before(c: int, r: int, col: int, row: int) {
    r < row || (r == row && c < col)
  }

  /**
    The entity part of the action map, once the cells before `(col, row)`
    have been visited: one key per visited non-empty cell of the grid, and
    no other key.
   */
  ghost predicate CellActionsUpTo(actions: map<string, ProfileAction>, layout: seq<seq<Cell>>, cols: int, rows: int,
                                  colors: map<string, string>, theme: Theme, col: int, row: int)
  {
    && (forall key :: key in actions ==> IsGridKey(key, cols, rows))
    && (forall c, r :: InGrid(c, r, cols, rows) ==>
          (PositionKey(c, r) in actions <==> Before(c, r, col, row) && CellAt(layout, r, c) != Empty))
    && (forall c, r :: InGrid(c, r, cols, rows) && Before(c, r, col, row) && CellAt(layout, r, c).EntityCell? ==>
          PositionKey(c, r) in actions && actions[PositionKey(c, r)] == EntityButton(CellAt(layout, r, c).entity, colors, theme))
    && (forall c, r :: InGrid(c, r, cols, rows) && Before(c, r, col, row) ==> !CellAt(layout, r, c).FolderCell?)
  }

  /** The entity part of the action map once every cell of the grid has been visited. */
  ghost predicate CellActions(actions: map<string, ProfileAction>, layout: seq<seq<Cell>>, cols: int, rows: int,
                              colors: map<string, string>, theme: Theme)
  {
    CellActionsUpTo(actions, layout, cols, rows, colors, theme, 0, if rows < 0 then 0 else rows)
  }

  /** Recording the action of cell `(col, row)` extends the map by that cell. */
  lemma RecordCell(actions: map<string, ProfileAction>, layout: seq<seq<Cell>>, cols: int, rows: int,
                   colors: map<string, string>, theme: Theme, col: int, row: int)
    requires InGrid(col, row, cols, rows) && CellAt(layout, row, col).EntityCell?
    requires CellActionsUpTo(actions, layout, cols, rows, colors, theme, col, row)
    ensures CellActionsUpTo(actions[PositionKey(col, row) := EntityButton(CellAt(layout, row, col).entity, colors, theme)],
                            layout, cols, rows, colors, theme, col + 1, row)
  {
    var key := PositionKey(col, row);
    forall c, r | InGrid(c, r, cols, rows) && PositionKey(c, r) == key
      ensures c == col && r == row
    {
      PositionKeyInjective(c, r, col, row);
    }
  }

  /** Past the last column of a row, the visited cells are exactly the rows up to this one. */
  lemma NextRow(actions: map<string, ProfileAction>, layout: seq<seq<Cell>>, cols: int, rows: int,
                colors: map<string, string>, theme: Theme, col: int, row: int)
    requires col >= cols && CellActionsUpTo(actions, layout, cols, rows, colors, theme, col, row)
    ensures CellActionsUpTo(actions, layout, cols, rows, colors, theme, 0, row + 1)
  {
  }

  /** The inner loop of `generateProfile`: the cells of one row, left to right. */
  method RowActions(actions: map<string, ProfileAction>, layout: seq<seq<Cell>>, cols: int, rows: int,
                    colors: map<string, string>, theme: Theme, row: int)
    returns (r: Result<map<string, ProfileAction>, string>)
    requires 0 <= row < rows
    requires CellActionsUpTo(actions, layout, cols, rows, colors, theme, 0, row)
    ensures r.Err? ==> HasFolderCell(layout, cols, rows)
    ensures r.Ok? ==> CellActionsUpTo(r.value, layout, cols, rows, colors, theme, 0, row + 1)
  {
    var acc := actions;
    var col := 0;
    while col < cols
      invariant 0 <= col && (col <= cols || col == 0)
      invariant CellActionsUpTo(acc, layout, cols, rows, colors, theme, col, row)
    {
      var cell := CellAt(layout, row, col);
      if cell != Empty {
        var action := CreateEntityButtonAction(cell, colors, theme);
        if action.Err? {
          assert InGrid(col, row, cols, rows);
          return Err(action.error);
        }
        RecordCell(acc, layout, cols, rows, colors, theme, col, row);
        acc := acc[PositionKey(col, row) := action.value];
      }
      col := col + 1;
    }
    NextRow(acc, layout, cols, rows, colors, theme, col, row);
    r := Ok(acc);
  }

  /**
    The loop of `generateProfile` over the first page: every cell of the
    `rows × cols` grid in row-major order, each non-empty one turned into an
    action under its `"col,row"` key. A folder cell makes the whole
    generation fail.
   */
  method PageActions(layout: seq<seq<Cell>>, cols: int, rows: int, colors: map<string, string>, theme: Theme)
    returns (r: Result<map<string, ProfileAction>, string>)
    ensures r.Err? <==> HasFolderCell(layout, cols, rows)
    ensures r.Ok? ==> CellActions(r.value, layout, cols, rows, colors, theme)
  {
    var actions: map<string, ProfileAction> := map[];
    var row := 0;
    while row < rows
      invariant 0 <= row && (row <= rows || row == 0)
      invariant CellActionsUpTo(actions, layout, cols, rows, colors, theme, 0, row)
    {
      var rowActions := RowActions(actions, layout, cols, rows, colors, theme, row);
      if rowActions.Err? {
        return Err(rowActions.error);
      }
      actions := rowActions.value;
      row := row + 1;
    }
    r := Ok(actions);
  }

  // ---------------------------------------------------------------- the archive

  /** `name.replace(/[^a-zA-Z0-9\s-]/g, '').replace(/\s+/g, '_')`. */
  function SafeFilename(name: string): (safe: string)
    ensures forall i :: 0 <= i < |safe| ==> IsFilenameChar(safe[i])
  {
    var kept := RemoveAll(name, NotNameChar);
    RemoveAllChars(name, NotNameChar);
    ReplaceRunsChars(kept, WhiteSpace, '_');
    ReplaceRunsFrom(kept, WhiteSpace, '_');
    ReplaceRuns(kept, WhiteSpace, '_')
  }

  predicate IsFilenameChar(c: char) {
    IsLowerAscii(c) || IsUpperAscii(c) || IsDigit(c) || c == '_' || c == '-'
  }

  /**
    A name made of ASCII letters, digits and `-` is kept as it is. (An `_`
    is not kept: the first replacement removes it, so sanitising a
    sanitised name can change it again.)
   */
  lemma SafeFilenameKeeps(name: string)
    requires forall i :: 0 <= i < |name| ==> IsLowerAscii(name[i]) || IsUpperAscii(name[i]) || IsDigit(name[i]) || name[i] == '-'
    ensures SafeFilename(name) == name
  {
    assert forall i :: 0 <= i < |name| ==> !InClass(name[i], NotNameChar) && !InClass(name[i], WhiteSpace);
    RemoveAllNone(name, NotNameChar);
    ReplaceRunsNone(name, WhiteSpace, '_');
  }

  function ProfileFolderName(profileUuid: string): string { profileUuid + ".sdProfile" }

  function TopManifestPath(profileUuid: string): string { ProfileFolderName(profileUuid) + "/manifest.json" }

  function ActionsManifestPath(profileUuid: string): string
    requires IsUuid(profileUuid)
  {
    LowerHexIsHex(RemoveAll(profileUuid, Dash));
    ProfileFolderName(profileUuid) + "/Profiles/" + ProfileFolderId(profileUuid) + "/manifest.json"
  }

  /**
    The action map `generateProfile` writes: the back button under its key,
    and for every other cell of the grid a key exactly when the cell is not
    empty, holding that entity's button; no key outside the grid but the
    back button's.
   */
  ghost predicate IsProfileActions(actions: map<string, ProfileAction>, layout: seq<seq<Cell>>, cols: int, rows: int,
                                   colors: map<string, string>, theme: Theme, back: string)
  {
    && back in actions && actions[back] == BackToDefaultAction
    && (forall key :: key in actions ==> key == back || IsGridKey(key, cols, rows))
    && (forall c, r :: InGrid(c, r, cols, rows) && PositionKey(c, r) != back ==>
          (PositionKey(c, r) in actions <==> CellAt(layout, r, c) != Empty))
    && (forall c, r :: InGrid(c, r, cols, rows) && PositionKey(c, r) != back && CellAt(layout, r, c).EntityCell? ==>
          actions[PositionKey(c, r)] == EntityButton(CellAt(layout, r, c).entity, colors, theme))
  }

  /**
    What `generateProfile` produces: the top manifest names the profile and
    lists exactly one page, the UUID that names the `.sdProfile` folder; the
    page manifest holds one keypad controller whose actions come from the
    first page only; the file name is the sanitised profile name with the
    `.streamDeckProfile` extension.
   */
  ghost predicate IsGeneratedProfile(p: GeneratedProfile, config: ProfileConfig, profileUuid: string)
    requires IsUuid(profileUuid)
  {
    var cols, rows := config.device.cols, config.device.rows;
    var layout := if |config.pages| > 0 then config.pages[0].layout else [];
    var back := GetBackButtonPosition(config.theme.backButtonPosition, cols, rows);
    var top, page := TopManifestPath(profileUuid), ActionsManifestPath(profileUuid);
    && p.files.Keys == {top, page}
    && p.files[top] == TopManifest(config.name, profileUuid, [profileUuid], "2.0")
    && p.files[page].ProfileManifest? && |p.files[page].controllers| == 1
    && p.files[page].controllers[0].kind == "Keypad"
    && IsProfileActions(p.files[page].controllers[0].actions, layout, cols, rows, config.domainColors, config.theme, back)
    && p.filename == SafeFilename(config.name) + ProfileExtension
  }

  /**
    `generateProfile` with the UUID `uuidv4` would draw passed in. The
    archive fails only when the first page holds a folder button.
   */
  method GenerateProfile(config: ProfileConfig, profileUuid: string) returns (r: Result<GeneratedProfile, string>)
    requires IsUuid(profileUuid)
    ensures r.Err? <==> |config.pages| > 0 && HasFolderCell(config.pages[0].layout, config.device.cols, config.device.rows)
    ensures r.Ok? ==> IsGeneratedProfile(r.value, config, profileUuid)
  {
    var cols, rows := config.device.cols, config.device.rows;
    var safeFilename := SafeFilename(config.name);
    var actions: map<string, ProfileAction> := map[];
    if |config.pages| > 0 {
      var pageActions := PageActions(config.pages[0].layout, cols, rows, config.domainColors, config.theme);
      if pageActions.Err? {
        return Err(pageActions.error);
      }
      actions := pageActions.value;
    }
    var back := GetBackButtonPosition(config.theme.backButtonPosition, cols, rows);
    actions := actions[back := BackToDefaultAction];
    var manifest := ProfileManifest([Controller(actions, "Keypad")]);
    var topManifest := TopManifest(config.name, profileUuid, [profileUuid], "2.0");
    var files := map[ActionsManifestPath(profileUuid) := manifest, TopManifestPath(profileUuid) := topManifest];
    r := Ok(GeneratedProfile(files, safeFilename + ProfileExtension));
  }
}
