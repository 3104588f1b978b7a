/**
  The page layout shared by the layout editor (which builds it) and the
  profile generator (which reads it back as JSON): pages of `rows × cols`
  cells, each empty, an entity button or a folder button.
 */
module PageModel {
  import opened Wrappers

  /** An entity record; the empty string stands for an absent optional field. */
  datatype Entity = Entity(entityId: string, domain: string, friendlyName: string, areaId: string)

  /** Page identifiers come from a fresh-id supply, modelled as a counter. */
  type PageId = nat

  datatype Cell =
    | Empty
    | EntityCell(entity: Entity)
    | FolderCell(name: string, targetPageId: Option<PageId>)

  datatype Page = Page(id: PageId, name: string, layout: seq<seq<Cell>>)

  /** `createEmptyLayout`: `rows` rows of `cols` empty cells. */
  function EmptyLayout(cols: nat, rows: nat): (layout: seq<seq<Cell>>)
    ensures IsGrid(layout, cols, rows)
    ensures forall r, c :: 0 <= r < rows && 0 <= c < cols ==> layout[r][c] == Empty
  {
    seq(rows, r => seq(cols, c => Empty))
  }

  /** The layout has exactly `rows` rows of exactly `cols` cells. */
  ghost predicate IsGrid(layout: seq<seq<Cell>>, cols: nat, rows: nat) {
    |layout| == rows && forall r :: 0 <= r < rows ==> |layout[r]| == cols
  }

  /** `layout[row]?.[col]`, with a missing row or column read as an empty cell. */
  function CellAt(layout: seq<seq<Cell>>, row: nat, col: nat): Cell {
    if row < |layout| && col < |layout[row]| then layout[row][col] else Empty
  }
}
