/**
  The page-building rules of the layout editor as functions: how a list of
  entities is cut into pages and placed row-major, how the automatic layout
  combines groups into pages and folder buttons, and how selected entities
  are bucketed by area. The editor's methods are proved against these.
 */
module LayoutPages {
  import opened Wrappers
  import opened Strings
  import opened PageModel
  import opened Arithmetic
  import opened LayoutSelection

  datatype GroupKind = FolderGroup | PageGroup

  /** A group of entity ids; `FolderGroup` is shown behind a folder button of the main page. */
  datatype Group = Group(id: nat, name: string, kind: GroupKind, entities: seq<string>)

  // ---------------------------------------------------------------- entity lookup

  /** `getEntityById`: the first entity with the id, if any. */
  function FindEntity(all: seq<Entity>, id: string): (r: Option<Entity>)
    ensures r.Some? ==> r.value in all && r.value.entityId == id
    ensures r.None? ==> forall e :: e in all ==> e.entityId != id
  {
    if all == [] then None
    else if all[0].entityId == id then Some(all[0])
    else FindEntity(all[1..], id)
  }

  /** `ids.map(getEntityById).filter(Boolean)`: the known entities among `ids`, in order. */
  function ResolveEntities(all: seq<Entity>, ids: seq<string>): (r: seq<Entity>)
    ensures |r| <= |ids|
    ensures forall e :: e in r ==> e in all
    decreases |ids|
  {
    if ids == [] then []
    else
      var rest := ResolveEntities(all, ids[1..]);
      match FindEntity(all, ids[0])
      case Some(e) => [e] + rest
      case None => rest
  }

  /**
    Resolving is done id by id: one id gives its entity or nothing, and the
    ids of a concatenation resolve to the two resolutions one after the other.
   */
  lemma {:induction false} ResolveEntitiesSpec(all: seq<Entity>, a: seq<string>, b: seq<string>)
    ensures ResolveEntities(all, a + b) == ResolveEntities(all, a) + ResolveEntities(all, b)
    ensures |a| == 1 ==> ResolveEntities(all, a) == (if FindEntity(all, a[0]).Some? then [FindEntity(all, a[0]).value] else [])
    decreases |a|
  {
    if a != [] {
      var ab := a + b;
      assert ab[0] == a[0] && ab[1..] == a[1..] + b;
      ResolveEntitiesSpec(all, a[1..], b);
      var head := match FindEntity(all, a[0]) case Some(e) => [e] case None => [];
      assert ResolveEntities(all, ab) == head + ResolveEntities(all, a[1..] + b);
      assert ResolveEntities(all, a) == head + ResolveEntities(all, a[1..]);
      if |a| == 1 {
        assert a[1..] == [];
      }
    } else {
      assert a + b == b;
    }
  }

  // ---------------------------------------------------------------- row-major placement

  function CellOf(items: seq<Entity>, k: nat): Cell {
    if k < |items| then EntityCell(items[k]) else Empty
  }

  function Row(items: seq<Entity>, base: nat, cols: nat): seq<Cell> {
    seq(cols, c requires 0 <= c < cols => CellOf(items, base + c))
  }

  /** A `rows × cols` grid holding `items` in row-major order, the rest empty. */
  function PlaceRowMajor(items: seq<Entity>, cols: nat, rows: nat): (layout: seq<seq<Cell>>)
    ensures IsGrid(layout, cols, rows)
  {
    seq(rows, r requires 0 <= r < rows => Row(items, r * cols, cols))
  }

  lemma PlaceNothing(cols: nat, rows: nat)
    ensures PlaceRowMajor([], cols, rows) == EmptyLayout(cols, rows)
  {
    forall r | 0 <= r < rows
      ensures PlaceRowMajor([], cols, rows)[r] == EmptyLayout(cols, rows)[r]
    {
      forall c | 0 <= c < cols
        ensures Row([], r * cols, cols)[c] == EmptyLayout(cols, rows)[r][c]
      {
        assert Row([], r * cols, cols)[c] == CellOf([], r * cols + c);
      }
    }
  }

  lemma RowMajorIndex(k: nat, cols: nat, rows: nat)
    requires cols >= 1 && k < cols * rows
    ensures k / cols < rows && (k / cols) * cols + k % cols == k
  {
    if k / cols >= rows {
      MulLe(rows, k / cols, cols);
      assert false;
    }
  }

  /** Placing one more item writes exactly the cell at row `k / cols`, column `k % cols`. */
  lemma PlaceOneMore(items: seq<Entity>, k: nat, cols: nat, rows: nat)
    requires cols >= 1 && k < |items| && k < cols * rows
    ensures k / cols < rows
    ensures PlaceRowMajor(items[..k + 1], cols, rows) ==
      PlaceRowMajor(items[..k], cols, rows)[k / cols :=
        PlaceRowMajor(items[..k], cols, rows)[k / cols][k % cols := EntityCell(items[k])]]
  {
    RowMajorIndex(k, cols, rows);
    var a := PlaceRowMajor(items[..k + 1], cols, rows);
    var b := PlaceRowMajor(items[..k], cols, rows);
    var row, col := k / cols, k % cols;
    var b' := b[row := b[row][col := EntityCell(items[k])]];
    forall r | 0 <= r < rows
      ensures a[r] == b'[r]
    {
      if r == row {
        forall c | 0 <= c < cols
          ensures a[r][c] == b'[r][c]
        {
          if c != col {
            assert r * cols + c != k;
            assert a[r][c] == CellOf(items[..k + 1], r * cols + c);
            assert b[r][c] == CellOf(items[..k], r * cols + c);
          }
        }
      } else {
        forall c | 0 <= c < cols
          ensures a[r][c] == b[r][c]
        {
          if r * cols + c == k {
            DivUnique(k, cols, r, c);
          }
          assert a[r][c] == CellOf(items[..k + 1], r * cols + c);
          assert b[r][c] == CellOf(items[..k], r * cols + c);
        }
      }
    }
  }

  /** The k-th item sits at row `k / cols`, column `k % cols`. */
  lemma PlacedAt(items: seq<Entity>, k: nat, cols: nat, rows: nat)
    requires cols >= 1 && k < |items| && k < cols * rows
    ensures k / cols < rows && PlaceRowMajor(items, cols, rows)[k / cols][k % cols] == EntityCell(items[k])
  {
    RowMajorIndex(k, cols, rows);
    var r, c := k / cols, k % cols;
    assert PlaceRowMajor(items, cols, rows)[r] == Row(items, r * cols, cols);
    assert Row(items, r * cols, cols)[c] == CellOf(items, r * cols + c);
  }

  /** With fewer items than cells, the last cell of the grid stays empty. */
  lemma LastCellEmpty(items: seq<Entity>, cols: nat, rows: nat)
    requires cols >= 1 && rows >= 1 && |items| < cols * rows
    ensures PlaceRowMajor(items, cols, rows)[rows - 1][cols - 1] == Empty
  {
    MulSucc(rows - 1, cols);
    assert cols * rows == rows * cols;
    assert PlaceRowMajor(items, cols, rows)[rows - 1][cols - 1] == CellOf(items, (rows - 1) * cols + (cols - 1));
  }

  // ---------------------------------------------------------------- reading a layout back

  function RowOccupants(row: seq<Cell>): seq<Entity>
    decreases |row|
  {
    if row == [] then []
    else
      RowOccupants(row[..|row| - 1]) +
      (match row[|row| - 1] case EntityCell(e) => [e] case _ => [])
  }

  /** The entities of a layout read row by row, left to right. */
  function Occupants(layout: seq<seq<Cell>>): seq<Entity>
    decreases |layout|
  {
    if layout == [] then [] else Occupants(layout[..|layout| - 1]) + RowOccupants(layout[|layout| - 1])
  }

  function Min(a: int, b: int): int { if a <= b then a else b }

  lemma {:induction false} RowOccupantsOfRow(items: seq<Entity>, base: nat, n: nat)
    ensures RowOccupants(Row(items, base, n)) == items[Min(base, |items|)..Min(base + n, |items|)]
    decreases n
  {
    if n > 0 {
      var row := Row(items, base, n);
      assert row[..n - 1] == Row(items, base, n - 1);
      RowOccupantsOfRow(items, base, n - 1);
      var lo := Min(base, |items|);
      assert row[n - 1] == CellOf(items, base + n - 1);
      if base + n - 1 < |items| {
        assert items[lo..base + n - 1] + [items[base + n - 1]] == items[lo..base + n];
      }
    }
  }

  /** Reading a placed grid back gives the items that fit, in their order. */
  lemma {:induction false} OccupantsOfPlaced(items: seq<Entity>, cols: nat, rows: nat)
    ensures Occupants(PlaceRowMajor(items, cols, rows)) == items[..Min(|items|, rows * cols)]
    decreases rows
  {
    if rows > 0 {
      var layout := PlaceRowMajor(items, cols, rows);
      var lo := (rows - 1) * cols;
      MulSucc(rows - 1, cols);
      assert layout[..rows - 1] == PlaceRowMajor(items, cols, rows - 1);
      assert layout[rows - 1] == Row(items, lo, cols);
      OccupantsOfPlaced(items, cols, rows - 1);
      RowOccupantsOfRow(items, lo, cols);
      var m, n := Min(|items|, lo), Min(|items|, lo + cols);
      assert items[..m] + items[m..n] == items[..n];
    }
  }

  // ---------------------------------------------------------------- createPagesForEntities

  /** Entities per page: one cell of every page is kept free for navigation. */
  function Capacity(cols: nat, rows: nat): int { cols * rows - 1 }

  /** The first page carries the base name, page k (from 0) the base name and `k + 1`. */
  function PageName(baseName: string, k: nat): string {
    if k == 0 then baseName else baseName + " " + NatToString(k + 1)
  }

  /**
    The pages `createPagesForEntities` builds from `items`, the first of them
    being page number `k` of the run and getting the id `firstId`.
   */
  function PagesFor(items: seq<Entity>, cols: nat, rows: nat, baseName: string, firstId: nat, k: nat): (pages: seq<Page>)
    requires items == [] || Capacity(cols, rows) >= 1
    ensures forall i :: 0 <= i < |pages| ==> pages[i].id == firstId + i
    decreases |items|
  {
    if items == [] then []
    else
      var n := Min(Capacity(cols, rows), |items|);
      [Page(firstId, PageName(baseName, k), PlaceRowMajor(items[..n], cols, rows))]
        + PagesFor(items[n..], cols, rows, baseName, firstId + 1, k + 1)
  }

  /** Pages built so far, one more page, then the pages of what is left: still the same pages. */
  lemma PagesForStep(done: seq<Page>, items: seq<Entity>, cols: nat, rows: nat, baseName: string,
                     firstId: nat, n: nat, whole: seq<Page>)
    requires items != [] && Capacity(cols, rows) >= 1
    requires n == Min(Capacity(cols, rows), |items|)
    requires done + PagesFor(items, cols, rows, baseName, firstId, |done|) == whole
    ensures (done + [Page(firstId, PageName(baseName, |done|), PlaceRowMajor(items[..n], cols, rows))])
      + PagesFor(items[n..], cols, rows, baseName, firstId + 1, |done| + 1) == whole
  {
    var page := Page(firstId, PageName(baseName, |done|), PlaceRowMajor(items[..n], cols, rows));
    var later := PagesFor(items[n..], cols, rows, baseName, firstId + 1, |done| + 1);
    assert PagesFor(items, cols, rows, baseName, firstId, |done|) == [page] + later;
    assert (done + [page]) + later == done + ([page] + later);
  }

  /** `ceil(|items| / capacity)` pages: none for no entities. */
  lemma {:induction false} PagesForCount(items: seq<Entity>, cols: nat, rows: nat, baseName: string, firstId: nat, k: nat)
    requires Capacity(cols, rows) >= 1
    ensures |PagesFor(items, cols, rows, baseName, firstId, k)| ==
      (|items| + Capacity(cols, rows) - 1) / Capacity(cols, rows)
    decreases |items|
  {
    var cap := Capacity(cols, rows);
    if items != [] {
      var n := Min(cap, |items|);
      PagesForCount(items[n..], cols, rows, baseName, firstId + 1, k + 1);
      if |items| <= cap {
        DivUnique(|items| + cap - 1, cap, 1, |items| - 1);
        assert (|items| - n + cap - 1) / cap == 0;
      } else {
        DivPlus(|items| - cap + cap - 1, cap);
      }
    }
  }

  lemma PlacedPageShape(items: seq<Entity>, cols: nat, rows: nat)
    requires cols >= 1 && rows >= 1 && 1 <= |items| <= Capacity(cols, rows)
    ensures var layout := PlaceRowMajor(items, cols, rows);
      layout[rows - 1][cols - 1] == Empty && Occupants(layout) == items
  {
    LastCellEmpty(items, cols, rows);
    OccupantsOfPlaced(items, cols, rows);
    assert cols * rows == rows * cols;
  }

  /** A page of a run: named after the base name and its number, a full grid with its last cell free, holding 1 to `Capacity` entities. */
  ghost predicate WellShapedPage(p: Page, baseName: string, number: nat, cols: nat, rows: nat)
    requires cols >= 1 && rows >= 1
  {
    && p.name == PageName(baseName, number)
    && IsGrid(p.layout, cols, rows)
    && p.layout[rows - 1][cols - 1] == Empty
    && 1 <= |Occupants(p.layout)| <= Capacity(cols, rows)
  }

  /** Every page of a run is well shaped. */
  lemma {:induction false} PagesForShape(items: seq<Entity>, cols: nat, rows: nat, baseName: string, firstId: nat, k: nat)
    requires cols >= 1 && rows >= 1 && Capacity(cols, rows) >= 1
    ensures forall i :: 0 <= i < |PagesFor(items, cols, rows, baseName, firstId, k)| ==>
      WellShapedPage(PagesFor(items, cols, rows, baseName, firstId, k)[i], baseName, k + i, cols, rows)
    decreases |items|
  {
    if items != [] {
      var n := Min(Capacity(cols, rows), |items|);
      PlacedPageShape(items[..n], cols, rows);
      PagesForShape(items[n..], cols, rows, baseName, firstId + 1, k + 1);
      var pages := PagesFor(items, cols, rows, baseName, firstId, k);
      var rest := PagesFor(items[n..], cols, rows, baseName, firstId + 1, k + 1);
      assert pages == [pages[0]] + rest;
      assert WellShapedPage(pages[0], baseName, k, cols, rows);
      forall i | 1 <= i < |pages|
        ensures WellShapedPage(pages[i], baseName, k + i, cols, rows)
      {
        var j := i - 1;
        assert pages[i] == rest[j];
        assert WellShapedPage(rest[j], baseName, k + 1 + j, cols, rows);
        assert k + 1 + j == k + i;
      }
    }
  }

  /** The entities of all pages, page after page. */
  function AllOccupants(pages: seq<Page>): seq<Entity>
    decreases |pages|
  {
    if pages == [] then [] else Occupants(pages[0].layout) + AllOccupants(pages[1..])
  }

  lemma AllOccupantsCons(first: Page, later: seq<Page>)
    ensures AllOccupants([first] + later) == Occupants(first.layout) + AllOccupants(later)
  {
    assert ([first] + later)[1..] == later;
  }

  /** Reading the pages back in order gives exactly the input entities, in their order. */
  lemma {:induction false} PagesForContents(items: seq<Entity>, cols: nat, rows: nat, baseName: string, firstId: nat, k: nat)
    requires Capacity(cols, rows) >= 1
    ensures AllOccupants(PagesFor(items, cols, rows, baseName, firstId, k)) == items
    decreases |items|
  {
    if items != [] {
      var n := Min(Capacity(cols, rows), |items|);
      var pages := PagesFor(items, cols, rows, baseName, firstId, k);
      var later := PagesFor(items[n..], cols, rows, baseName, firstId + 1, k + 1);
      var first := Page(firstId, PageName(baseName, k), PlaceRowMajor(items[..n], cols, rows));
      assert pages == [first] + later;
      AllOccupantsCons(first, later);
      OccupantsOfPlaced(items[..n], cols, rows);
      PagesForContents(items[n..], cols, rows, baseName, firstId + 1, k + 1);
      assert items[..n] + items[n..] == items;
    }
  }

  // ---------------------------------------------------------------- autoLayout

  /** Page groups laid out one after the other, the i-th group's pages after the (i-1)-th's. */
  function GroupPages(all: seq<Entity>, groups: seq<Group>, cols: nat, rows: nat, firstId: nat): (pages: seq<Page>)
    requires Capacity(cols, rows) >= 1
    decreases |groups|
  {
    if groups == [] then []
    else
      var p := PagesFor(ResolveEntities(all, groups[0].entities), cols, rows, groups[0].name, firstId, 0);
      p + GroupPages(all, groups[1..], cols, rows, firstId + |p|)
  }

  /** One step of the page-group loop: appending group `i`'s pages keeps the pages so far a prefix of the whole. */
  lemma GroupPagesStep(all: seq<Entity>, groups: seq<Group>, i: nat, acc: seq<Page>, p: seq<Page>,
                       cols: nat, rows: nat, firstId: nat, id: nat, next: nat)
    requires Capacity(cols, rows) >= 1 && i < |groups|
    requires acc + GroupPages(all, groups[i..], cols, rows, id) == GroupPages(all, groups, cols, rows, firstId)
    requires p == PagesFor(ResolveEntities(all, groups[i].entities), cols, rows, groups[i].name, id, 0)
    requires next == id + |p|
    ensures (acc + p) + GroupPages(all, groups[i + 1..], cols, rows, next) == GroupPages(all, groups, cols, rows, firstId)
  {
    var tail := groups[i..];
    assert tail[0] == groups[i] && tail[1..] == groups[i + 1..];
    var rest := GroupPages(all, groups[i + 1..], cols, rows, next);
    assert GroupPages(all, tail, cols, rows, id) == p + rest;
    AppendAssoc(acc, p, rest);
  }

  /**
    The state of the mixed folder/page pass: the main page's grid, the pages
    pushed after it, the next folder position, the id supply, and whether
    the pass is still running (false once a folder button lies beyond the
    main page and its target is patched in).
   */
  datatype FolderState = FolderState(main: seq<seq<Cell>>, pages: seq<Page>, position: nat, nextId: nat, ok: bool)

  /** One group of the mixed pass. */
  function FolderStep(all: seq<Entity>, g: Group, st: FolderState, cols: nat, rows: nat): FolderState
    requires cols >= 1 && Capacity(cols, rows) >= 1 && IsGrid(st.main, cols, rows)
  {
    var sub := PagesFor(ResolveEntities(all, g.entities), cols, rows, g.name, st.nextId, 0);
    match g.kind
    case PageGroup =>
      st.(pages := st.pages + sub, nextId := st.nextId + |sub|)
    case FolderGroup =>
      var row := st.position / cols;
      var col := st.position % cols;
      var main := if row < rows then st.main[row := st.main[row][col := FolderCell(g.name, None)]] else st.main;
      if sub == [] then
        st.(main := main, position := st.position + 1)
      else if row < rows then
        FolderState(main[row := main[row][col := FolderCell(g.name, Some(sub[0].id))]],
                    st.pages + sub, st.position + 1, st.nextId + |sub|, true)
      else
        FolderState(main, st.pages, st.position + 1, st.nextId + |sub|, false)
  }

  lemma FolderStepGrid(all: seq<Entity>, g: Group, st: FolderState, cols: nat, rows: nat)
    requires cols >= 1 && Capacity(cols, rows) >= 1 && IsGrid(st.main, cols, rows)
    ensures IsGrid(FolderStep(all, g, st, cols, rows).main, cols, rows)
  {
    var row, col := st.position / cols, st.position % cols;
    if g.kind == FolderGroup && row < rows {
      var main := st.main[row := st.main[row][col := FolderCell(g.name, None)]];
      GridUpdate(st.main, cols, rows, row, col, FolderCell(g.name, None));
      var sub := PagesFor(ResolveEntities(all, g.entities), cols, rows, g.name, st.nextId, 0);
      if sub != [] {
        GridUpdate(main, cols, rows, row, col, FolderCell(g.name, Some(sub[0].id)));
      }
    }
  }

  lemma GridUpdate(layout: seq<seq<Cell>>, cols: nat, rows: nat, row: nat, col: nat, x: Cell)
    requires IsGrid(layout, cols, rows) && row < rows && col < cols
    ensures IsGrid(layout[row := layout[row][col := x]], cols, rows)
  {
  }

  /** The mixed pass continued over `groups` from `st`, stopping at the first failure. */
  function FolderRun(all: seq<Entity>, groups: seq<Group>, st: FolderState, cols: nat, rows: nat): (r: FolderState)
    requires cols >= 1 && Capacity(cols, rows) >= 1 && IsGrid(st.main, cols, rows)
    ensures IsGrid(r.main, cols, rows)
    decreases |groups|
  {
    if groups == [] || !st.ok then st
    else
      FolderStepGrid(all, groups[0], st, cols, rows);
      FolderRun(all, groups[1..], FolderStep(all, groups[0], st, cols, rows), cols, rows)
  }

  /** One group of the mixed pass, seen from the loop that runs it: the run from the next state is the same run, or the step stopped it. */
  lemma FolderRunStep(all: seq<Entity>, groups: seq<Group>, i: nat, st: FolderState, start: FolderState, cols: nat, rows: nat)
    requires cols >= 1 && Capacity(cols, rows) >= 1 && IsGrid(st.main, cols, rows) && IsGrid(start.main, cols, rows)
    requires i < |groups| && st.ok
    requires FolderRun(all, groups[i..], st, cols, rows) == FolderRun(all, groups, start, cols, rows)
    ensures var next := FolderStep(all, groups[i], st, cols, rows);
      && IsGrid(next.main, cols, rows)
      && (next.ok ==> FolderRun(all, groups[i + 1..], next, cols, rows) == FolderRun(all, groups, start, cols, rows))
      && (!next.ok ==> next == FolderRun(all, groups, start, cols, rows))
  {
    FolderStepGrid(all, groups[i], st, cols, rows);
    assert groups[i..][1..] == groups[i + 1..];
  }

  function FolderCount(groups: seq<Group>): nat
    decreases |groups|
  {
    if groups == [] then 0 else (if groups[0].kind == FolderGroup then 1 else 0) + FolderCount(groups[1..])
  }

  /** The pass cannot fail while every folder button still fits on the main page. */
  lemma {:induction false} FolderRunSucceeds(all: seq<Entity>, groups: seq<Group>, st: FolderState, cols: nat, rows: nat)
    requires cols >= 1 && Capacity(cols, rows) >= 1 && IsGrid(st.main, cols, rows)
    requires st.ok && st.position + FolderCount(groups) <= cols * rows
    ensures FolderRun(all, groups, st, cols, rows).ok
    decreases |groups|
  {
    if groups != [] {
      var next := FolderStep(all, groups[0], st, cols, rows);
      if groups[0].kind == FolderGroup {
        RowMajorIndex(st.position, cols, rows);
      }
      FolderStepGrid(all, groups[0], st, cols, rows);
      FolderRunSucceeds(all, groups[1..], next, cols, rows);
    }
  }

  /** Every folder button with a target points at a page of the pass. */
  ghost predicate TargetsResolve(st: FolderState) {
    forall r, c, name, t :: 0 <= r < |st.main| && 0 <= c < |st.main[r]| && st.main[r][c] == FolderCell(name, Some(t)) ==>
      exists i :: 0 <= i < |st.pages| && st.pages[i].id == t
  }

  /** One step of the mixed pass keeps every folder target pointing at a page of the pass. */
  lemma FolderStepTargets(all: seq<Entity>, g: Group, st: FolderState, cols: nat, rows: nat)
    requires cols >= 1 && Capacity(cols, rows) >= 1 && IsGrid(st.main, cols, rows)
    requires TargetsResolve(st)
    ensures TargetsResolve(FolderStep(all, g, st, cols, rows))
  {
    var next := FolderStep(all, g, st, cols, rows);
    assert next.pages[..|st.pages|] == st.pages;
    forall r, c, name, t | 0 <= r < |next.main| && 0 <= c < |next.main[r]| && next.main[r][c] == FolderCell(name, Some(t))
      ensures exists i :: 0 <= i < |next.pages| && next.pages[i].id == t
    {
      if next.main[r][c] == st.main[r][c] {
        var i :| 0 <= i < |st.pages| && st.pages[i].id == t;
        assert next.pages[i] == st.pages[i];
      } else {
        assert next.pages[|st.pages|].id == t;
      }
    }
  }

  lemma {:induction false} FolderRunTargets(all: seq<Entity>, groups: seq<Group>, st: FolderState, cols: nat, rows: nat)
    requires cols >= 1 && Capacity(cols, rows) >= 1 && IsGrid(st.main, cols, rows)
    requires TargetsResolve(st)
    ensures TargetsResolve(FolderRun(all, groups, st, cols, rows))
    decreases |groups|
  {
    if groups != [] && st.ok {
      FolderStepGrid(all, groups[0], st, cols, rows);
      FolderStepTargets(all, groups[0], st, cols, rows);
      FolderRunTargets(all, groups[1..], FolderStep(all, groups[0], st, cols, rows), cols, rows);
    }
  }

  /** What `autoLayout` leaves in `pages`, with the id supply after it and whether it completed. */
  datatype LayoutOutcome = LayoutOutcome(pages: seq<Page>, nextId: nat, ok: bool)

  predicate AllPageGroups(groups: seq<Group>) {
    forall i :: 0 <= i < |groups| ==> groups[i].kind == PageGroup
  }

  /** The pages the three branches of `autoLayout` push, before the empty-result fallback. */
  function BranchPages(all: seq<Entity>, selected: seq<string>, groups: seq<Group>, cols: nat, rows: nat, nextId: nat): LayoutOutcome
    requires cols >= 1 && Capacity(cols, rows) >= 1
  {
    if groups == [] then
      var p := PagesFor(ResolveEntities(all, selected), cols, rows, "Page", nextId, 0);
      LayoutOutcome(p, nextId + |p|, true)
    else if AllPageGroups(groups) then
      var p := GroupPages(all, groups, cols, rows, nextId);
      LayoutOutcome(p, nextId + |p|, true)
    else
      var st := FolderRun(all, groups, FolderState(EmptyLayout(cols, rows), [], 0, nextId + 1, true), cols, rows);
      LayoutOutcome([Page(nextId, "Main", st.main)] + st.pages, st.nextId, st.ok)
  }

  /** What `autoLayout` leaves: the branch's pages, or a single empty page when a completed branch pushed none. */
  function AutoLayoutSpec(all: seq<Entity>, selected: seq<string>, groups: seq<Group>, cols: nat, rows: nat, nextId: nat): LayoutOutcome
    requires cols >= 1 && Capacity(cols, rows) >= 1
  {
    var o := BranchPages(all, selected, groups, cols, rows, nextId);
    if o.ok && o.pages == [] then LayoutOutcome([Page(o.nextId, "Page 1", EmptyLayout(cols, rows))], o.nextId + 1, true)
    else o
  }

  /** `autoLayout` always leaves at least one page, and completes whenever the folder buttons fit on the main page. */
  lemma AutoLayoutSucceeds(all: seq<Entity>, selected: seq<string>, groups: seq<Group>, cols: nat, rows: nat, nextId: nat)
    requires cols >= 1 && Capacity(cols, rows) >= 1
    requires FolderCount(groups) <= cols * rows
    ensures AutoLayoutSpec(all, selected, groups, cols, rows, nextId).ok
    ensures AutoLayoutSpec(all, selected, groups, cols, rows, nextId).pages != []
  {
    if groups != [] && !AllPageGroups(groups) {
      FolderRunSucceeds(all, groups, FolderState(EmptyLayout(cols, rows), [], 0, nextId + 1, true), cols, rows);
    }
  }

  /** With no groups, the selected entities are laid out in order, none lost and none repeated. */
  lemma AutoLayoutUngrouped(all: seq<Entity>, selected: seq<string>, cols: nat, rows: nat, nextId: nat)
    requires cols >= 1 && Capacity(cols, rows) >= 1
    ensures AllOccupants(AutoLayoutSpec(all, selected, [], cols, rows, nextId).pages) == ResolveEntities(all, selected)
    ensures ResolveEntities(all, selected) == [] ==>
      AutoLayoutSpec(all, selected, [], cols, rows, nextId).pages == [Page(nextId, "Page 1", EmptyLayout(cols, rows))]
  {
    var items := ResolveEntities(all, selected);
    if items == [] {
      PlaceNothing(cols, rows);
      OccupantsOfPlaced([], cols, rows);
      AllOccupantsCons(Page(nextId, "Page 1", EmptyLayout(cols, rows)), []);
    } else {
      PagesForContents(items, cols, rows, "Page", nextId, 0);
    }
  }

  // ---------------------------------------------------------------- grouping by key

  /** One bucket of an insertion-ordered `{ key: [ids] }` object. */
  datatype Bucket = Bucket(key: string, ids: seq<string>)

  function KeyIndex(buckets: seq<Bucket>, key: string): (r: int)
    ensures -1 <= r < |buckets|
    ensures r >= 0 ==> buckets[r].key == key
    ensures r < 0 ==> forall j :: 0 <= j < |buckets| ==> buckets[j].key != key
    decreases |buckets|
  {
    if buckets == [] then -1
    else
      var k := KeyIndex(buckets[..|buckets| - 1], key);
      if k >= 0 then k else if buckets[|buckets| - 1].key == key then |buckets| - 1 else -1
  }

  /** `byKey[key] ||= []; byKey[key].push(id)`. */
  function AddToBucket(buckets: seq<Bucket>, key: string, id: string): seq<Bucket> {
    var k := KeyIndex(buckets, key);
    if k >= 0 then buckets[k := Bucket(key, buckets[k].ids + [id])] else buckets + [Bucket(key, [id])]
  }

  /** The buckets built from `(key, id)` pairs taken in order. */
  function BucketsOf(pairs: seq<(string, string)>): seq<Bucket>
    decreases |pairs|
  {
    if pairs == [] then []
    else AddToBucket(BucketsOf(pairs[..|pairs| - 1]), pairs[|pairs| - 1].0, pairs[|pairs| - 1].1)
  }

  /** The ids paired with `key`, in order. */
  function IdsWithKey(pairs: seq<(string, string)>, key: string): seq<string>
    decreases |pairs|
  {
    if pairs == [] then []
    else IdsWithKey(pairs[..|pairs| - 1], key) + (if pairs[|pairs| - 1].0 == key then [pairs[|pairs| - 1].1] else [])
  }

  ghost predicate DistinctKeys(buckets: seq<Bucket>) {
    forall i, j :: 0 <= i < j < |buckets| ==> buckets[i].key != buckets[j].key
  }

  function BucketKeys(buckets: seq<Bucket>): (keys: seq<string>)
    ensures |keys| == |buckets|
  {
    seq(|buckets|, j requires 0 <= j < |buckets| => buckets[j].key)
  }

  function PairKeys(pairs: seq<(string, string)>): (keys: seq<string>)
    ensures |keys| == |pairs|
  {
    seq(|pairs|, j requires 0 <= j < |pairs| => pairs[j].0)
  }

  /** Adding an id appends its key exactly when no bucket has it yet. */
  lemma AddToBucketKeySeq(b: seq<Bucket>, key: string, id: string)
    ensures BucketKeys(AddToBucket(b, key, id)) ==
      if key in BucketKeys(b) then BucketKeys(b) else BucketKeys(b) + [key]
  {
    var keys := BucketKeys(b);
    var k := KeyIndex(b, key);
    if k >= 0 {
      assert keys[k] == key;
    } else {
      assert key !in keys by {
        forall j | 0 <= j < |keys|
          ensures keys[j] != key
        {
          assert keys[j] == b[j].key;
        }
      }
    }
  }

  /** The bucket keys are the pairs' keys, each once, in order of first appearance (as "select all" appends ids). */
  lemma {:induction false} BucketKeysFirstSeen(pairs: seq<(string, string)>)
    ensures BucketKeys(BucketsOf(pairs)) == AddMissing([], PairKeys(pairs))
    decreases |pairs|
  {
    if pairs != [] {
      var init := pairs[..|pairs| - 1];
      var (key, id) := pairs[|pairs| - 1];
      BucketKeysFirstSeen(init);
      AddToBucketKeySeq(BucketsOf(init), key, id);
      var keys := PairKeys(pairs);
      assert keys[..|keys| - 1] == PairKeys(init);
      assert keys[|keys| - 1] == key;
    }
  }

  /**
    Bucketing keeps one bucket per key, keys in order of first appearance,
    and each bucket holds exactly the ids with its key, in their order.
   */
  lemma {:induction false} BucketsOfSpec(pairs: seq<(string, string)>)
    ensures DistinctKeys(BucketsOf(pairs))
    ensures forall j :: 0 <= j < |BucketsOf(pairs)| ==>
      BucketsOf(pairs)[j].ids == IdsWithKey(pairs, BucketsOf(pairs)[j].key)
    ensures forall p :: p in pairs ==> exists j :: 0 <= j < |BucketsOf(pairs)| && BucketsOf(pairs)[j].key == p.0
    ensures forall j :: 0 <= j < |BucketsOf(pairs)| ==> exists p :: p in pairs && p.0 == BucketsOf(pairs)[j].key
    ensures FirstSeenOrder(BucketKeys(BucketsOf(pairs)), PairKeys(pairs))
  {
    BucketsOfIds(pairs);
    BucketsOfKeys(pairs);
    BucketsOfCover(pairs);
  }

  /** Each bucket has its own key and holds exactly the ids paired with it, in order. */
  lemma {:induction false} BucketsOfIds(pairs: seq<(string, string)>)
    ensures DistinctKeys(BucketsOf(pairs))
    ensures forall j :: 0 <= j < |BucketsOf(pairs)| ==>
      BucketsOf(pairs)[j].ids == IdsWithKey(pairs, BucketsOf(pairs)[j].key)
    decreases |pairs|
  {
    if pairs != [] {
      var init := pairs[..|pairs| - 1];
      var (key, id) := pairs[|pairs| - 1];
      BucketsOfIds(init);
      AddToBucketKeys(BucketsOf(init), key, id);
      BucketIdsStep(pairs);
    }
  }

  /** Every bucket key is some pair's key, and the keys come in order of first appearance among the pairs. */
  lemma {:induction false} BucketsOfKeys(pairs: seq<(string, string)>)
    ensures forall j :: 0 <= j < |BucketsOf(pairs)| ==> exists p :: p in pairs && p.0 == BucketsOf(pairs)[j].key
    ensures FirstSeenOrder(BucketKeys(BucketsOf(pairs)), PairKeys(pairs))
  {
    var b := BucketsOf(pairs);
    var keys := PairKeys(pairs);
    BucketKeysFirstSeen(pairs);
    AddMissingSuffix([], keys);
    assert AddMissing([], keys)[0..] == AddMissing([], keys);
    forall j | 0 <= j < |b|
      ensures exists p :: p in pairs && p.0 == b[j].key
    {
      assert BucketKeys(b)[j] == b[j].key;
      assert b[j].key in keys;
      var i :| 0 <= i < |keys| && keys[i] == b[j].key;
      assert pairs[i] in pairs;
    }
  }

  /** Every pair's key has a bucket. */
  lemma {:induction false} BucketsOfCover(pairs: seq<(string, string)>)
    ensures var b := BucketsOf(pairs); forall p :: p in pairs ==> exists j :: 0 <= j < |b| && b[j].key == p.0
  {
    forall p | p in pairs
      ensures exists j :: 0 <= j < |BucketsOf(pairs)| && BucketsOf(pairs)[j].key == p.0
    {
      BucketOfPair(pairs, p);
    }
  }

  lemma BucketOfPair(pairs: seq<(string, string)>, p: (string, string))
    requires p in pairs
    ensures exists j :: 0 <= j < |BucketsOf(pairs)| && BucketsOf(pairs)[j].key == p.0
  {
    var keys := PairKeys(pairs);
    BucketKeysFirstSeen(pairs);
    AddMissingSpec([], keys);
    var i :| 0 <= i < |pairs| && pairs[i] == p;
    assert keys[i] == p.0 && keys[i] in keys;
    assert p.0 in BucketKeys(BucketsOf(pairs));
    var j :| 0 <= j < |BucketsOf(pairs)| && BucketKeys(BucketsOf(pairs))[j] == p.0;
    assert BucketsOf(pairs)[j].key == BucketKeys(BucketsOf(pairs))[j];
  }

  /** Adding one id keeps the keys apart and in place, and the key is then present. */
  lemma AddToBucketKeys(b: seq<Bucket>, key: string, id: string)
    ensures DistinctKeys(b) ==> DistinctKeys(AddToBucket(b, key, id))
    ensures |b| <= |AddToBucket(b, key, id)|
    ensures forall j :: 0 <= j < |b| ==> AddToBucket(b, key, id)[j].key == b[j].key
    ensures exists j :: 0 <= j < |AddToBucket(b, key, id)| && AddToBucket(b, key, id)[j].key == key
  {
    var k := KeyIndex(b, key);
    var b' := AddToBucket(b, key, id);
    if k >= 0 {
      assert b'[k].key == key;
    } else {
      assert b'[|b|].key == key;
    }
  }

  /** One more pair: each bucket still holds exactly the ids paired with its key. */
  lemma BucketIdsStep(pairs: seq<(string, string)>)
    requires pairs != []
    requires var init := pairs[..|pairs| - 1];
      DistinctKeys(BucketsOf(init)) &&
      forall j :: 0 <= j < |BucketsOf(init)| ==> BucketsOf(init)[j].ids == IdsWithKey(init, BucketsOf(init)[j].key)
    ensures forall j :: 0 <= j < |BucketsOf(pairs)| ==>
      BucketsOf(pairs)[j].ids == IdsWithKey(pairs, BucketsOf(pairs)[j].key)
  {
    var init := pairs[..|pairs| - 1];
    var (key, id) := pairs[|pairs| - 1];
    var b := BucketsOf(init);
    var k := KeyIndex(b, key);
    var b' := BucketsOf(pairs);
    assert b' == AddToBucket(b, key, id);
    forall j | 0 <= j < |b'|
      ensures b'[j].ids == IdsWithKey(pairs, b'[j].key)
    {
      if j < |b| && b'[j].key != key {
        assert b'[j] == b[j];
      } else if j == |b| {
        assert k < 0;
        assert IdsWithKey(init, key) == [] by { NoBucketNoIds(init, key); }
      }
    }
  }

  lemma {:induction false} NoBucketNoIds(pairs: seq<(string, string)>, key: string)
    requires forall j :: 0 <= j < |BucketsOf(pairs)| ==> BucketsOf(pairs)[j].key != key
    ensures IdsWithKey(pairs, key) == []
    decreases |pairs|
  {
    if pairs != [] {
      var init := pairs[..|pairs| - 1];
      var b := BucketsOf(init);
      var last := pairs[|pairs| - 1];
      var k := KeyIndex(b, last.0);
      forall j | 0 <= j < |b|
        ensures b[j].key != key
      {
        assert BucketsOf(pairs)[j].key == b[j].key;
      }
      NoBucketNoIds(init, key);
      var j := if k >= 0 then k else |b|;
      assert BucketsOf(pairs)[j].key == last.0;
    }
  }
}
