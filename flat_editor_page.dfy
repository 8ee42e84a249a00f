/**
 * The flat-list editor page: every field of the template in one list, each
 * tagged with its page number; the rendered PDF pages stacked vertically
 * with a 24-unit gap; an unbounded history of field lists; and the save
 * payload that regroups the fields by page with rounded coordinates.
 */
module FlatEditorPage {
  import opened Wrappers
  import opened TemplateModel
  import Snapshots
  import HistoryStacks

  /** A field together with the number of the page it is placed on. */
  datatype PlacedField = PlacedField(page: int, field: Field)

  /** A rendered PDF page: its number and its size at the current zoom. */
  datatype PageView = PageView(num: int, width: real, height: real)

  /** A rendered page with the vertical offset at which it is stacked. */
  datatype LaidOutPage = LaidOutPage(view: PageView, offset: real)

  /** The gap between two stacked pages. */
  const PageGap: real := 24.0

  // ---------------------------------------------------------------------
  // Page stacking
  // ---------------------------------------------------------------------

  ghost predicate StrictlySorted(vs: seq<PageView>) {
    forall i, j :: 0 <= i < j < |vs| ==> vs[i].num < vs[j].num
  }

  /** Below the head of a sorted list every page has a larger number, and the tail is sorted too. */
  lemma SortedTail(vs: seq<PageView>)
    requires StrictlySorted(vs) && |vs| > 0
    ensures StrictlySorted(vs[1..])
    ensures forall v :: v in vs[1..] ==> vs[0].num < v.num
  {
    forall v | v in vs[1..]
      ensures vs[0].num < v.num
    {
      var i :| 0 <= i < |vs[1..]| && vs[1..][i] == v;
      assert vs[i + 1] == v;
    }
  }

  /**
   * `[...pages.filter((p) => p.num !== page.num), page].sort(byNum)` on a list
   * already sorted by number: the rendered page replaces any page with its
   * number, and the list stays sorted.
   */
  function Place(vs: seq<PageView>, page: PageView): (r: seq<PageView>)
    requires StrictlySorted(vs)
    ensures StrictlySorted(r)
    ensures forall v :: v in r <==> (v in vs && v.num != page.num) || v == page
  {
    if |vs| == 0 then [page]
    else
      SortedTail(vs);
      if page.num < vs[0].num then
        [page] + vs
      else if page.num == vs[0].num then
        [page] + vs[1..]
      else
        [vs[0]] + Place(vs[1..], page)
  }

  /** The list grows by one exactly when no page had the rendered page's number. */
  lemma {:induction false} PlaceLength(vs: seq<PageView>, page: PageView)
    requires StrictlySorted(vs)
    ensures |Place(vs, page)| == |vs| + 1 || |Place(vs, page)| == |vs|
    ensures |Place(vs, page)| == |vs| <==> exists i :: 0 <= i < |vs| && vs[i].num == page.num
    decreases |vs|
  {
    if |vs| > 0 {
      SortedTail(vs);
      if page.num > vs[0].num {
        PlaceLength(vs[1..], page);
        assert forall i :: 0 < i < |vs| ==> vs[i] == vs[1..][i - 1];
      }
    }
  }

  /** The sum of the page heights. */
  function SumHeights(vs: seq<PageView>): real {
    if |vs| == 0 then 0.0 else SumHeights(vs[..|vs| - 1]) + vs[|vs| - 1].height
  }

  /** Where page `i` is stacked: the heights of the pages above it, and a gap after each. */
  function OffsetOf(vs: seq<PageView>, i: nat): real
    requires i <= |vs|
  {
    SumHeights(vs[..i]) + (i as real) * PageGap
  }

  /** The `map` with a running `offset` of `onPageRendered`. */
  method Layout(vs: seq<PageView>) returns (laid: seq<LaidOutPage>)
    ensures |laid| == |vs|
    ensures forall i :: 0 <= i < |vs| ==> laid[i] == LaidOutPage(vs[i], OffsetOf(vs, i))
  {
    laid := [];
    var offset := 0.0;
    var i := 0;
    assert vs[..0] == [];
    while i < |vs|
      invariant 0 <= i <= |vs|
      invariant |laid| == i
      invariant forall k :: 0 <= k < i ==> laid[k] == LaidOutPage(vs[k], OffsetOf(vs, k))
      invariant offset == OffsetOf(vs, i)
    {
      assert vs[..i + 1][..i] == vs[..i];
      laid := laid + [LaidOutPage(vs[i], offset)];
      offset := offset + vs[i].height + PageGap;
      i := i + 1;
    }
  }

  /** Consecutive pages are stacked a gap apart: each starts 24 below the end of the one above. */
  lemma StackedWithGap(vs: seq<PageView>, i: nat)
    requires i + 1 < |vs|
    ensures OffsetOf(vs, i + 1) == OffsetOf(vs, i) + vs[i].height + PageGap
  {
    assert vs[..i + 1][..i] == vs[..i];
  }

  /** The stack ends where the canvas does: the last page's offset plus its height is all heights plus the gaps. */
  lemma LastPageEndsStack(vs: seq<PageView>)
    requires |vs| > 0
    ensures OffsetOf(vs, |vs| - 1) + vs[|vs| - 1].height == SumHeights(vs) + ((|vs| - 1) as real) * PageGap
  {
    assert vs[..|vs|] == vs;
  }

  function Views(pages: seq<LaidOutPage>): (r: seq<PageView>)
    ensures |r| == |pages| && forall i :: 0 <= i < |pages| ==> r[i] == pages[i].view
  {
    seq(|pages|, i requires 0 <= i < |pages| => pages[i].view)
  }

  // ---------------------------------------------------------------------
  // Field list operations
  // ---------------------------------------------------------------------

  /** `fields.map((f) => (f.id === field.id ? field : f))`. */
  function ReplacePlaced(fields: seq<PlacedField>, p: PlacedField): (r: seq<PlacedField>)
    ensures |r| == |fields|
    ensures forall i :: 0 <= i < |fields| && fields[i].field.id == p.field.id ==> r[i] == p
    ensures forall i :: 0 <= i < |fields| && fields[i].field.id != p.field.id ==> r[i] == fields[i]
  {
    seq(|fields|, i requires 0 <= i < |fields| => if fields[i].field.id == p.field.id then p else fields[i])
  }

  /** The text field `addTextField` appends on page 1. */
  function NewTextField(id: string): (r: PlacedField)
    ensures r.page == 1 && r.field.id == id && r.field.kind == Text && r.field.mapField == "Campo nuevo"
    ensures r.field.x == 100.0 && r.field.y == 100.0 && r.field.width == 180.0 && r.field.height == 40.0
    ensures r.field.value == Some("Ejemplo") && r.field.multiline == Some(false) && !r.field.locked && !r.field.hidden
  {
    PlacedField(1, Field(id, Text, "Campo nuevo", 100.0, 100.0, 180.0, 40.0, 14.0, "#111827",
                         "standard:roboto", 1.0, "#e0f2fe", false, false, Some("Ejemplo"), Some(false)))
  }

  /** The image field `addImageField` appends on page 1. */
  function NewImageField(id: string): (r: PlacedField)
    ensures r.page == 1 && r.field.id == id && r.field.kind == Image && r.field.mapField == "Imagen"
    ensures r.field.x == 120.0 && r.field.y == 120.0 && r.field.width == 120.0 && r.field.height == 80.0
    ensures r.field.value == None && r.field.multiline == Some(false) && !r.field.locked && !r.field.hidden
  {
    PlacedField(1, Field(id, Image, "Imagen", 120.0, 120.0, 120.0, 80.0, 12.0, "#111827",
                         "standard:roboto", 1.0, "#fef3c7", false, false, None, Some(false)))
  }

  /** `fields.filter((f) => f.page === num)`, keeping the order. */
  function FieldsOn(fields: seq<PlacedField>, num: int): (r: seq<Field>)
    ensures |r| <= |fields|
    ensures forall f :: f in r <==> PlacedField(num, f) in fields
  {
    if |fields| == 0 then []
    else (if fields[0].page == num then [fields[0].field] else []) + FieldsOn(fields[1..], num)
  }

  /** Each field occurs on its page as many times as it is placed there in the list. */
  lemma {:induction false} FieldsOnCounts(fields: seq<PlacedField>, num: int)
    ensures forall f :: multiset(FieldsOn(fields, num))[f] == multiset(fields)[PlacedField(num, f)]
  {
    if |fields| > 0 {
      assert fields == [fields[0]] + fields[1..];
      FieldsOnCounts(fields[1..], num);
    }
  }

  /**
   * Filtering distributes over concatenation, so the fields of a page come
   * out in the order they have in the list.
   */
  lemma {:induction false} FieldsOnDistributes(a: seq<PlacedField>, b: seq<PlacedField>, num: int)
    ensures FieldsOn(a + b, num) == FieldsOn(a, num) + FieldsOn(b, num)
  {
    if |a| == 0 {
      assert a + b == b;
    } else {
      var head := if a[0].page == num then [a[0].field] else [];
      assert (a + b)[0] == a[0] && (a + b)[1..] == a[1..] + b;
      calc {
        FieldsOn(a + b, num);
        head + FieldsOn(a[1..] + b, num);
        { FieldsOnDistributes(a[1..], b, num); }
        head + (FieldsOn(a[1..], num) + FieldsOn(b, num));
        (head + FieldsOn(a[1..], num)) + FieldsOn(b, num);
        FieldsOn(a, num) + FieldsOn(b, num);
      }
    }
  }

  /** The `pages` of the save payload: one entry per rendered page, holding its fields as rounded wire records. */
  function SavePages(pages: seq<PageView>, fields: seq<PlacedField>): (r: seq<WirePage>)
    ensures |r| == |pages|
    ensures forall i :: 0 <= i < |r| ==>
              r[i].num == pages[i].num && |r[i].fields| == |FieldsOn(fields, pages[i].num)| &&
              forall j :: 0 <= j < |r[i].fields| ==> r[i].fields[j] == ToRoundedWire(FieldsOn(fields, pages[i].num)[j])
  {
    seq(|pages|, i requires 0 <= i < |pages| =>
      var on := FieldsOn(fields, pages[i].num);
      WirePage(pages[i].num, seq(|on|, j requires 0 <= j < |on| => ToRoundedWire(on[j]))))
  }

  /**
   * The payload regroups the list by page: entry i carries the number of
   * rendered page i, and a field is in it exactly when it is placed on that
   * page (up to rounding of its coordinates); a field placed on a page that
   * has not been rendered is in no entry.
   */
  lemma SavePagesGroupsByPage(pages: seq<PageView>, fields: seq<PlacedField>)
    ensures forall i :: 0 <= i < |pages| ==> SavePages(pages, fields)[i].num == pages[i].num
    ensures forall i, f :: 0 <= i < |pages| && PlacedField(pages[i].num, f) in fields ==>
              ToRoundedWire(f) in SavePages(pages, fields)[i].fields
    ensures forall i, w :: 0 <= i < |pages| && w in SavePages(pages, fields)[i].fields ==>
              exists f :: PlacedField(pages[i].num, f) in fields && w == ToRoundedWire(f)
  {
    var r := SavePages(pages, fields);
    forall i, f | 0 <= i < |pages| && PlacedField(pages[i].num, f) in fields
      ensures ToRoundedWire(f) in r[i].fields
    {
      var on := FieldsOn(fields, pages[i].num);
      var j :| 0 <= j < |on| && on[j] == f;
      assert r[i].fields[j] == ToRoundedWire(f);
    }
    forall i, w | 0 <= i < |pages| && w in r[i].fields
      ensures exists f :: PlacedField(pages[i].num, f) in fields && w == ToRoundedWire(f)
    {
      var on := FieldsOn(fields, pages[i].num);
      var j :| 0 <= j < |r[i].fields| && r[i].fields[j] == w;
      assert on[j] in on;
    }
  }

  // ---------------------------------------------------------------------
  // The page component
  // ---------------------------------------------------------------------

  class EditorPageComponent {
    const history: HistoryStacks.HistoryStack<seq<PlacedField>>

    var template: Option<Template>
    var pages: seq<LaidOutPage>
    var fields: seq<PlacedField>
    var selectedField: Option<PlacedField>
    var zoom: real

    /** The rendered pages are sorted by number, each number once, and stacked top to bottom. */
    ghost predicate Valid()
      reads this
    {
      StrictlySorted(Views(pages)) &&
      forall i :: 0 <= i < |pages| ==> pages[i].offset == OffsetOf(Views(pages), i)
    }

    constructor ()
      ensures Valid() && fresh(history)
      ensures history.undoStack == [] && history.redoStack == []
      ensures template == None && pages == [] && fields == [] && selectedField == None && zoom == 1.0
    {
      history := new HistoryStacks.HistoryStack();
      template, pages, fields, selectedField, zoom := None, [], [], None, 1.0;
    }

    /** `canvasHeight`: 1200 with no page rendered, else all heights and gaps, times the zoom. */
    function CanvasHeight(): (r: real)
      reads this
      ensures |pages| == 0 ==> r == 1200.0
      ensures Valid() && |pages| > 0 ==>
                r == (pages[|pages| - 1].offset + pages[|pages| - 1].view.height) * zoom
    {
      if |pages| == 0 then 1200.0
      else
        LastPageEndsStack(Views(pages));
        (SumHeights(Views(pages)) + ((|pages| - 1) as real) * PageGap) * zoom
    }

    /** `canvasWidth`: the first page's width (800 when none is rendered), times the zoom. */
    function CanvasWidth(): (r: real)
      reads this
      ensures |pages| == 0 ==> r == 800.0 * zoom
      ensures |pages| > 0 ==> r == pages[0].view.width * zoom
    {
      (if |pages| > 0 then pages[0].view.width else 800.0) * zoom
    }

    /** The loaded template callback: a found template's field list becomes the state and is recorded. */
    method Load(tpl: Option<Template>, templateFields: seq<PlacedField>)
      modifies this`template, this`fields, history
      ensures tpl.None? ==> template == old(template) && fields == old(fields) && unchanged(history)
      ensures tpl.Some? ==>
                template == tpl && fields == templateFields &&
                history.State() == Snapshots.Push(old(history.State()), templateFields)
    {
      if tpl.None? {
        return;
      }
      template := tpl;
      fields := templateFields;
      history.Push(fields);
    }

    /** `onPageRendered`: the page takes its place in the sorted list and all pages are restacked. */
    method OnPageRendered(page: PageView)
      requires Valid()
      modifies this`pages
      ensures Valid()
      ensures Views(pages) == Place(Views(old(pages)), page)
    {
      var nextPages := Place(Views(pages), page);
      pages := Layout(nextPages);
      assert Views(pages) == nextPages;
    }

    /**
     * `addTextField`: with a template, the new text field is appended and
     * selected. The list is recorded before the change, so that one undo
     * removes the field again (the source records it after; see
     * `FirstUndoAfterAddKeepsField`).
     */
    method AddTextField(freshId: string)
      modifies this`fields, this`selectedField, history
      ensures template.None? ==> fields == old(fields) && selectedField == old(selectedField) && unchanged(history)
      ensures template.Some? ==>
                Snapshots.Session(history.State(), fields) ==
                Snapshots.Commit(Snapshots.Session(old(history.State()), old(fields)), old(fields) + [NewTextField(freshId)]) &&
                selectedField == Some(NewTextField(freshId))
    {
      if template.None? {
        return;
      }
      var newField := NewTextField(freshId);
      history.Push(fields);
      fields := fields + [newField];
      selectedField := Some(newField);
    }

    /**
     * `addImageField`: with a template, the new image field is appended and
     * selected. The list is recorded before the change, so that one undo
     * removes the field again (the source records it after; see
     * `FirstUndoAfterAddKeepsField`).
     */
    method AddImageField(freshId: string)
      modifies this`fields, this`selectedField, history
      ensures template.None? ==> fields == old(fields) && selectedField == old(selectedField) && unchanged(history)
      ensures template.Some? ==>
                Snapshots.Session(history.State(), fields) ==
                Snapshots.Commit(Snapshots.Session(old(history.State()), old(fields)), old(fields) + [NewImageField(freshId)]) &&
                selectedField == Some(NewImageField(freshId))
    {
      if template.None? {
        return;
      }
      var newField := NewImageField(freshId);
      history.Push(fields);
      fields := fields + [newField];
      selectedField := Some(newField);
    }

    method OnFieldSelected(field: PlacedField)
      modifies this`selectedField
      ensures selectedField == Some(field)
    {
      selectedField := Some(field);
    }

    /**
     * `onFieldUpdated`: the field with the same id is replaced and selected,
     * the list being recorded before the change (as in `addTextField`).
     */
    method OnFieldUpdated(field: PlacedField)
      modifies this`fields, this`selectedField, history
      ensures Snapshots.Session(history.State(), fields) ==
              Snapshots.Commit(Snapshots.Session(old(history.State()), old(fields)), ReplacePlaced(old(fields), field))
      ensures selectedField == Some(field)
    {
      history.Push(fields);
      fields := ReplacePlaced(fields, field);
      selectedField := Some(field);
    }

    /** `undo`: the list is replaced only when the history hands a snapshot back. */
    method Undo()
      modifies this`fields, history
      ensures Snapshots.Session(history.State(), fields) ==
              Snapshots.UndoSession(Snapshots.Session(old(history.State()), old(fields)))
    {
      var previous := history.Undo(fields);
      if previous.Some? {
        fields := previous.value;
      }
    }

    /** `redo`: the list is replaced only when the history hands a snapshot back. */
    method Redo()
      modifies this`fields, history
      ensures Snapshots.Session(history.State(), fields) ==
              Snapshots.RedoSession(Snapshots.Session(old(history.State()), old(fields)))
    {
      var next := history.Redo(fields);
      if next.Some? {
        fields := next.value;
      }
    }

    /** The payload `save` builds: nothing without a template, else the fields grouped by rendered page. */
    function SavePayload(): (r: Option<seq<WirePage>>)
      reads this
      ensures r.None? <==> template.None?
      ensures r.Some? ==> |r.value| == |pages|
      ensures r.Some? ==> r.value == SavePages(Views(pages), fields)
    {
      if template.None? then None else Some(SavePages(Views(pages), fields))
    }

    method OnZoomChange(level: real)
      modifies this`zoom
      ensures zoom == level
    {
      zoom := level;
    }
  }

  /**
   * As written, an edit recorded after the mutation makes the first undo hand
   * back the state just reached: after loading `f0` and adding a field, one
   * undo leaves the new field in place.
   */
  lemma FirstUndoAfterAddKeepsField(f0: seq<PlacedField>, id: string)
    ensures var loaded := Snapshots.Session(Snapshots.Stacks([f0], []), f0);
            var added := Snapshots.CommitAfter(loaded, f0 + [NewTextField(id)]);
            Snapshots.UndoSession(added).cur == f0 + [NewTextField(id)] != f0
  {
    var loaded := Snapshots.Session(Snapshots.Stacks([f0], []), f0);
    Snapshots.UndoAfterCommitAfterIsNoOp(loaded, f0 + [NewTextField(id)]);
    assert |f0 + [NewTextField(id)]| != |f0|;
  }

  /**
   * Recorded before the mutation, as the other controllers do and as
   * `AddTextField` is modelled, one undo after loading `f0` and adding a
   * field removes it again, and a redo brings it back.
   */
  lemma FirstUndoAfterAddRecordedBefore(f0: seq<PlacedField>, id: string)
    ensures var loaded := Snapshots.Session(Snapshots.Stacks([f0], []), f0);
            var added := Snapshots.Commit(loaded, f0 + [NewTextField(id)]);
            Snapshots.UndoSession(added).cur == f0 &&
            Snapshots.RedoSession(Snapshots.UndoSession(added)) == added
  {
    var loaded := Snapshots.Session(Snapshots.Stacks([f0], []), f0);
    Snapshots.UndoRestoresCommit(loaded, f0 + [NewTextField(id)]);
    Snapshots.RedoAfterUndo(Snapshots.Commit(loaded, f0 + [NewTextField(id)]));
  }
}
