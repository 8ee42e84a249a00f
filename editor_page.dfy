/**
 * The nested-pages editor page: the template under edit as a whole value,
 * a bounded history of whole templates, field creation and replacement on
 * the current page, and the JSON export of the pages.
 */
module EditorPage {
  import opened Wrappers
  import opened TemplateModel
  import opened PageEdits
  import Snapshots
  import UndoRedo

  /** The size of the rendered page in document units (the rendered pixels divided by the zoom factor). */
  datatype PageSize = PageSize(width: real, height: real)

  /** The field `addField` inserts at (50, 50): 200 wide, 120 high for an image and 40 for text. */
  function NewField(kind: FieldType, id: string): (r: Field)
    ensures r.id == id && r.kind == kind && r.x == 50.0 && r.y == 50.0
    ensures r.width == 200.0 && r.height == (if kind == Image then 120.0 else 40.0)
    ensures r.mapField == (if kind == Text then "Nuevo campo" else "Imagen") && r.fontSize == 16.0 && r.opacity == 1.0
    ensures r.value == None && r.multiline == Some(false) && !r.locked && !r.hidden
  {
    Field(id, kind, if kind == Text then "Nuevo campo" else "Imagen", 50.0, 50.0, 200.0,
          if kind == Image then 120.0 else 40.0, 16.0, "#0f172a", "standard:roboto", 1.0,
          "#e2e8f0", false, false, None, Some(false))
  }

  /** The `pages` array of `exportJson`: every page with its number and the wire records of its fields. */
  function ExportPages(pages: seq<Page>): (r: seq<WirePage>)
    ensures |r| == |pages|
    ensures forall i :: 0 <= i < |r| ==>
              r[i].num == pages[i].num && |r[i].fields| == |pages[i].fields| &&
              forall j :: 0 <= j < |r[i].fields| ==> r[i].fields[j] == ToWire(pages[i].fields[j])
  {
    seq(|pages|, i requires 0 <= i < |pages| =>
      WirePage(pages[i].num, seq(|pages[i].fields|, j requires 0 <= j < |pages[i].fields| =>
        ToWire(pages[i].fields[j]))))
  }

  /**
   * The export follows the page edits: appending a field on page `num`
   * appends its wire record there, emptying a page empties its export, and
   * every other page exports as before.
   */
  lemma ExportAfterEdit(pages: seq<Page>, num: int, e: FieldEdit)
    ensures |ExportPages(UpdatePageFields(pages, num, e))| == |ExportPages(pages)|
    ensures forall i :: 0 <= i < |pages| && pages[i].num != num ==>
              ExportPages(UpdatePageFields(pages, num, e))[i] == ExportPages(pages)[i]
    ensures forall i :: 0 <= i < |pages| && pages[i].num == num && e.AppendField? ==>
              ExportPages(UpdatePageFields(pages, num, e))[i] ==
              ExportPages(pages)[i].(fields := ExportPages(pages)[i].fields + [ToWire(e.field)])
    ensures forall i :: 0 <= i < |pages| && pages[i].num == num && e.RemoveAll? ==>
              ExportPages(UpdatePageFields(pages, num, e))[i] == WirePage(num, [])
  {
  }

  /**
   * The export carries no size: replacing a field by a copy that differs
   * only in width, height or the multiline flag leaves the JSON as it was.
   */
  lemma ResizeInvisibleInExport(pages: seq<Page>, num: int, f: Field, g: Field)
    requires g == f.(width := g.width, height := g.height, multiline := g.multiline)
    ensures ExportPages(UpdatePageFields(pages, num, ReplaceWith(g))) ==
            ExportPages(UpdatePageFields(pages, num, ReplaceWith(f)))
  {
    var a := UpdatePageFields(pages, num, ReplaceWith(g));
    var b := UpdatePageFields(pages, num, ReplaceWith(f));
    assert ToWire(g) == ToWire(f);
    forall i | 0 <= i < |pages|
      ensures ExportPages(a)[i] == ExportPages(b)[i]
    {
      if pages[i].num == num {
        assert |a[i].fields| == |b[i].fields|;
        forall j | 0 <= j < |a[i].fields|
          ensures ToWire(a[i].fields[j]) == ToWire(b[i].fields[j])
        {
        }
      }
    }
  }

  class EditorPageComponent {
    const history: UndoRedo.UndoRedoStack<Template>

    var template: Option<Template>
    var selectedField: Option<Field>
    var selectedPage: int
    /** The zoom level in percent. */
    var zoom: real
    var pageSize: PageSize

    ghost predicate Valid()
      reads this, history
    {
      history.Valid()
    }

    constructor ()
      ensures Valid() && fresh(history) && history.limit == UndoRedo.DefaultLimit
      ensures history.stack == [] && history.redoStack == []
      ensures template == None && selectedField == None && selectedPage == 1 && zoom == 100.0
      ensures pageSize == PageSize(820.0, 1180.0)
    {
      history := new UndoRedo.UndoRedoStack();
      template, selectedField, selectedPage := None, None, 1;
      zoom, pageSize := 100.0, PageSize(820.0, 1180.0);
    }

    /** The loaded template callback of `ngOnInit`: a found template is shown from its first page and recorded. */
    method Load(tpl: Option<Template>)
      requires Valid()
      modifies this`template, this`selectedPage, history
      ensures Valid()
      ensures tpl.None? ==> template == old(template) && selectedPage == old(selectedPage) && unchanged(history)
      ensures tpl.Some? ==>
                template == tpl &&
                selectedPage == (if |tpl.value.pages| > 0 then tpl.value.pages[0].num else 1) &&
                history.State() == Snapshots.BoundedPush(old(history.State()), tpl.value, history.limit)
    {
      if tpl.None? {
        return;
      }
      template := tpl;
      selectedPage := if |tpl.value.pages| > 0 then tpl.value.pages[0].num else 1;
      history.Push(tpl.value);
    }

    /** `currentPage`: the first page of the template numbered as the selected page. */
    function CurrentPage(): (r: Option<Page>)
      reads this
      ensures r.Some? ==> template.Some? && r.value.num == selectedPage && r.value in template.value.pages
      ensures r.Some? ==> r.value == template.value.pages[PageIndex(template.value.pages, selectedPage)]
      ensures template.Some? ==> r == FindPage(template.value.pages, selectedPage)
      ensures r.None? <==> template.None? ||
                           forall i :: 0 <= i < |template.value.pages| ==> template.value.pages[i].num != selectedPage
    {
      if template.None? then None
      else
        var p := FindPage(template.value.pages, selectedPage);
        if p.Some? then
          assert p.value == template.value.pages[PageIndex(template.value.pages, selectedPage)];
          p
        else p
    }

    /** `zoomFactor`: the zoom as a scale, 100 percent being 1. */
    function ZoomFactor(): (r: real)
      reads this
      ensures r * 100.0 == zoom
    {
      zoom / 100.0
    }

    method SelectPage(num: int)
      modifies this`selectedPage, this`selectedField
      ensures selectedPage == num && selectedField == None
    {
      selectedPage := num;
      selectedField := None;
    }

    method SetZoom(value: real)
      modifies this`zoom
      ensures zoom == value
    {
      zoom := value;
    }

    method SetSelectedField(field: Field)
      modifies this`selectedField
      ensures selectedField == Some(field)
    {
      selectedField := Some(field);
    }

    /**
     * `addField`: without a template or a current page nothing happens;
     * otherwise the template is recorded, the new field is appended to the
     * current page, and it is selected.
     */
    method AddField(kind: FieldType, freshId: string)
      requires Valid()
      modifies this`template, this`selectedField, history
      ensures Valid()
      ensures old(CurrentPage()).None? ==>
                template == old(template) && selectedField == old(selectedField) && unchanged(history)
      ensures old(CurrentPage()).Some? ==>
                var t := old(template).value;
                history.State() == Snapshots.BoundedPush(old(history.State()), t, history.limit) &&
                template == Some(t.(pages := UpdatePageFields(t.pages, selectedPage, AppendField(NewField(kind, freshId))))) &&
                selectedField == Some(NewField(kind, freshId))
    {
      var page := CurrentPage();
      if page.None? {
        return;
      }
      var t := template.value;
      history.Push(t);
      var newField := NewField(kind, freshId);
      template := Some(t.(pages := UpdatePageFields(t.pages, page.value.num, AppendField(newField))));
      selectedField := Some(newField);
    }

    /**
     * `updateField`: without a template or a current page nothing happens;
     * otherwise the template is recorded, the field with the same id on the
     * current page is replaced, and the field is selected.
     */
    method UpdateField(field: Field)
      requires Valid()
      modifies this`template, this`selectedField, history
      ensures Valid()
      ensures old(CurrentPage()).None? ==>
                template == old(template) && selectedField == old(selectedField) && unchanged(history)
      ensures old(CurrentPage()).Some? ==>
                var t := old(template).value;
                history.State() == Snapshots.BoundedPush(old(history.State()), t, history.limit) &&
                template == Some(t.(pages := UpdatePageFields(t.pages, selectedPage, ReplaceWith(field)))) &&
                selectedField == Some(field)
    {
      var page := CurrentPage();
      if page.None? {
        return;
      }
      var t := template.value;
      history.Push(t);
      template := Some(t.(pages := UpdatePageFields(t.pages, page.value.num, ReplaceWith(field))));
      selectedField := Some(field);
    }

    /** `onPageRendered`: the rendered size divided by the zoom factor. */
    method OnPageRendered(width: real, height: real)
      requires zoom != 0.0
      modifies this`pageSize
      ensures pageSize.width * ZoomFactor() == width && pageSize.height * ZoomFactor() == height
    {
      var factor := ZoomFactor();
      pageSize := PageSize(width / factor, height / factor);
    }

    /** `exportJson`: nothing (`{}`) without a template, else its pages as wire records. */
    function ExportJson(): (r: Option<seq<WirePage>>)
      reads this
      ensures r.None? <==> template.None?
      ensures r.Some? ==> |r.value| == |template.value.pages| &&
                          forall i :: 0 <= i < |r.value| ==> r.value[i].num == template.value.pages[i].num
      ensures r.Some? ==> r.value == ExportPages(template.value.pages)
    {
      if template.None? then None else Some(ExportPages(template.value.pages))
    }

    /** `undo`: with a template, it is replaced by the snapshot the history hands back, if any. */
    method Undo()
      requires Valid()
      modifies this`template, history
      ensures Valid()
      ensures old(template).None? ==> template == None && unchanged(history)
      ensures old(template).Some? ==>
                template.Some? &&
                Snapshots.Session(history.State(), template.value) ==
                Snapshots.UndoSession(Snapshots.Session(old(history.State()), old(template).value))
    {
      if template.None? {
        return;
      }
      var prev := history.Undo(template.value);
      if prev.Some? {
        template := prev;
      }
    }

    /** `redo`: with a template, it is replaced by the snapshot the history hands back, if any. */
    method Redo()
      requires Valid()
      modifies this`template, history
      ensures Valid()
      ensures old(template).None? ==> template == None && unchanged(history)
      ensures old(template).Some? ==>
                template.Some? &&
                Snapshots.Session(history.State(), template.value) ==
                Snapshots.RedoSession(Snapshots.Session(old(history.State()), old(template).value))
    {
      if template.None? {
        return;
      }
      var next := history.Redo(template.value);
      if next.Some? {
        template := next;
      }
    }
  }
}
