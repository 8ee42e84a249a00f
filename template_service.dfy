/**
 * The in-memory template store: two seeded templates, lookup by id,
 * creation, a shallow-merging update, deletion, and the backend payload of
 * a page list. Fresh ids and the current time are parameters.
 */
module TemplateServices {
  import opened Wrappers
  import opened TemplateModel
  import EditorPage
  import Sequences

  /** The PDF every seeded template points at: a one-page document as a data URL. */
  const PlaceholderPdf: string :=
    "data:application/pdf;base64,JVBERi0xLjUKJeLjz9MNCjEgMCBvYmoNCjw8L1BhZ2VzIDIgMCBSDQo+Pg0KZW5kb2JqDQoyIDAgb2JqDQo8PC9UeXBlIC9QYWdlcy9Db3VudCAxL0tpZHMgWyAzIDAgUiBdDQo+Pg0KZW5kb2JqDQozIDAgb2JqDQo8PC9UeXBlIC9QYWdlL1BhcmVudCAyIDAgUi9NZWRpYUJveCBbMCAwIDYxMiA3OTJdL0NvbnRlbnRzIDQgMCBSDQo+Pg0KZW5kb2JqDQp4cmVmDQowIDUNCjAwMDAwMDAwMDAgNjU1MzUgZiANCjAwMDAwMDAxMTIgMDAwMDAgbiANCjAwMDAwMDAyMTIgMDAwMDAgbiANCjAwMDAwMDAzMTIgMDAwMDAgbiANCjAwMDAwMDA0MTIgMDAwMDAgbiANCnRyYWlsZXINCjw8L1Jvb3QgMSAwIFIvU2l6ZSA1Pj4NCnN0YXJ0eHJlZg0KNDE2DQolJUVPRg=="

  /** What `create` takes: a template without id and dates. */
  datatype TemplatePayload = TemplatePayload(name: string, description: string, pdfUrl: string, pages: seq<Page>)

  /** What `update` takes: any subset of the payload's keys, an absent key being None. */
  datatype TemplatePatch = TemplatePatch(
    name: Option<string>,
    description: Option<string>,
    pdfUrl: Option<string>,
    pages: Option<seq<Page>>)

  /** The one page both seeded templates start with (a copy each, so their field shares its id). */
  function SeedPage(fieldId: string): Page {
    Page(1, [Field(fieldId, Text, "Ejemplo", 140.0, 180.0, 180.0, 40.0, 18.0, "#ff0000",
                   "standard:roboto", 1.0, "#1eff00", false, false, Some("Texto de ejemplo"), Some(true))])
  }

  /** A seeded template: the placeholder PDF and the seed page, created and updated now. */
  function SeedTemplate(id: string, name: string, description: string, fieldId: string, now: int): Template {
    Template(id, name, description, PlaceholderPdf, [SeedPage(fieldId)], now, now)
  }

  /** `createMockTemplates`. */
  function SeedTemplates(firstId: string, secondId: string, fieldId: string, now: int): (r: seq<Template>)
    ensures |r| == 2 && r[0].id == firstId && r[1].id == secondId
    ensures forall i :: 0 <= i < 2 ==> r[i].pages == [SeedPage(fieldId)] && r[i].createdAt == r[i].updatedAt == now
  {
    [SeedTemplate(firstId, "Contrato Laboral", "Plantilla base para contratos laborales.", fieldId, now),
     SeedTemplate(secondId, "Orden de compra", "Versión editable para órdenes de compra con campos básicos.",
                  fieldId, now)]
  }

  /** `list.find((t) => t.id === id)`. */
  function FindTemplate(ts: seq<Template>, id: string): (r: Option<Template>)
    ensures r.None? <==> forall i :: 0 <= i < |ts| ==> ts[i].id != id
    ensures r.Some? ==> exists i :: 0 <= i < |ts| && ts[i] == r.value && r.value.id == id &&
                                    forall j :: 0 <= j < i ==> ts[j].id != id
  {
    if |ts| == 0 then None
    else if ts[0].id == id then Some(ts[0])
    else
      var r := FindTemplate(ts[1..], id);
      if r.Some? then
        var i :| 0 <= i < |ts[1..]| && ts[1..][i] == r.value && r.value.id == id &&
                 forall j :: 0 <= j < i ==> ts[1..][j].id != id;
        assert ts[i + 1] == r.value;
        r
      else r
  }

  /** The template `create` stores: the payload with the new id and both dates set to now. */
  function FromPayload(p: TemplatePayload, id: string, now: int): (r: Template)
    ensures TemplatePayload(r.name, r.description, r.pdfUrl, r.pages) == p
    ensures r.id == id && r.createdAt == now && r.updatedAt == now
  {
    Template(id, p.name, p.description, p.pdfUrl, p.pages, now, now)
  }

  /** `{ ...item, ...payload, updatedAt: now }`: the keys present in the patch win, and the update time is now. */
  function Merge(item: Template, patch: TemplatePatch, now: int): (r: Template)
    ensures r.id == item.id && r.createdAt == item.createdAt && r.updatedAt == now
    ensures patch == TemplatePatch(None, None, None, None) ==> r == item.(updatedAt := now)
    ensures r.name == patch.name.GetOr(item.name) && r.description == patch.description.GetOr(item.description)
    ensures r.pdfUrl == patch.pdfUrl.GetOr(item.pdfUrl)
    ensures patch.pages.Some? ==> r.pages == patch.pages.value
    ensures patch.pages.None? ==> r.pages == item.pages
  {
    item.(name := patch.name.GetOr(item.name),
          description := patch.description.GetOr(item.description),
          pdfUrl := patch.pdfUrl.GetOr(item.pdfUrl),
          pages := patch.pages.GetOr(item.pages),
          updatedAt := now)
  }

  /** Merging the same patch twice is merging it once. */
  lemma MergeIdempotent(item: Template, patch: TemplatePatch, now: int)
    ensures Merge(Merge(item, patch, now), patch, now) == Merge(item, patch, now)
  {
  }

  /** The list after `update`: each template with the id merged, every other one as it was. */
  function UpdateAll(ts: seq<Template>, id: string, patch: TemplatePatch, now: int): (r: seq<Template>)
    ensures |r| == |ts|
    ensures forall i :: 0 <= i < |ts| ==> r[i].id == ts[i].id && r[i].createdAt == ts[i].createdAt
    ensures forall i :: 0 <= i < |ts| && ts[i].id != id ==> r[i] == ts[i]
    ensures forall i :: 0 <= i < |ts| && ts[i].id == id ==> r[i] == Merge(ts[i], patch, now)
  {
    seq(|ts|, i requires 0 <= i < |ts| => if ts[i].id == id then Merge(ts[i], patch, now) else ts[i])
  }

  /** The index of the last template with the id, or -1. */
  function LastWithId(ts: seq<Template>, id: string): int {
    Sequences.LastMatch(ts, (t: Template) => t.id, id)
  }

  /** `list.filter((item) => item.id !== id)`. */
  function RemoveTemplate(ts: seq<Template>, id: string): (r: seq<Template>)
    ensures |r| <= |ts|
    ensures forall t :: t in r <==> t in ts && t.id != id
  {
    if |ts| == 0 then []
    else (if ts[0].id == id then [] else [ts[0]]) + RemoveTemplate(ts[1..], id)
  }

  /** Deleting keeps the order of the templates it keeps: the filter distributes over concatenation. */
  lemma {:induction false} RemoveTemplateDistributes(a: seq<Template>, b: seq<Template>, id: string)
    ensures RemoveTemplate(a + b, id) == RemoveTemplate(a, id) + RemoveTemplate(b, id)
    decreases |a|
  {
    if |a| == 0 {
      assert a + b == b;
    } else {
      assert (a + b)[1..] == a[1..] + b;
      RemoveTemplateDistributes(a[1..], b, id);
    }
  }

  /** Deleting an id that no template has changes nothing; deleting twice is deleting once. */
  lemma RemoveTemplateIdempotent(ts: seq<Template>, id: string)
    ensures (forall i :: 0 <= i < |ts| ==> ts[i].id != id) ==> RemoveTemplate(ts, id) == ts
    ensures RemoveTemplate(RemoveTemplate(ts, id), id) == RemoveTemplate(ts, id)
  {
    var r := RemoveTemplate(ts, id);
    assert forall i :: 0 <= i < |r| ==> r[i] in r;
    NoMatchKeepsAll(r, id);
    if forall i :: 0 <= i < |ts| ==> ts[i].id != id {
      NoMatchKeepsAll(ts, id);
    }
  }

  lemma {:induction false} NoMatchKeepsAll(ts: seq<Template>, id: string)
    requires forall i :: 0 <= i < |ts| ==> ts[i].id != id
    ensures RemoveTemplate(ts, id) == ts
    decreases |ts|
  {
    if |ts| > 0 {
      NoMatchKeepsAll(ts[1..], id);
    }
  }

  /** A created template is found under its fresh id. */
  lemma FindAfterCreate(ts: seq<Template>, p: TemplatePayload, id: string, now: int)
    requires forall i :: 0 <= i < |ts| ==> ts[i].id != id
    ensures FindTemplate(ts + [FromPayload(p, id, now)], id) == Some(FromPayload(p, id, now))
  {
    var t := FromPayload(p, id, now);
    var r := FindTemplate(ts + [t], id);
    assert (ts + [t])[|ts|] == t;
    var k :| 0 <= k < |ts + [t]| && (ts + [t])[k] == r.value && r.value.id == id &&
             forall j :: 0 <= j < k ==> (ts + [t])[j].id != id;
    assert k == |ts|;
  }

  /** After an update the first template with the id is found merged; an unknown id stays unknown. */
  lemma FindAfterUpdate(ts: seq<Template>, id: string, patch: TemplatePatch, now: int)
    ensures FindTemplate(UpdateAll(ts, id, patch, now), id) ==
            (if FindTemplate(ts, id).Some? then Some(Merge(FindTemplate(ts, id).value, patch, now)) else None)
  {
    var u := UpdateAll(ts, id, patch, now);
    var fu := FindTemplate(u, id);
    var ft := FindTemplate(ts, id);
    if ft.Some? {
      var i :| 0 <= i < |ts| && ts[i] == ft.value && forall j :: 0 <= j < i ==> ts[j].id != id;
      assert u[i].id == id;
      var k :| 0 <= k < |u| && u[k] == fu.value && forall j :: 0 <= j < k ==> u[j].id != id;
      assert k <= i;
      assert u[k].id == ts[k].id;
      assert k == i;
    }
  }

  /** A deleted id is found no more. */
  lemma FindAfterDelete(ts: seq<Template>, id: string)
    ensures FindTemplate(RemoveTemplate(ts, id), id) == None
  {
    var r := RemoveTemplate(ts, id);
    assert forall i :: 0 <= i < |r| ==> r[i] in r;
  }

  /** `toBackendPayload`: every page with its number and the rounded wire records of its fields. */
  function ToBackendPayload(pages: seq<Page>): (r: seq<WirePage>)
    ensures |r| == |pages|
    ensures forall i :: 0 <= i < |r| ==>
              r[i].num == pages[i].num && |r[i].fields| == |pages[i].fields| &&
              forall j :: 0 <= j < |r[i].fields| ==> r[i].fields[j] == ToRoundedWire(pages[i].fields[j])
  {
    seq(|pages|, i requires 0 <= i < |pages| =>
      WirePage(pages[i].num, seq(|pages[i].fields|, j requires 0 <= j < |pages[i].fields| =>
        ToRoundedWire(pages[i].fields[j]))))
  }

  /**
   * The backend payload is the editor's JSON export with x and y rounded to
   * the nearest integer; where the coordinates are integers already, the two
   * are the same.
   */
  lemma BackendPayloadIsRoundedExport(pages: seq<Page>)
    ensures var b := ToBackendPayload(pages);
            var e := EditorPage.ExportPages(pages);
            |b| == |e| &&
            forall i :: 0 <= i < |b| ==>
              b[i].num == e[i].num && |b[i].fields| == |e[i].fields| &&
              forall j :: 0 <= j < |b[i].fields| ==>
                b[i].fields[j] == e[i].fields[j].(x := Round(e[i].fields[j].x) as real, y := Round(e[i].fields[j].y) as real)
    ensures (forall i, j :: 0 <= i < |pages| && 0 <= j < |pages[i].fields| ==>
               pages[i].fields[j].x == pages[i].fields[j].x.Floor as real &&
               pages[i].fields[j].y == pages[i].fields[j].y.Floor as real) ==>
            ToBackendPayload(pages) == EditorPage.ExportPages(pages)
  {
    if forall i, j :: 0 <= i < |pages| && 0 <= j < |pages[i].fields| ==>
         pages[i].fields[j].x == pages[i].fields[j].x.Floor as real &&
         pages[i].fields[j].y == pages[i].fields[j].y.Floor as real {
      var b := ToBackendPayload(pages);
      var e := EditorPage.ExportPages(pages);
      forall i | 0 <= i < |pages| ensures b[i] == e[i] {
        forall j | 0 <= j < |pages[i].fields| ensures b[i].fields[j] == e[i].fields[j] {
          var f := pages[i].fields[j];
          assert Round(f.x) == f.x.Floor;
          assert Round(f.y) == f.y.Floor;
        }
      }
    }
  }

  class TemplateService {
    var templates: seq<Template>

    /** The store starts with the two seeded templates. */
    constructor (firstId: string, secondId: string, fieldId: string, now: int)
      ensures templates == SeedTemplates(firstId, secondId, fieldId, now)
    {
      templates := SeedTemplates(firstId, secondId, fieldId, now);
    }

    method GetAll() returns (r: seq<Template>)
      ensures r == templates
    {
      r := templates;
    }

    /** `getById`: the first template with the id, if any. */
    method GetById(id: string) returns (r: Option<Template>)
      ensures r == FindTemplate(templates, id)
    {
      r := FindTemplate(templates, id);
    }

    /** `create`: the new template is appended and returned. */
    method Create(payload: TemplatePayload, freshId: string, now: int) returns (t: Template)
      modifies this
      ensures t == FromPayload(payload, freshId, now)
      ensures templates == old(templates) + [t]
    {
      t := FromPayload(payload, freshId, now);
      templates := templates + [t];
    }

    /**
     * `update`: every template with the id is merged with the patch; the
     * result is the last one merged, or nothing when no template has the id.
     */
    method Update(id: string, patch: TemplatePatch, now: int) returns (updated: Option<Template>)
      modifies this
      ensures templates == UpdateAll(old(templates), id, patch, now)
      ensures LastWithId(old(templates), id) < 0 ==> updated == None
      ensures LastWithId(old(templates), id) >= 0 ==>
                updated == Some(Merge(old(templates)[LastWithId(old(templates), id)], patch, now))
    {
      var list := templates;
      var next: seq<Template> := [];
      updated := None;
      var i := 0;
      while i < |list|
        invariant 0 <= i <= |list|
        invariant |next| == i
        invariant forall k :: 0 <= k < i ==> next[k] == UpdateAll(list, id, patch, now)[k]
        invariant LastWithId(list[..i], id) < 0 ==> updated == None
        invariant LastWithId(list[..i], id) >= 0 ==>
                    updated == Some(Merge(list[LastWithId(list[..i], id)], patch, now))
      {
        assert list[..i + 1][..i] == list[..i];
        assert list[..i + 1][i] == list[i];
        if list[i].id == id {
          updated := Some(Merge(list[i], patch, now));
          next := next + [updated.value];
        } else {
          next := next + [list[i]];
        }
        i := i + 1;
      }
      assert list[..|list|] == list;
      assert next == UpdateAll(list, id, patch, now);
      templates := next;
    }

    /** `delete`: every template with the id is dropped; the answer is always yes. */
    method Delete(id: string) returns (ok: bool)
      modifies this
      ensures ok
      ensures templates == RemoveTemplate(old(templates), id)
    {
      templates := RemoveTemplate(templates, id);
      ok := true;
    }
  }
}
