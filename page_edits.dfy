/**
 * Edits of the field list of one page, shared by the two controllers that
 * keep fields nested in pages. Each arrow function the controllers pass to
 * their page update (replace by id, append, filter out an id, empty) is one
 * constructor of `FieldEdit`.
 */
module PageEdits {
  import opened Wrappers
  import opened TemplateModel

  /** `pages.find((p) => p.num === num)`: the first page with that number, if any. */
  function FindPage(pages: seq<Page>, num: int): (r: Option<Page>)
    ensures r.None? <==> forall i :: 0 <= i < |pages| ==> pages[i].num != num
    ensures r.Some? ==> r.value.num == num && r.value == pages[PageIndex(pages, num)]
  {
    if |pages| == 0 then None
    else if pages[0].num == num then Some(pages[0])
    else FindPage(pages[1..], num)
  }

  /** The index of the first page with number `num` (`|pages|` when there is none). */
  function PageIndex(pages: seq<Page>, num: int): (k: nat)
    ensures k <= |pages|
    ensures forall j :: 0 <= j < k ==> pages[j].num != num
    ensures k < |pages| ==> pages[k].num == num
  {
    if |pages| == 0 then 0
    else if pages[0].num == num then 0
    else 1 + PageIndex(pages[1..], num)
  }

  /** `fields.map((f) => (f.id === field.id ? field : f))`. */
  function ReplaceById(fields: seq<Field>, field: Field): seq<Field> {
    seq(|fields|, i requires 0 <= i < |fields| => if fields[i].id == field.id then field else fields[i])
  }

  /** `fields.filter((f) => f.id !== id)`. */
  function RemoveById(fields: seq<Field>, id: string): (r: seq<Field>)
    ensures |r| <= |fields|
    ensures forall f :: f in r <==> f in fields && f.id != id
    ensures (forall i :: 0 <= i < |fields| ==> fields[i].id != id) ==> r == fields
  {
    if |fields| == 0 then []
    else (if fields[0].id == id then [] else [fields[0]]) + RemoveById(fields[1..], id)
  }

  /** Filtering keeps the order of what it keeps: it distributes over concatenation. */
  lemma {:induction false} RemoveByIdDistributes(a: seq<Field>, b: seq<Field>, id: string)
    ensures RemoveById(a + b, id) == RemoveById(a, id) + RemoveById(b, id)
    decreases |a|
  {
    if |a| == 0 {
      assert a + b == b;
    } else {
      assert (a + b)[1..] == a[1..] + b;
      RemoveByIdDistributes(a[1..], b, id);
    }
  }

  /** Removing an id twice is removing it once. */
  lemma RemoveByIdIdempotent(fields: seq<Field>, id: string)
    ensures RemoveById(RemoveById(fields, id), id) == RemoveById(fields, id)
  {
    var r := RemoveById(fields, id);
    assert forall i :: 0 <= i < |r| ==> r[i] in r;
  }

  /** One of the field-list updates a controller applies to a page. */
  datatype FieldEdit =
    | ReplaceWith(field: Field)   // fields.map(f => f.id === field.id ? field : f)
    | AppendField(field: Field)   // [...fields, field]
    | RemoveId(id: string)        // fields.filter(f => f.id !== id)
    | RemoveAll                   // () => []

  function ApplyEdit(fields: seq<Field>, e: FieldEdit): seq<Field> {
    match e
    case ReplaceWith(f) => ReplaceById(fields, f)
    case AppendField(f) => fields + [f]
    case RemoveId(id) => RemoveById(fields, id)
    case RemoveAll => []
  }

  /** `pages.map((page) => page.num === num ? { ...page, fields: edit(page.fields) } : page)`. */
  function UpdatePageFields(pages: seq<Page>, num: int, e: FieldEdit): (r: seq<Page>)
    ensures |r| == |pages|
    ensures forall i :: 0 <= i < |pages| ==> r[i].num == pages[i].num
  {
    seq(|pages|, i requires 0 <= i < |pages| =>
      if pages[i].num == num then pages[i].(fields := ApplyEdit(pages[i].fields, e)) else pages[i])
  }

  /** Only the pages numbered `num` change, and only in their fields. */
  lemma UpdateTouchesOnlyPage(pages: seq<Page>, num: int, e: FieldEdit)
    ensures forall i :: 0 <= i < |pages| && pages[i].num != num ==> UpdatePageFields(pages, num, e)[i] == pages[i]
    ensures forall i :: 0 <= i < |pages| && pages[i].num == num ==>
              UpdatePageFields(pages, num, e)[i].fields == ApplyEdit(pages[i].fields, e)
  {
  }

  /**
   * What each edit does to a field list: a replacement keeps the count and
   * swaps exactly the fields with the given id; an append adds one field at
   * the end; a removal drops every field with the id and nothing else.
   */
  lemma EditEffects(fields: seq<Field>, e: FieldEdit)
    ensures e.ReplaceWith? ==>
              |ApplyEdit(fields, e)| == |fields| &&
              forall i :: 0 <= i < |fields| ==>
                ApplyEdit(fields, e)[i] == (if fields[i].id == e.field.id then e.field else fields[i])
    ensures e.AppendField? ==> ApplyEdit(fields, e) == fields + [e.field]
    ensures e.RemoveId? ==>
              (forall f :: f in ApplyEdit(fields, e) <==> f in fields && f.id != e.id) &&
              ApplyEdit(ApplyEdit(fields, e), e) == ApplyEdit(fields, e)
    ensures e.RemoveAll? ==> ApplyEdit(fields, e) == []
  {
    if e.RemoveId? {
      RemoveByIdIdempotent(fields, e.id);
    }
  }

  /** Page numbers stand densely for 1..|pages|, in order. */
  ghost predicate Dense(pages: seq<Page>) {
    forall i :: 0 <= i < |pages| ==> pages[i].num == i + 1
  }
}
