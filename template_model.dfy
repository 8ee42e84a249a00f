/**
 * The records the editor works on: a field placed on a page, a page of
 * fields, a template, and the twelve-key field record of the exchanged JSON.
 */
module TemplateModel {
  import opened Wrappers

  datatype FieldType = Text | Image

  /** One placeable annotation. Coordinates are document units of its page. */
  datatype Field = Field(
    id: string,
    kind: FieldType,
    mapField: string,
    x: real,
    y: real,
    width: real,
    height: real,
    fontSize: real,
    color: string,
    fontFamily: string,
    opacity: real,
    backgroundColor: string,
    locked: bool,
    hidden: bool,
    value: Option<string>,
    multiline: Option<bool>)

  datatype Page = Page(num: int, fields: seq<Field>)

  /** A template as the store holds it; dates are timestamps in milliseconds. */
  datatype Template = Template(
    id: string,
    name: string,
    description: string,
    pdfUrl: string,
    pages: seq<Page>,
    createdAt: int,
    updatedAt: int)

  /** A field as it is exported or sent to the backend: no id, size or multiline flag. */
  datatype WireField = WireField(
    x: real,
    y: real,
    mapField: string,
    fontSize: real,
    color: string,
    kind: FieldType,
    fontFamily: string,
    opacity: real,
    backgroundColor: string,
    locked: bool,
    hidden: bool,
    value: Option<string>)

  datatype WirePage = WirePage(num: int, fields: seq<WireField>)

  /** The field a wire record describes, given the id, size and multiline flag the record does not carry. */
  function FromWire(w: WireField, id: string, width: real, height: real, multiline: Option<bool>): Field {
    Field(id, w.kind, w.mapField, w.x, w.y, width, height, w.fontSize, w.color, w.fontFamily,
          w.opacity, w.backgroundColor, w.locked, w.hidden, w.value, multiline)
  }

  /**
   * The exported record of a field, coordinates as they are: it carries
   * every attribute but the id, the size and the multiline flag, so those
   * four restore the field from it.
   */
  function ToWire(f: Field): (w: WireField)
    ensures FromWire(w, f.id, f.width, f.height, f.multiline) == f
  {
    WireField(f.x, f.y, f.mapField, f.fontSize, f.color, f.kind, f.fontFamily,
              f.opacity, f.backgroundColor, f.locked, f.hidden, f.value)
  }

  /** `Math.round`: the nearest integer, a half rounded up (towards +infinity). */
  function Round(x: real): (r: int)
    ensures r as real - 0.5 <= x < r as real + 0.5
  {
    (x + 0.5).Floor
  }

  /** The backend record of a field: like `ToWire`, with x and y rounded to integers. */
  function ToRoundedWire(f: Field): (w: WireField)
    ensures w.x == Round(f.x) as real && w.y == Round(f.y) as real
    ensures w.(x := f.x, y := f.y) == ToWire(f)
  {
    ToWire(f).(x := Round(f.x) as real, y := Round(f.y) as real)
  }

  /** The wire record loses exactly the id, the size and the multiline flag of a field. */
  lemma WireForgetsIdAndSize(f: Field, g: Field)
    ensures ToWire(f) == ToWire(g) <==>
            f.(id := g.id, width := g.width, height := g.height, multiline := g.multiline) == g
  {
  }

  /** Rounding moves each coordinate by at most a half and leaves every other key alone. */
  lemma RoundedWireIsNearest(f: Field)
    ensures ToRoundedWire(f).(x := f.x, y := f.y) == ToWire(f)
    ensures f.x - 0.5 < ToRoundedWire(f).x <= f.x + 0.5
    ensures f.y - 0.5 < ToRoundedWire(f).y <= f.y + 0.5
    ensures ToRoundedWire(f).x == ToRoundedWire(f).x.Floor as real
  {
  }
}
