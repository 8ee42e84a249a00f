/**
 * The session logic of the template editor: page navigation, field creation
 * through a preview, editing, duplication and deletion on the current page,
 * JSON import, alignment of the page list with the PDF, the y-up coordinate
 * transform between the page stage and document units, and the drag/click
 * decision of a pointer gesture on a field.
 */
module TemplateEditor {
  import opened Wrappers
  import opened TemplateModel
  import opened PageEdits
  import Snapshots
  import UndoRedoServices
  import Sequences

  // ---------------------------------------------------------------------
  // String trimming (`String.prototype.trim`)
  // ---------------------------------------------------------------------

  /** The white space and line terminators that `trim` strips. */
  predicate IsSpace(c: char) {
    c == ' ' || c == '\t' || c == '\n' || c == '\r' || c == '\U{000B}' || c == '\U{000C}' ||
    c == '\U{00A0}' || c == '\U{1680}' || ('\U{2000}' <= c <= '\U{200A}') ||
    c == '\U{2028}' || c == '\U{2029}' || c == '\U{202F}' || c == '\U{205F}' ||
    c == '\U{3000}' || c == '\U{FEFF}'
  }

  /** `s` without its leading white space. */
  function TrimStart(s: string): (r: string)
    ensures |r| <= |s| && r == s[|s| - |r|..]
    ensures r != [] ==> !IsSpace(r[0])
    ensures forall i :: 0 <= i < |s| - |r| ==> IsSpace(s[i])
    decreases |s|
  {
    if |s| > 0 && IsSpace(s[0]) then TrimStart(s[1..]) else s
  }

  /** `s` without its trailing white space. */
  function TrimEnd(s: string): (r: string)
    ensures |r| <= |s| && r == s[..|r|]
    ensures r != [] ==> !IsSpace(r[|r| - 1])
    ensures forall i :: |r| <= i < |s| ==> IsSpace(s[i])
    decreases |s|
  {
    if |s| > 0 && IsSpace(s[|s| - 1]) then TrimEnd(s[..|s| - 1]) else s
  }

  function Trim(s: string): string {
    TrimEnd(TrimStart(s))
  }

  /** A string trims to nothing exactly when it is all white space. */
  lemma TrimBlankIff(s: string)
    ensures Trim(s) == "" <==> forall i :: 0 <= i < |s| ==> IsSpace(s[i])
  {
    var t := TrimStart(s);
    if Trim(s) == "" {
    } else {
      var r := Trim(s);
      assert !IsSpace(r[0]);
      assert r[0] == t[0] == s[|s| - |t|];
    }
  }

  /** A string with no white space at either end is its own trim. */
  lemma TrimOfTrimmed(s: string)
    requires s != [] ==> !IsSpace(s[0]) && !IsSpace(s[|s| - 1])
    ensures Trim(s) == s
  {
  }

  lemma TrimIdempotent(s: string)
    ensures Trim(Trim(s)) == Trim(s)
  {
    var r := Trim(s);
    if r != [] {
      assert !IsSpace(r[|r| - 1]);
      var t := TrimStart(s);
      assert r == t[..|r|];
      assert r[0] == t[0];
    }
    TrimOfTrimmed(r);
  }

  // ---------------------------------------------------------------------
  // Numbers
  // ---------------------------------------------------------------------

  function Max(a: real, b: real): real { if a >= b then a else b }

  function Min(a: real, b: real): real { if a <= b then a else b }

  /** `clamp(value, min, max)` = `Math.min(Math.max(value, min), max)`. */
  function Clamp(value: real, lo: real, hi: real): (r: real)
    ensures lo <= hi ==> lo <= r <= hi
    ensures lo <= value <= hi ==> r == value
    ensures value < lo && lo <= hi ==> r == lo
    ensures value > hi ==> r == hi
  {
    Min(Max(value, lo), hi)
  }

  /** `totalPages`: the field-data page count (1 when there are none) or the PDF's, whichever is larger. */
  function TotalPages(pages: seq<Page>, pdfTotalPages: int): (r: int)
    ensures r >= 1 && r >= |pages| && r >= pdfTotalPages
    ensures r == |pages| || r == pdfTotalPages || (r == 1 && pages == [])
  {
    var known := if |pages| == 0 then 1 else |pages|;
    if known >= pdfTotalPages then known else pdfTotalPages
  }

  // ---------------------------------------------------------------------
  // Field rules
  // ---------------------------------------------------------------------

  /**
   * `fieldHasRenderableContent`: a field is worth placing when it is an
   * image, has a non-empty value, or a label with some non-white-space
   * character.
   */
  predicate HasRenderableContent(f: Field): (b: bool)
    ensures b <==> f.kind == Image || (f.value.Some? && f.value.value != "") ||
                   exists i :: 0 <= i < |f.mapField| && !IsSpace(f.mapField[i])
  {
    TrimBlankIff(f.mapField);
    Trim(f.mapField) != "" || (f.value.Some? && f.value.value != "") || f.kind == Image
  }

  /**
   * `normalizeField`: a trimmed, non-blank label ('Campo' when blank), a
   * non-zero font size (12), width (200) and height (32), and an opacity
   * clamped into [0, 1]; everything else as it was.
   */
  function NormalizeField(f: Field): (r: Field)
    ensures 0.0 <= r.opacity <= 1.0
    ensures r.fontSize != 0.0 && r.width != 0.0 && r.height != 0.0
    ensures r == f.(mapField := r.mapField, fontSize := r.fontSize, opacity := r.opacity,
                    width := r.width, height := r.height)
  {
    var trimmed := Trim(f.mapField);
    f.(mapField := if trimmed != "" then trimmed else "Campo",
       fontSize := if f.fontSize != 0.0 then f.fontSize else 12.0,
       opacity := Clamp(f.opacity, 0.0, 1.0),
       width := if f.width != 0.0 then f.width else 200.0,
       height := if f.height != 0.0 then f.height else 32.0)
  }

  /** The normalised label is the trimmed label, or 'Campo' when that is blank; either way it is non-blank and trimmed. */
  lemma NormalizedLabel(f: Field)
    ensures var m := NormalizeField(f).mapField;
            m == (if Trim(f.mapField) == "" then "Campo" else Trim(f.mapField)) &&
            m != "" && Trim(m) == m
  {
    if Trim(f.mapField) == "" {
      TrimOfTrimmed("Campo");
    } else {
      TrimIdempotent(f.mapField);
    }
  }

  /**
   * A normalised field has a label that is non-blank and already trimmed, so
   * it always has renderable content; a zero font size, width or height
   * falls back to 12, 200 or 32, the opacity is clamped into [0, 1], and
   * values that were already valid are kept.
   */
  lemma NormalizeFieldRules(f: Field)
    ensures var r := NormalizeField(f);
            Trim(r.mapField) != "" && Trim(r.mapField) == r.mapField && HasRenderableContent(r) &&
            r.mapField == (if Trim(f.mapField) == "" then "Campo" else Trim(f.mapField)) &&
            r.fontSize == (if f.fontSize != 0.0 then f.fontSize else 12.0) &&
            r.width == (if f.width != 0.0 then f.width else 200.0) &&
            r.height == (if f.height != 0.0 then f.height else 32.0) &&
            r.opacity == Clamp(f.opacity, 0.0, 1.0) &&
            (0.0 <= f.opacity <= 1.0 ==> r.opacity == f.opacity)
  {
    NormalizedLabel(f);
  }

  /** Normalising a normalised field changes nothing. */
  lemma NormalizeIdempotent(f: Field)
    ensures NormalizeField(NormalizeField(f)) == NormalizeField(f)
  {
    NormalizeFieldRules(f);
  }

  /** The field `addField` opens in the preview (and, with an empty value, `onHitboxClick`): 200 by 32 at (x, y). */
  function NewField(kind: FieldType, id: string, x: real, y: real): (r: Field)
    ensures r.id == id && r.kind == kind && r.x == x && r.y == y && r.width == 200.0 && r.height == 32.0
    ensures r.value == None && !r.locked && !r.hidden
  {
    Field(id, kind, if kind == Text then "Nuevo texto" else "Imagen", x, y, 200.0, 32.0, 14.0,
          "#1a1a1a", "standard:roboto", 1.0, "#ffffff", false, false, None, None)
  }

  /** A field with a trimmed non-blank label, non-zero sizes and an opacity in [0, 1] is left as it is. */
  lemma NormalizeFixesNormal(f: Field)
    requires Trim(f.mapField) == f.mapField && f.mapField != ""
    requires f.fontSize != 0.0 && f.width != 0.0 && f.height != 0.0 && 0.0 <= f.opacity <= 1.0
    ensures NormalizeField(f) == f
  {
    NormalizeFieldRules(f);
  }

  /** A new field is already normalised, so confirming it stores it as it is. */
  lemma NewFieldIsNormal(kind: FieldType, id: string, x: real, y: real)
    ensures NormalizeField(NewField(kind, id, x, y)) == NewField(kind, id, x, y)
  {
    var f := NewField(kind, id, x, y);
    TrimOfTrimmed(f.mapField);
    NormalizeFixesNormal(f);
  }

  /** A new field has a label to show before anything is typed into it. */
  lemma NewFieldIsRenderable(kind: FieldType, id: string, x: real, y: real)
    ensures HasRenderableContent(NewField(kind, id, x, y))
  {
    var f := NewField(kind, id, x, y);
    assert !IsSpace(f.mapField[0]);
  }

  /**
   * The copy `duplicateField` makes: a new id, nudged by 10 in x and y and
   * clamped so that it stays on a page of the given viewport size.
   */
  function DuplicateOf(f: Field, id: string, viewportWidth: real, viewportHeight: real): (r: Field)
    ensures r.id == id
    ensures r == f.(id := id, x := r.x, y := r.y)
    ensures 0.0 <= r.x <= Max(0.0, viewportWidth - f.width)
    ensures 0.0 <= r.y <= Max(0.0, viewportHeight - f.height)
    ensures 0.0 <= f.x + 10.0 <= viewportWidth - f.width ==> r.x == f.x + 10.0
    ensures 0.0 <= f.y + 10.0 <= viewportHeight - f.height ==> r.y == f.y + 10.0
    ensures r.x == Clamp(f.x + 10.0, 0.0, Max(0.0, viewportWidth - f.width))
    ensures r.y == Clamp(f.y + 10.0, 0.0, Max(0.0, viewportHeight - f.height))
  {
    f.(id := id,
       x := Clamp(f.x + 10.0, 0.0, Max(0.0, viewportWidth - f.width)),
       y := Clamp(f.y + 10.0, 0.0, Max(0.0, viewportHeight - f.height)))
  }

  /** The fields of a duplicated page: the same fields, the i-th with the new id `ids(i)`. */
  function Reid(fields: seq<Field>, ids: nat -> string): (r: seq<Field>)
    ensures |r| == |fields|
    ensures forall i :: 0 <= i < |fields| ==> r[i] == fields[i].(id := ids(i))
  {
    seq(|fields|, i requires 0 <= i < |fields| => fields[i].(id := ids(i)))
  }

  // ---------------------------------------------------------------------
  // Coordinates: client pixels on the stage versus document units, y up
  // ---------------------------------------------------------------------

  datatype Point = Point(x: real, y: real)

  /** The top-left corner of the page stage in client coordinates. */
  datatype Rect = Rect(left: real, top: real)

  /** Where a field's element is drawn, in CSS pixels relative to the stage. */
  datatype Box = Box(left: real, top: real, width: real, height: real)

  /** `domToPdfCoords`: x scaled down by the zoom; y measured up from the viewport height. */
  function DomToPdf(stage: Rect, zoom: real, viewportHeight: real, p: Point): (r: Point)
    requires zoom > 0.0
    ensures r.x * zoom == p.x - stage.left
    ensures (viewportHeight - r.y) * zoom == p.y - stage.top
  {
    Point((p.x - stage.left) / zoom, viewportHeight - (p.y - stage.top) / zoom)
  }

  /** `positionElement`: the element box of a field whose bottom-left corner is at (x, y). */
  function PositionElement(f: Field, x: real, y: real, zoom: real, viewportHeight: real): (b: Box)
    ensures b.left == x * zoom && b.width == f.width * zoom && b.height == f.height * zoom
    ensures b.top + b.height == (viewportHeight - y) * zoom
  {
    Box(x * zoom, (viewportHeight - y - f.height) * zoom, f.width * zoom, f.height * zoom)
  }

  /** The client point of the bottom-left corner of a drawn box. */
  function BottomLeft(stage: Rect, b: Box): Point {
    Point(stage.left + b.left, stage.top + b.top + b.height)
  }

  /**
   * The two transforms are inverse: a field drawn at (x, y) has its
   * bottom-left corner where a pointer reads (x, y) back, and drawing at the
   * point a pointer reads puts that corner under the pointer.
   */
  lemma PositionInvertsDomToPdf(stage: Rect, zoom: real, viewportHeight: real, f: Field, x: real, y: real, p: Point)
    requires zoom > 0.0
    ensures DomToPdf(stage, zoom, viewportHeight,
                     BottomLeft(stage, PositionElement(f, x, y, zoom, viewportHeight))) == Point(x, y)
    ensures var d := DomToPdf(stage, zoom, viewportHeight, p);
            BottomLeft(stage, PositionElement(f, d.x, d.y, zoom, viewportHeight)) == p
  {
    var b := PositionElement(f, x, y, zoom, viewportHeight);
    assert (b.left) / zoom == x;
    assert (b.top + b.height) / zoom == viewportHeight - y by {
      assert b.top + b.height == (viewportHeight - y) * zoom;
    }
    var d := DomToPdf(stage, zoom, viewportHeight, p);
    assert d.x * zoom == p.x - stage.left;
    assert (viewportHeight - d.y) * zoom == p.y - stage.top;
  }

  /** The top-left placement of a new field of size w by h centred on a click, kept on the page. */
  function CentredPlacement(c: Point, w: real, h: real, viewportWidth: real, viewportHeight: real): Point {
    Point(Clamp(c.x - w / 2.0, 0.0, Max(0.0, viewportWidth - w)),
          Clamp(c.y - h / 2.0, 0.0, Max(0.0, viewportHeight - h)))
  }

  /** A click places the 200 by 32 field on the page, centred on the click when it fits. */
  lemma HitboxPlacementOnPage(c: Point, viewportWidth: real, viewportHeight: real)
    ensures var p := CentredPlacement(c, 200.0, 32.0, viewportWidth, viewportHeight);
            0.0 <= p.x <= Max(0.0, viewportWidth - 200.0) &&
            0.0 <= p.y <= Max(0.0, viewportHeight - 32.0) &&
            (0.0 <= c.x - 100.0 <= viewportWidth - 200.0 ==> p.x + 100.0 == c.x) &&
            (0.0 <= c.y - 16.0 <= viewportHeight - 32.0 ==> p.y + 16.0 == c.y)
  {
  }

  // ---------------------------------------------------------------------
  // Pointer gestures on a field
  // ---------------------------------------------------------------------

  /** One press on a field: the client point of `pointerdown`, each `pointermove`, and `pointerup`. */
  datatype Gesture = Gesture(down: Point, moves: seq<Point>, up: Point)

  /** What the gesture ends in: the inline editor opened, one position update, or nothing. */
  datatype PointerOutcome = OpenEditor | MoveTo(x: real, y: real) | NoOutcome

  function SqDist(a: Point, b: Point): real {
    (a.x - b.x) * (a.x - b.x) + (a.y - b.y) * (a.y - b.y)
  }

  /** Some move went more than 3 px from the press (`Math.hypot(...) > 3`, squared). */
  ghost predicate Dragged(start: Point, moves: seq<Point>) {
    exists i :: 0 <= i < |moves| && SqDist(moves[i], start) > 9.0
  }

  /** The `move` handler's `dragged` flag: set once a move exceeds the threshold, never reset. */
  method TrackDrag(start: Point, moves: seq<Point>) returns (dragged: bool)
    ensures dragged <==> Dragged(start, moves)
  {
    dragged := false;
    var i := 0;
    while i < |moves|
      invariant 0 <= i <= |moves|
      invariant dragged <==> exists k :: 0 <= k < i && SqDist(moves[k], start) > 9.0
    {
      if SqDist(moves[i], start) > 9.0 {
        dragged := true;
      }
      i := i + 1;
    }
  }

  /**
   * The position the `up` handler computes: the pointer's document position
   * minus the press offset, clamped to [0, max(0, W - w)] x [0, max(0, H - h)].
   */
  function DropPosition(f: Field, stage: Rect, zoom: real, viewportWidth: real, viewportHeight: real, g: Gesture): (r: Point)
    requires zoom > 0.0
    ensures 0.0 <= r.x <= Max(0.0, viewportWidth - f.width)
    ensures 0.0 <= r.y <= Max(0.0, viewportHeight - f.height)
  {
    var start := DomToPdf(stage, zoom, viewportHeight, g.down);
    var c := DomToPdf(stage, zoom, viewportHeight, g.up);
    Point(Clamp(c.x - (start.x - f.x), 0.0, Max(0.0, viewportWidth - f.width)),
          Clamp(c.y - (start.y - f.y), 0.0, Max(0.0, viewportHeight - f.height)))
  }

  /** `handleFieldPointerDown` with its `move` and `up` handlers, as one decision. */
  ghost function GestureOutcome(f: Field, stage: Option<Rect>, zoom: real,
                                viewportWidth: real, viewportHeight: real, g: Gesture): PointerOutcome
    requires zoom > 0.0
  {
    if f.locked then OpenEditor
    else if stage.None? then NoOutcome
    else if Dragged(g.down, g.moves) then
      var p := DropPosition(f, stage.value, zoom, viewportWidth, viewportHeight, g);
      MoveTo(p.x, p.y)
    else OpenEditor
  }

  /**
   * The gesture rules: a locked field opens for editing; a press that never
   * leaves the 3 px threshold opens for editing; only a drag moves, and it
   * moves the field to a position inside the page.
   */
  lemma GestureRules(f: Field, stage: Option<Rect>, zoom: real, viewportWidth: real, viewportHeight: real, g: Gesture)
    requires zoom > 0.0
    ensures f.locked ==> GestureOutcome(f, stage, zoom, viewportWidth, viewportHeight, g) == OpenEditor
    ensures stage.Some? && !Dragged(g.down, g.moves) ==>
              GestureOutcome(f, stage, zoom, viewportWidth, viewportHeight, g) == OpenEditor
    ensures GestureOutcome(f, stage, zoom, viewportWidth, viewportHeight, g).MoveTo? <==>
              !f.locked && stage.Some? && Dragged(g.down, g.moves)
    ensures var o := GestureOutcome(f, stage, zoom, viewportWidth, viewportHeight, g);
            o.MoveTo? ==> 0.0 <= o.x <= Max(0.0, viewportWidth - f.width) &&
                          0.0 <= o.y <= Max(0.0, viewportHeight - f.height)
  {
  }

  lemma DivSub(a: real, b: real, z: real)
    requires z != 0.0
    ensures a / z - b / z == (a - b) / z
  {
    var p, q := a / z, b / z;
    assert p * z == a && q * z == b;
    assert (p - q) * z == a - b;
  }

  /**
   * Away from the page edges a drag moves the field by the pointer's
   * displacement divided by the zoom, with y flipped (document y grows upward).
   */
  lemma DropFollowsPointer(f: Field, stage: Rect, zoom: real, viewportWidth: real, viewportHeight: real, g: Gesture)
    requires zoom > 0.0
    requires 0.0 <= f.x + (g.up.x - g.down.x) / zoom <= viewportWidth - f.width
    requires 0.0 <= f.y - (g.up.y - g.down.y) / zoom <= viewportHeight - f.height
    ensures DropPosition(f, stage, zoom, viewportWidth, viewportHeight, g) ==
            Point(f.x + (g.up.x - g.down.x) / zoom, f.y - (g.up.y - g.down.y) / zoom)
  {
    var start := DomToPdf(stage, zoom, viewportHeight, g.down);
    var c := DomToPdf(stage, zoom, viewportHeight, g.up);
    DivSub(g.up.x - stage.left, g.down.x - stage.left, zoom);
    DivSub(g.up.y - stage.top, g.down.y - stage.top, zoom);
    assert c.x - start.x == (g.up.x - g.down.x) / zoom;
    assert c.y - start.y == -((g.up.y - g.down.y) / zoom);
  }

  // ---------------------------------------------------------------------
  // JSON import
  // ---------------------------------------------------------------------

  /**
   * An already parsed JSON value, as far as the import looks at it: an
   * array (whose items the import takes as pages unchecked), an object with
   * or without a `pages` member, `null`, or any other scalar.
   */
  datatype Json = JNull | JScalar | JArray(items: seq<Page>) | JObject(pages: Option<Json>)

  /** `parsed.pages ?? parsed`; nothing when reading `.pages` of `null` throws. */
  function PagesOrSelf(j: Json): Option<Json> {
    match j
    case JNull => None
    case JObject(Some(p)) => if p == JNull then Some(j) else Some(p)
    case _ => Some(j)
  }

  /** The pages an import accepts: none when parsing failed or `pages ?? parsed` is not an array. */
  function ImportedPages(parsed: Option<Json>): Option<seq<Page>> {
    if parsed.None? then None
    else match PagesOrSelf(parsed.value)
      case Some(JArray(ps)) => Some(ps)
      case _ => None
  }

  /** The import accepts exactly a bare array of pages or an object whose `pages` is one. */
  lemma ImportAcceptsExactlyArrays(j: Json, ps: seq<Page>)
    ensures ImportedPages(Some(j)) == Some(ps) <==> (j == JArray(ps) || j == JObject(Some(JArray(ps))))
    ensures ImportedPages(None) == None
    ensures ImportedPages(Some(JObject(None))) == None
  {
  }

  // ---------------------------------------------------------------------
  // Aligning the pages with the PDF
  // ---------------------------------------------------------------------

  /** The index of the last page numbered `num`, or -1 when there is none. */
  function LastIndex(pages: seq<Page>, num: int): int {
    Sequences.LastMatch(pages, (p: Page) => p.num, num)
  }

  /** `new Map(pages.map((p) => [p.num, p])).get(num)`: the last page with that number wins. */
  function ByNumber(pages: seq<Page>, num: int): Option<Page> {
    var k := LastIndex(pages, num);
    if k < 0 then None else Some(pages[k])
  }

  /** Page `num` of the aligned list: the last page with that number, or a new empty one. */
  function AlignedAt(pages: seq<Page>, num: int): (r: Page)
    ensures r.num == num
    ensures (forall i :: 0 <= i < |pages| ==> pages[i].num != num) ==> r.fields == []
    ensures ByNumber(pages, num).Some? ==> r == ByNumber(pages, num).value
  {
    ByNumber(pages, num).GetOr(Page(num, []))
  }

  lemma ByNumberExtend(pages: seq<Page>, p: Page, num: int)
    ensures ByNumber(pages + [p], num) == if p.num == num then Some(p) else ByNumber(pages, num)
  {
    assert (pages + [p])[..|pages|] == pages;
  }

  /** The loop of `alignPagesWithPdf`: pages 1..total, each the last page with its number or an empty one. */
  method AlignPages(current: seq<Page>, total: nat) returns (normalized: seq<Page>)
    ensures |normalized| == total
    ensures forall j :: 0 <= j < total ==> normalized[j] == AlignedAt(current, j + 1)
  {
    var byNumber: map<int, Page> := map[];
    var i := 0;
    while i < |current|
      invariant 0 <= i <= |current|
      invariant forall k :: k in byNumber <==> ByNumber(current[..i], k).Some?
      invariant forall k :: k in byNumber ==> byNumber[k] == ByNumber(current[..i], k).value
    {
      assert current[..i + 1] == current[..i] + [current[i]];
      forall k | true
        ensures ByNumber(current[..i + 1], k) ==
                if current[i].num == k then Some(current[i]) else ByNumber(current[..i], k)
      {
        ByNumberExtend(current[..i], current[i], k);
      }
      byNumber := byNumber[current[i].num := current[i]];
      i := i + 1;
    }
    assert current[..|current|] == current;
    normalized := [];
    var num := 1;
    while num <= total
      invariant 1 <= num <= total + 1
      invariant |normalized| == num - 1
      invariant forall j :: 0 <= j < num - 1 ==> normalized[j] == AlignedAt(current, j + 1)
    {
      normalized := normalized + [if num in byNumber then byNumber[num] else Page(num, [])];
      num := num + 1;
    }
  }

  /** The aligned list is numbered densely 1..total, and each page keeps the fields recorded under its number. */
  lemma AlignedIsDense(current: seq<Page>, total: nat, normalized: seq<Page>)
    requires |normalized| == total
    requires forall j :: 0 <= j < total ==> normalized[j] == AlignedAt(current, j + 1)
    ensures Dense(normalized)
    ensures forall j :: 0 <= j < total && LastIndex(current, j + 1) >= 0 ==>
              normalized[j].fields == current[LastIndex(current, j + 1)].fields
    ensures forall j :: 0 <= j < total && LastIndex(current, j + 1) < 0 ==> normalized[j].fields == []
  {
  }

  // ---------------------------------------------------------------------
  // The editor component
  // ---------------------------------------------------------------------

  /** The size of the last rendered page, in the pixels of the rendered viewport. */
  datatype PageDimensions = PageDimensions(num: int, width: real, height: real)

  class TemplateEditorComponent {
    const undoRedo: UndoRedoServices.UndoRedoService<seq<Page>>

    var template: Option<Template>
    var pages: seq<Page>
    var selectedPage: int
    var selectedFieldId: Option<string>
    var previewField: Option<Field>
    var editingField: Option<Field>
    var zoom: real
    var pdfTotalPages: int
    /** The loaded PDF document, represented by its page count. */
    var pdfDoc: Option<nat>
    var pageDimensions: Option<PageDimensions>
    var currentViewportWidth: real
    var currentViewportHeight: real
    var importBuffer: string

    ghost predicate Valid()
      reads this
    {
      zoom > 0.0
    }

    constructor ()
      ensures Valid() && fresh(undoRedo)
      ensures undoRedo.undoStack == [] && undoRedo.redoStack == []
      ensures template == None && pages == [] && selectedPage == 1 && selectedFieldId == None
      ensures previewField == None && editingField == None && zoom == 1.0 && pdfTotalPages == 1
      ensures pdfDoc == None && pageDimensions == None && importBuffer == ""
    {
      undoRedo := new UndoRedoServices.UndoRedoService();
      template, pages, selectedPage, selectedFieldId := None, [], 1, None;
      previewField, editingField, zoom, pdfTotalPages := None, None, 1.0, 1;
      pdfDoc, pageDimensions := None, None;
      currentViewportWidth, currentViewportHeight := 0.0, 0.0;
      importBuffer := "";
    }

    /** `currentFields`: the fields of the selected page, or none when no page has its number. */
    function CurrentFields(): (r: seq<Field>)
      reads this
      ensures FindPage(pages, selectedPage).Some? ==> r == FindPage(pages, selectedPage).value.fields
      ensures FindPage(pages, selectedPage).None? ==> r == []
    {
      match FindPage(pages, selectedPage)
      case Some(p) => p.fields
      case None => []
    }

    /** The template loaded at start: its pages become the state and the history restarts from them. */
    method Load(tpl: Option<Template>)
      modifies this`template, this`pages, this`selectedPage, undoRedo
      ensures template == tpl
      ensures tpl.None? ==> pages == old(pages) && selectedPage == old(selectedPage) && unchanged(undoRedo)
      ensures tpl.Some? ==>
                pages == tpl.value.pages &&
                selectedPage == (if |tpl.value.pages| > 0 then tpl.value.pages[0].num else 1) &&
                undoRedo.undoStack == [tpl.value.pages] && undoRedo.redoStack == []
    {
      template := tpl;
      if tpl.None? {
        return;
      }
      pages := tpl.value.pages;
      selectedPage := if |tpl.value.pages| > 0 then tpl.value.pages[0].num else 1;
      undoRedo.Clear();
      undoRedo.Push(pages);
    }

    method SetZoom(level: real)
      modifies this`zoom
      ensures zoom == level
    {
      zoom := level;
    }

    method SelectPage(pageNum: int)
      modifies this`selectedPage, this`selectedFieldId
      ensures selectedPage == pageNum && selectedFieldId == None
    {
      selectedPage := pageNum;
      selectedFieldId := None;
    }

    method PreviousPage()
      modifies this`selectedPage, this`selectedFieldId
      ensures old(selectedPage) > 1 ==> selectedPage == old(selectedPage) - 1 && selectedFieldId == None
      ensures old(selectedPage) <= 1 ==> selectedPage == old(selectedPage) && selectedFieldId == old(selectedFieldId)
    {
      if selectedPage > 1 {
        SelectPage(selectedPage - 1);
      }
    }

    method NextPage()
      modifies this`selectedPage, this`selectedFieldId
      ensures old(selectedPage) < TotalPages(pages, pdfTotalPages) ==>
                selectedPage == old(selectedPage) + 1 && selectedFieldId == None
      ensures old(selectedPage) >= TotalPages(pages, pdfTotalPages) ==>
                selectedPage == old(selectedPage) && selectedFieldId == old(selectedFieldId)
    {
      if selectedPage < TotalPages(pages, pdfTotalPages) {
        SelectPage(selectedPage + 1);
      }
    }

    method OpenPreview(field: Field)
      modifies this`previewField, this`editingField
      ensures previewField == Some(field) && editingField == None
    {
      editingField := None;
      previewField := Some(field);
    }

    method StartEditing(field: Field)
      modifies this`previewField, this`editingField, this`selectedFieldId
      ensures previewField == None && editingField == Some(field) && selectedFieldId == Some(field.id)
    {
      previewField := None;
      editingField := Some(field);
      selectedFieldId := Some(field.id);
    }

    /** `addField`: a new field, at the given position or at (120, 120), opened in the preview (not yet added). */
    method AddField(kind: FieldType, coords: Option<Point>, freshId: string)
      modifies this`previewField, this`editingField
      ensures previewField == Some(NewField(kind, freshId, if coords.Some? then coords.value.x else 120.0,
                                                          if coords.Some? then coords.value.y else 120.0))
      ensures editingField == None
    {
      var x := if coords.Some? then coords.value.x else 120.0;
      var y := if coords.Some? then coords.value.y else 120.0;
      OpenPreview(NewField(kind, freshId, x, y));
    }

    method OnFieldSelected(id: string)
      modifies this`selectedFieldId
      ensures selectedFieldId == Some(id)
    {
      selectedFieldId := Some(id);
    }

    /** `recordState`: the current pages are pushed onto the history. */
    method RecordState()
      modifies undoRedo
      ensures undoRedo.State() == Snapshots.Push(old(undoRedo.State()), pages)
    {
      undoRedo.Push(pages);
    }

    /** `onFieldUpdated`: snapshot, then replace the field with the same id on the current page, and select it. */
    method OnFieldUpdated(field: Field)
      modifies this`pages, this`selectedFieldId, undoRedo
      ensures undoRedo.State() == Snapshots.Push(old(undoRedo.State()), old(pages))
      ensures pages == UpdatePageFields(old(pages), selectedPage, ReplaceWith(field))
      ensures selectedFieldId == Some(field.id)
    {
      RecordState();
      pages := UpdatePageFields(pages, selectedPage, ReplaceWith(field));
      selectedFieldId := Some(field.id);
    }

    /** `undo`: the pages are replaced only when the history hands a snapshot back. */
    method Undo()
      modifies this`pages, undoRedo
      ensures Snapshots.Session(undoRedo.State(), pages) ==
              Snapshots.UndoSession(Snapshots.Session(old(undoRedo.State()), old(pages)))
    {
      var state := undoRedo.Undo(pages);
      if state.Some? {
        pages := state.value;
      }
    }

    /** `redo`: the pages are replaced only when the history hands a snapshot back. */
    method Redo()
      modifies this`pages, undoRedo
      ensures Snapshots.Session(undoRedo.State(), pages) ==
              Snapshots.RedoSession(Snapshots.Session(old(undoRedo.State()), old(pages)))
    {
      var state := undoRedo.Redo(pages);
      if state.Some? {
        pages := state.value;
      }
    }

    /** `clearPage`: snapshot, then empty the current page and drop the selection. */
    method ClearPage()
      modifies this`pages, this`selectedFieldId, undoRedo
      ensures undoRedo.State() == Snapshots.Push(old(undoRedo.State()), old(pages))
      ensures pages == UpdatePageFields(old(pages), selectedPage, RemoveAll)
      ensures selectedFieldId == None
    {
      RecordState();
      pages := UpdatePageFields(pages, selectedPage, RemoveAll);
      selectedFieldId := None;
    }

    /**
     * `importJson`, given what `JSON.parse` made of the buffer (None when it
     * threw): a blank buffer or a rejected value changes nothing; accepted
     * pages replace the state and the history restarts from them.
     */
    method ImportJson(parsed: Option<Json>)
      modifies this`pages, undoRedo
      ensures Trim(importBuffer) == "" || ImportedPages(parsed).None? ==>
                pages == old(pages) && unchanged(undoRedo)
      ensures Trim(importBuffer) != "" && ImportedPages(parsed).Some? ==>
                pages == ImportedPages(parsed).value &&
                undoRedo.undoStack == [pages] && undoRedo.redoStack == []
    {
      if Trim(importBuffer) == "" {
        return;
      }
      var imported := ImportedPages(parsed);
      if imported.None? {
        return;
      }
      pages := imported.value;
      undoRedo.Clear();
      undoRedo.Push(pages);
    }

    /**
     * `duplicatePage`: when the selected page exists, snapshot, append a copy
     * numbered one past the page count with fresh ids `ids(i)`, and select it.
     */
    method DuplicatePage(ids: nat -> string)
      modifies this`pages, this`selectedPage, this`selectedFieldId, undoRedo
      ensures FindPage(old(pages), old(selectedPage)).None? ==>
                pages == old(pages) && selectedPage == old(selectedPage) &&
                selectedFieldId == old(selectedFieldId) && unchanged(undoRedo)
      ensures FindPage(old(pages), old(selectedPage)).Some? ==>
                undoRedo.State() == Snapshots.Push(old(undoRedo.State()), old(pages)) &&
                pages == old(pages) + [Page(|old(pages)| + 1,
                                            Reid(FindPage(old(pages), old(selectedPage)).value.fields, ids))] &&
                selectedPage == |pages| && selectedFieldId == None
      ensures FindPage(old(pages), old(selectedPage)).Some? && Dense(old(pages)) ==> Dense(pages)
    {
      var current := FindPage(pages, selectedPage);
      if current.None? {
        return;
      }
      var clone := Page(|pages| + 1, Reid(current.value.fields, ids));
      RecordState();
      pages := pages + [clone];
      SelectPage(clone.num);
    }

    /**
     * `onHitboxClick`: with a rendered page and no open editor, drop any
     * preview and open a new 200 by 32 text field centred on the click.
     */
    method OnHitboxClick(click: Point, stage: Option<Rect>, freshId: string)
      requires Valid()
      modifies this`previewField, this`editingField
      ensures old(pageDimensions.None? || editingField.Some?) ==>
                previewField == old(previewField) && editingField == old(editingField)
      ensures pageDimensions.Some? && old(editingField).None? && stage.None? ==>
                previewField == None && editingField == None
      ensures pageDimensions.Some? && old(editingField).None? && stage.Some? ==>
                var c := DomToPdf(stage.value, zoom, currentViewportHeight, click);
                var p := CentredPlacement(c, 200.0, 32.0, currentViewportWidth, currentViewportHeight);
                previewField == Some(NewField(Text, freshId, p.x, p.y).(value := Some(""))) &&
                editingField == None
    {
      if pageDimensions.None? || editingField.Some? {
        return;
      }
      if previewField.Some? {
        CancelPreview();
      }
      if stage.None? {
        return;
      }
      var c := DomToPdf(stage.value, zoom, currentViewportHeight, click);
      var p := CentredPlacement(c, 200.0, 32.0, currentViewportWidth, currentViewportHeight);
      OpenPreview(NewField(Text, freshId, p.x, p.y).(value := Some("")));
    }

    /**
     * `confirmPreview`: a previewed field with renderable content is
     * normalised and appended to the current page (after a snapshot) and
     * selected; otherwise the preview is dropped and nothing else changes.
     */
    method ConfirmPreview()
      modifies this`pages, this`selectedFieldId, this`previewField, undoRedo
      ensures previewField == None
      ensures old(previewField).None? || !HasRenderableContent(old(previewField).value) ==>
                pages == old(pages) && selectedFieldId == old(selectedFieldId) && unchanged(undoRedo)
      ensures old(previewField).Some? && HasRenderableContent(old(previewField).value) ==>
                var n := NormalizeField(old(previewField).value);
                undoRedo.State() == Snapshots.Push(old(undoRedo.State()), old(pages)) &&
                pages == UpdatePageFields(old(pages), selectedPage, AppendField(n)) &&
                selectedFieldId == Some(n.id)
    {
      if previewField.None? || !HasRenderableContent(previewField.value) {
        CancelPreview();
        return;
      }
      var normalized := NormalizeField(previewField.value);
      RecordState();
      pages := UpdatePageFields(pages, selectedPage, AppendField(normalized));
      selectedFieldId := Some(normalized.id);
      previewField := None;
    }

    method CancelPreview()
      modifies this`previewField
      ensures previewField == None
    {
      previewField := None;
    }

    /**
     * `confirmEdit`: an edited field with renderable content is normalised and
     * replaces the field with its id on the current page (after a snapshot)
     * and is selected; otherwise the editor closes and nothing else changes.
     */
    method ConfirmEdit()
      modifies this`pages, this`selectedFieldId, this`editingField, undoRedo
      ensures editingField == None
      ensures old(editingField).None? || !HasRenderableContent(old(editingField).value) ==>
                pages == old(pages) && selectedFieldId == old(selectedFieldId) && unchanged(undoRedo)
      ensures old(editingField).Some? && HasRenderableContent(old(editingField).value) ==>
                var n := NormalizeField(old(editingField).value);
                undoRedo.State() == Snapshots.Push(old(undoRedo.State()), old(pages)) &&
                pages == UpdatePageFields(old(pages), selectedPage, ReplaceWith(n)) &&
                selectedFieldId == Some(n.id)
    {
      if editingField.None? || !HasRenderableContent(editingField.value) {
        CancelEdit();
        return;
      }
      var normalized := NormalizeField(editingField.value);
      RecordState();
      pages := UpdatePageFields(pages, selectedPage, ReplaceWith(normalized));
      selectedFieldId := Some(normalized.id);
      editingField := None;
    }

    method CancelEdit()
      modifies this`editingField
      ensures editingField == None
    {
      editingField := None;
    }

    /** `duplicateField`: snapshot, append the nudged copy to the current page, and open it for editing. */
    method DuplicateField(field: Field, freshId: string)
      modifies this`pages, this`selectedFieldId, this`previewField, this`editingField, undoRedo
      ensures var clone := DuplicateOf(field, freshId, currentViewportWidth, currentViewportHeight);
              undoRedo.State() == Snapshots.Push(old(undoRedo.State()), old(pages)) &&
              pages == UpdatePageFields(old(pages), selectedPage, AppendField(clone)) &&
              editingField == Some(clone) && previewField == None && selectedFieldId == Some(freshId)
    {
      var clone := DuplicateOf(field, freshId, currentViewportWidth, currentViewportHeight);
      RecordState();
      pages := UpdatePageFields(pages, selectedPage, AppendField(clone));
      StartEditing(clone);
    }

    /** The id `deleteAnnotation` acts on: the argument, else the edited field's id. */
    function DeleteTarget(id: Option<string>): Option<string>
      reads this
    {
      if id.Some? then id else if editingField.Some? then Some(editingField.value.id) else None
    }

    /**
     * `deleteAnnotation`: for a non-empty target id, snapshot, remove every
     * field with it from the current page, clear the selection if it was that
     * id, and close the editor. An absent or empty id changes nothing.
     */
    method DeleteAnnotation(id: Option<string>)
      modifies this`pages, this`selectedFieldId, this`editingField, undoRedo
      ensures var t := old(DeleteTarget(id));
              t.None? || t.value == "" ==>
                pages == old(pages) && selectedFieldId == old(selectedFieldId) &&
                editingField == old(editingField) && unchanged(undoRedo)
      ensures var t := old(DeleteTarget(id));
              t.Some? && t.value != "" ==>
                undoRedo.State() == Snapshots.Push(old(undoRedo.State()), old(pages)) &&
                pages == UpdatePageFields(old(pages), selectedPage, RemoveId(t.value)) &&
                selectedFieldId == (if old(selectedFieldId) == t then None else old(selectedFieldId)) &&
                editingField == None
    {
      var targetId := DeleteTarget(id);
      if targetId.None? || targetId.value == "" {
        return;
      }
      RecordState();
      pages := UpdatePageFields(pages, selectedPage, RemoveId(targetId.value));
      if selectedFieldId == targetId {
        selectedFieldId := None;
      }
      CancelEdit();
    }

    /** A loaded PDF document: its page count is recorded and the pages are aligned with it. */
    method PdfLoaded(numPages: nat)
      modifies this`pdfDoc, this`pdfTotalPages, this`pages, this`selectedPage
      ensures pdfDoc == Some(numPages) && pdfTotalPages == numPages
      ensures |pages| == numPages && Dense(pages)
      ensures forall j :: 0 <= j < numPages ==> pages[j] == AlignedAt(old(pages), j + 1)
      ensures selectedPage == if old(selectedPage) > numPages then numPages else old(selectedPage)
    {
      pdfDoc := Some(numPages);
      pdfTotalPages := numPages;
      AlignPagesWithPdf();
    }

    /**
     * `alignPagesWithPdf`: pages 1..numPages of the document, each the last
     * page with its number or a new empty one, and the selected page clamped
     * to the page count. Without a document nothing changes.
     */
    method AlignPagesWithPdf()
      modifies this`pages, this`selectedPage
      ensures pdfDoc.None? ==> pages == old(pages) && selectedPage == old(selectedPage)
      ensures pdfDoc.Some? ==>
                |pages| == pdfDoc.value && Dense(pages) &&
                (forall j :: 0 <= j < pdfDoc.value ==> pages[j] == AlignedAt(old(pages), j + 1)) &&
                selectedPage == if old(selectedPage) > pdfDoc.value then pdfDoc.value else old(selectedPage)
    {
      if pdfDoc.None? {
        return;
      }
      var total := pdfDoc.value;
      var normalized := AlignPages(pages, total);
      AlignedIsDense(pages, total, normalized);
      pages := normalized;
      if selectedPage > total {
        selectedPage := total;
      }
    }

    /**
     * The state a finished render leaves: the selected page clamped to the
     * document, and the rendered viewport size in pixels.
     */
    method PageRendered(width: real, height: real)
      modifies this`selectedPage, this`pageDimensions, this`currentViewportWidth, this`currentViewportHeight
      ensures pdfDoc.None? ==>
                selectedPage == old(selectedPage) && pageDimensions == old(pageDimensions) &&
                currentViewportWidth == old(currentViewportWidth) &&
                currentViewportHeight == old(currentViewportHeight)
      ensures pdfDoc.Some? ==>
                selectedPage == (if old(selectedPage) < pdfDoc.value then old(selectedPage) else pdfDoc.value) &&
                pageDimensions == Some(PageDimensions(selectedPage, width, height)) &&
                currentViewportWidth == width && currentViewportHeight == height
    {
      if pdfDoc.None? {
        return;
      }
      var safePage := if selectedPage < pdfDoc.value then selectedPage else pdfDoc.value;
      selectedPage := safePage;
      pageDimensions := Some(PageDimensions(safePage, width, height));
      currentViewportHeight := height;
      currentViewportWidth := width;
    }

    /**
     * `handleFieldPointerDown` and the gesture it starts: the field is
     * selected and any preview dropped; then a locked field or a click opens
     * the editor, and a drag commits exactly one `onFieldUpdated` with the
     * clamped drop position.
     */
    method HandleFieldPointerDown(field: Field, stage: Option<Rect>, g: Gesture)
      requires Valid()
      modifies this`pages, this`selectedFieldId, this`previewField, this`editingField, undoRedo
      ensures previewField == None
      ensures var o := GestureOutcome(field, stage, zoom, currentViewportWidth, currentViewportHeight, g);
              match o
              case OpenEditor =>
                editingField == Some(field) && selectedFieldId == Some(field.id) &&
                pages == old(pages) && unchanged(undoRedo)
              case MoveTo(x, y) =>
                undoRedo.State() == Snapshots.Push(old(undoRedo.State()), old(pages)) &&
                pages == UpdatePageFields(old(pages), selectedPage, ReplaceWith(field.(x := x, y := y))) &&
                selectedFieldId == Some(field.id) && editingField == old(editingField)
              case NoOutcome =>
                selectedFieldId == Some(field.id) && editingField == old(editingField) &&
                pages == old(pages) && unchanged(undoRedo)
    {
      selectedFieldId := Some(field.id);
      if previewField.Some? {
        CancelPreview();
      }
      if field.locked {
        StartEditing(field);
        return;
      }
      if stage.None? {
        return;
      }
      var dragged := TrackDrag(g.down, g.moves);
      var p := DropPosition(field, stage.value, zoom, currentViewportWidth, currentViewportHeight, g);
      if dragged {
        OnFieldUpdated(field.(x := p.x, y := p.y));
      } else {
        StartEditing(field);
      }
    }
  }
}
