# PDF template editor — a Dafny model

This project models the editing core of an Angular application that places
text and image fields on the pages of a PDF and exports their coordinates as
JSON. The model covers these parts:

- **The three history stores.** `HistoryStack` is unbounded and has
  `canUndo`, `canRedo` and `reset`. `UndoRedoStack` keeps at most `limit`
  snapshots (30 by default). `UndoRedoService` is the injectable store. All
  three are specified against one pure history value, `Snapshots.Stacks`.
  An editing `Session` (the current state beside its history) carries the
  undo and redo laws.
- **The template editor component.** It covers page navigation, a field's
  path from preview to the page, editing, duplicating and deleting fields,
  clearing and duplicating pages, and JSON import. It also covers aligning
  the page list with the PDF's page count, the y-up transform between
  stage pixels and document units, and the click-or-drag decision of a
  pointer gesture.
- **The nested-pages editor page.** The whole template is the state, and
  the page keeps a bounded history of templates and exports JSON.
- **The flat-list editor page.** Every field is in one list tagged with
  its page. The rendered pages are stacked with a 24-unit gap. The page
  builds a save payload grouped by page, with rounded coordinates.
- **The template service.** It is an in-memory store holding two seeded
  templates. It supports lookup by id, create, a shallow-merging update
  and delete, plus the backend payload of a page list.

Deep copies (`structuredClone`, the JSON round trip) are the identity,
because every snapshot is an immutable value. Fresh ids, the current time,
the page stage's client rectangle, the PDF's page count and the rendered
viewport size are parameters. The arrow functions that the controllers pass
to their page update are the constructors of `PageEdits.FieldEdit`.

Where the source's declared types and its call sites do not match, the
model follows the evident intent (what the code does at run time in each
case is listed under "## Left out"):

- The template editor calls `undoRedo.clear()`, which `UndoRedoService`
  does not define. It is modelled as emptying both stacks, like
  `HistoryStack.reset`.
- `editor-page.component.ts` hands a copy function to `UndoRedoStack`'s
  `limit` parameter. The model gives that history the default limit of 30.
- The flat-list page reads `template.fields`, which the `Template` record
  does not have. Its `Load` takes the field list as a separate argument.

## Model

| member | source | states |
|---|---|---|
| TemplateModel.Round | src/app/services/template.service.ts:116-117 | `Math.round` gives the integer within a half of x, with halves rounded up |
| TemplateModel.WireForgetsIdAndSize | src/app/features/editor/editor-page.component.ts:232-245 | two fields export to the same record exactly when they differ only in id, width, height and multiline |
| TemplateModel.RoundedWireIsNearest | src/app/services/template.service.ts:115-128 | the backend record changes only x and y; each moves by at most a half, to an integer |
| TemplateModel.ToWire | src/app/features/editor/editor-page.component.ts:232-245 | the exported record keeps every attribute but id, width, height and multiline, so the field can be rebuilt from it and those four |
| TemplateModel.ToRoundedWire | src/app/services/template.service.ts:115-128 | the backend record is the exported record with x and y rounded to the nearest integer |
| Snapshots.UndoTakesTop | src/app/utils/history-stack.ts:10-16 | undo returns nothing and changes nothing when the undo stack is empty; otherwise it pops the top and pushes `current` onto the redo stack |
| Snapshots.RedoTakesTop | src/app/utils/history-stack.ts:18-24 | redo returns nothing and changes nothing when the redo stack is empty; otherwise it pops its top and pushes `current` onto the undo stack |
| Snapshots.UndoRedoKeepSize | src/app/utils/history-stack.ts:10-24 | undo and redo move one snapshot between the stacks and keep the total |
| Snapshots.RedoUndoes | src/app/utils/history-stack.ts:10-24 | a redo fed what undo returned restores the stacks and hands `current` back |
| Snapshots.UndoRedoes | src/app/utils/history-stack.ts:10-24 | an undo fed what redo returned restores the stacks and hands `current` back |
| Snapshots.PushInvalidatesRedo | src/app/utils/history-stack.ts:5-8 | after a push nothing can be redone, and the pushed snapshot is the next one undone |
| Snapshots.BoundedPushKeepsCapacity | src/app/utils/undo-redo.ts:7-11 | the bounded push keeps at most `limit` snapshots on both stacks; it keeps the newest, in order, with the pushed one on top, and below capacity it equals the plain push |
| Snapshots.CommitAllStacks | src/app/features/editor/template-editor.component.ts:1499-1501 | after committed edits the undo stack holds the state before each edit, and the redo stack is empty |
| Snapshots.UndoAllCommits | src/app/features/editor/template-editor.component.ts:992-998 | one undo per committed edit restores the state before the first edit and keeps every edit for redo |
| Snapshots.RedoAfterUndo | src/app/features/editor/template-editor.component.ts:992-1006 | redo undoes an undo whenever there was something to undo |
| Snapshots.RedoTimesUndoesUndoTimes | src/app/features/editor/template-editor.component.ts:992-1006 | n redos after n undos return to the same session when n snapshots are available |
| Snapshots.RedoAllCommits | src/app/features/editor/template-editor.component.ts:992-1006 | redoing every undone edit returns to the state after the last edit |
| Snapshots.CommitAfterUndoClearsRedo | src/app/utils/undo-redo.service.ts:8-11 | an edit made after an undo discards what could have been redone |
| Snapshots.UndoRestoresCommit | src/app/features/editor/template-editor.component.ts:977-982 | with the snapshot taken before the mutation, the next undo restores the prior state |
| Snapshots.UndoAfterCommitAfterIsNoOp | src/app/features/editor/editor-page/editor-page.component.ts:157-161 | with the snapshot taken after the mutation, the next undo leaves the state as it is |
| HistoryStacks.HistoryStack.constructor | src/app/utils/history-stack.ts:2-3 | both stacks start empty |
| HistoryStacks.HistoryStack.Push | src/app/utils/history-stack.ts:5-8 | the snapshot is appended to the undo stack and the redo stack is emptied |
| HistoryStacks.HistoryStack.Undo | src/app/utils/history-stack.ts:10-16 | the stacks and the result are those of `Snapshots.Undo`, case by case |
| HistoryStacks.HistoryStack.Redo | src/app/utils/history-stack.ts:18-24 | the stacks and the result are those of `Snapshots.Redo`, case by case |
| HistoryStacks.HistoryStack.CanUndo | src/app/utils/history-stack.ts:26-28 | true exactly when the undo stack is non-empty |
| HistoryStacks.HistoryStack.CanRedo | src/app/utils/history-stack.ts:30-32 | true exactly when the redo stack is non-empty |
| HistoryStacks.HistoryStack.Reset | src/app/utils/history-stack.ts:34-37 | both stacks are emptied |
| UndoRedo.UndoRedoStack.constructor | src/app/utils/undo-redo.ts:1-5 | empty stacks, with the given limit (30 by default) |
| UndoRedo.UndoRedoStack.Push | src/app/utils/undo-redo.ts:7-11 | snapshot appended, oldest shifted out past the limit, redo emptied; the capacity invariant holds |
| UndoRedo.UndoRedoStack.Undo | src/app/utils/undo-redo.ts:13-18 | as `Snapshots.Undo`, and the capacity invariant holds |
| UndoRedo.UndoRedoStack.Redo | src/app/utils/undo-redo.ts:20-25 | as `Snapshots.Redo`; the invariant keeps the undo stack within the limit without a shift |
| UndoRedoServices.UndoRedoService.constructor | src/app/utils/undo-redo.service.ts:5-6 | both stacks start empty |
| UndoRedoServices.UndoRedoService.Push | src/app/utils/undo-redo.service.ts:8-11 | snapshot appended to the undo stack, redo emptied |
| UndoRedoServices.UndoRedoService.Undo | src/app/utils/undo-redo.service.ts:13-19 | the stacks and the result are those of `Snapshots.Undo` |
| UndoRedoServices.UndoRedoService.Redo | src/app/utils/undo-redo.service.ts:21-27 | the stacks and the result are those of `Snapshots.Redo` |
| UndoRedoServices.UndoRedoService.Clear | src/app/features/editor/template-editor.component.ts:886 | the `clear` the editor calls empties both stacks |
| PageEdits.FindPage | src/app/features/editor/template-editor.component.ts:865 | no page is found exactly when none has the number; a found page has it and is the first such page |
| PageEdits.RemoveById | src/app/features/editor/template-editor.component.ts:1178 | a field is kept exactly when it was there and has a different id; nothing changes when no field has the id |
| PageEdits.RemoveByIdDistributes | src/app/features/editor/template-editor.component.ts:1178 | the filter distributes over concatenation, so it keeps the order of what it keeps |
| PageEdits.RemoveByIdIdempotent | src/app/features/editor/template-editor.component.ts:1178 | removing an id twice is removing it once |
| PageEdits.UpdateTouchesOnlyPage | src/app/features/editor/template-editor.component.ts:1493-1497 | pages with another number are unchanged; a page with the selected number gets the edit applied to its fields |
| PageEdits.UpdatePageFields | src/app/features/editor/template-editor.component.ts:1493-1497 | the page list keeps its length, its order and every page number |
| PageEdits.EditEffects | src/app/features/editor/template-editor.component.ts:1133 | a replacement swaps exactly the fields with the id; an append adds one field at the end; a removal drops every field with the id and is idempotent; a clear empties the page |
| TemplateEditor.TrimStart | src/app/features/editor/template-editor.component.ts:1485 | the result is a suffix that does not start with white space, and everything cut off is white space |
| TemplateEditor.TrimEnd | src/app/features/editor/template-editor.component.ts:1485 | the result is a prefix that does not end with white space, and everything cut off is white space |
| TemplateEditor.TrimBlankIff | src/app/features/editor/template-editor.component.ts:1031 | a string trims to empty exactly when it is all white space |
| TemplateEditor.TrimOfTrimmed | src/app/features/editor/template-editor.component.ts:1485 | a string with no white space at either end is its own trim |
| TemplateEditor.TrimIdempotent | src/app/features/editor/template-editor.component.ts:1485 | trimming twice is trimming once |
| TemplateEditor.Clamp | src/app/features/editor/template-editor.component.ts:1457-1459 | within [lo, hi] whenever lo <= hi; the value itself when already in range; the nearer bound otherwise |
| TemplateEditor.TotalPages | src/app/features/editor/template-editor.component.ts:862 | at least 1, at least the page count and at least the PDF's count, and equal to one of them |
| TemplateEditor.NormalizeField | src/app/features/editor/template-editor.component.ts:1482-1491 | opacity lies in [0, 1]; font size, width and height are non-zero; only those and the label change |
| TemplateEditor.NormalizedLabel | src/app/features/editor/template-editor.component.ts:1485 | the label becomes its trim, or 'Campo' when that is blank, and the result is non-blank and already trimmed |
| TemplateEditor.NormalizeFieldRules | src/app/features/editor/template-editor.component.ts:1482-1491 | the label is its trim, or 'Campo' when blank, so the field always has renderable content; a zero font size, width or height falls back to 12, 200 or 32 and any other value is kept; the opacity is clamped into [0, 1] |
| TemplateEditor.NormalizeIdempotent | src/app/features/editor/template-editor.component.ts:1482-1491 | normalising a normalised field changes nothing |
| TemplateEditor.HasRenderableContent | src/app/features/editor/template-editor.component.ts:1478-1480 | true exactly for an image, a field with a non-empty value, or a label with a character that is not white space |
| TemplateEditor.NormalizeFixesNormal | src/app/features/editor/template-editor.component.ts:1482-1491 | a field with a trimmed non-blank label, non-zero sizes and an opacity in [0, 1] is left unchanged |
| TemplateEditor.NewField | src/app/features/editor/template-editor.component.ts:951-970 | the new field has the given id, kind and position, is 200 by 32, has no value, and is neither locked nor hidden |
| TemplateEditor.NewFieldIsNormal | src/app/features/editor/template-editor.component.ts:951-970 | a new field is already in normal form, so confirming it stores it unchanged |
| TemplateEditor.NewFieldIsRenderable | src/app/features/editor/template-editor.component.ts:951-970 | a new field has renderable content before anything is typed into it |
| TemplateEditor.DuplicateOf | src/app/features/editor/template-editor.component.ts:1161-1167 | the copy has the new id and differs only in x and y, which are the original plus 10, clamped to [0, max(0, W - w)] and [0, max(0, H - h)]; it lies on the page, nudged by exactly 10 where that fits |
| TemplateEditor.DomToPdf | src/app/features/editor/template-editor.component.ts:1439-1446 | the document x times the zoom is the pointer offset from the stage left; the distance below the viewport top, times the zoom, is the offset from the stage top |
| TemplateEditor.PositionElement | src/app/features/editor/template-editor.component.ts:1448-1455 | the box starts at x times the zoom, is the field size times the zoom, and ends at the y-up position measured from the viewport top, times the zoom |
| TemplateEditor.DropPosition | src/app/features/editor/template-editor.component.ts:1419-1428 | the dropped position lies in [0, max(0, W - w)] by [0, max(0, H - h)] |
| TemplateEditor.Reid | src/app/features/editor/template-editor.component.ts:1059 | the same fields in the same order, the i-th with the new id `ids(i)` |
| TemplateEditor.PositionInvertsDomToPdf | src/app/features/editor/template-editor.component.ts:1439-1455 | drawing a field at (x, y) puts its bottom-left corner where the pointer reads (x, y), and the other way round |
| TemplateEditor.HitboxPlacementOnPage | src/app/features/editor/template-editor.component.ts:1076-1079 | the new 200 by 32 field lies on the page, centred on the click where it fits |
| TemplateEditor.TrackDrag | src/app/features/editor/template-editor.component.ts:1396-1404 | the drag flag is set exactly when some move goes more than 3 px from the press |
| TemplateEditor.GestureRules | src/app/features/editor/template-editor.component.ts:1385-1433 | a locked field opens the editor; a press without a drag opens the editor; only an unlocked drag on a page moves, and it moves to a position on the page |
| TemplateEditor.DropFollowsPointer | src/app/features/editor/template-editor.component.ts:1394-1395 | away from the edges, a drag moves the field by the pointer displacement divided by the zoom, with y flipped |
| TemplateEditor.ImportAcceptsExactlyArrays | src/app/features/editor/template-editor.component.ts:1033-1037 | the import accepts exactly a bare array of pages or an object whose `pages` is one; an unparsable buffer or `{}` is rejected |
| Sequences.LastMatch | src/app/features/editor/template-editor.component.ts:1209 | the index of the last element with the key (the last page with a number, and in the store the last template with an id), or -1 when there is none; no later element has the key |
| TemplateEditor.AlignedAt | src/app/features/editor/template-editor.component.ts:1212 | the page numbered `num`: the last page with that number, or else an empty one |
| TemplateEditor.ByNumberExtend | src/app/features/editor/template-editor.component.ts:1209 | adding a page to the lookup map overrides any earlier page with its number |
| TemplateEditor.AlignPages | src/app/features/editor/template-editor.component.ts:1208-1215 | gives exactly `total` pages, the j-th being `AlignedAt(current, j + 1)` |
| TemplateEditor.AlignedIsDense | src/app/features/editor/template-editor.component.ts:1208-1215 | the aligned list is numbered 1..total; each page keeps the fields of the last page with its number, or has none |
| TemplateEditor.TemplateEditorComponent.constructor | src/app/features/editor/template-editor.component.ts:838-876 | the initial signals: zoom 1, page 1, one PDF page, nothing selected, previewed or loaded |
| TemplateEditor.TemplateEditorComponent.CurrentFields | src/app/features/editor/template-editor.component.ts:864-867 | the fields of the first page with the selected number, or none |
| TemplateEditor.TemplateEditorComponent.Load | src/app/features/editor/template-editor.component.ts:878-889 | a found template's pages become the state; the first page is selected; the history restarts with one snapshot |
| TemplateEditor.TemplateEditorComponent.SetZoom | src/app/features/editor/template-editor.component.ts:908-911 | the zoom is set |
| TemplateEditor.TemplateEditorComponent.SelectPage | src/app/features/editor/template-editor.component.ts:933-937 | the page is selected and the field selection dropped |
| TemplateEditor.TemplateEditorComponent.PreviousPage | src/app/features/editor/template-editor.component.ts:939-943 | moves back one page only above page 1 |
| TemplateEditor.TemplateEditorComponent.NextPage | src/app/features/editor/template-editor.component.ts:945-949 | moves on one page only below the total page count |
| TemplateEditor.TemplateEditorComponent.OpenPreview | src/app/features/editor/template-editor.component.ts:1461-1464 | the field is previewed and the editor closed |
| TemplateEditor.TemplateEditorComponent.StartEditing | src/app/features/editor/template-editor.component.ts:1466-1470 | the field is edited and selected, and the preview is closed |
| TemplateEditor.TemplateEditorComponent.AddField | src/app/features/editor/template-editor.component.ts:951-970 | the new field (at the coordinates given, else at 120, 120) is only previewed; pages and history are not touched |
| TemplateEditor.TemplateEditorComponent.OnFieldSelected | src/app/features/editor/template-editor.component.ts:972-975 | the id is selected |
| TemplateEditor.TemplateEditorComponent.RecordState | src/app/features/editor/template-editor.component.ts:1499-1501 | the current pages are pushed onto the history |
| TemplateEditor.TemplateEditorComponent.OnFieldUpdated | src/app/features/editor/template-editor.component.ts:977-982 | a snapshot of the old pages is pushed, then the field is replaced by id on the selected page and selected |
| TemplateEditor.TemplateEditorComponent.Undo | src/app/features/editor/template-editor.component.ts:992-998 | the session steps as `Snapshots.UndoSession` |
| TemplateEditor.TemplateEditorComponent.Redo | src/app/features/editor/template-editor.component.ts:1000-1006 | the session steps as `Snapshots.RedoSession` |
| TemplateEditor.TemplateEditorComponent.ClearPage | src/app/features/editor/template-editor.component.ts:1008-1013 | snapshot, then the selected page is emptied and the selection dropped |
| TemplateEditor.TemplateEditorComponent.ImportJson | src/app/features/editor/template-editor.component.ts:1030-1046 | a blank buffer or a rejected value changes nothing; accepted pages replace the state, and the history restarts from them |
| TemplateEditor.TemplateEditorComponent.DuplicatePage | src/app/features/editor/template-editor.component.ts:1054-1064 | without a current page nothing changes; otherwise snapshot, append the copy numbered one past the count with fresh ids, and select it; dense numbering is kept |
| TemplateEditor.TemplateEditorComponent.OnHitboxClick | src/app/features/editor/template-editor.component.ts:1071-1097 | with no rendered page or an open editor nothing changes; otherwise the preview shows a new centred 200 by 32 text field, or nothing off the stage |
| TemplateEditor.TemplateEditorComponent.ConfirmPreview | src/app/features/editor/template-editor.component.ts:1125-1137 | a renderable preview is normalised, appended after a snapshot and selected; otherwise only the preview closes |
| TemplateEditor.TemplateEditorComponent.CancelPreview | src/app/features/editor/template-editor.component.ts:1139-1141 | the preview closes |
| TemplateEditor.TemplateEditorComponent.ConfirmEdit | src/app/features/editor/template-editor.component.ts:1143-1155 | a renderable edit is normalised, replaces its id after a snapshot, and is selected; otherwise only the editor closes |
| TemplateEditor.TemplateEditorComponent.CancelEdit | src/app/features/editor/template-editor.component.ts:1157-1159 | the editor closes |
| TemplateEditor.TemplateEditorComponent.DuplicateField | src/app/features/editor/template-editor.component.ts:1161-1172 | snapshot, append the nudged copy, and open it for editing |
| TemplateEditor.TemplateEditorComponent.DeleteAnnotation | src/app/features/editor/template-editor.component.ts:1174-1184 | an absent or empty id (argument, else the edited field's) changes nothing; otherwise snapshot, remove the id, drop a matching selection and close the editor |
| TemplateEditor.TemplateEditorComponent.PdfLoaded | src/app/features/editor/template-editor.component.ts:1199-1201 | the document's page count is recorded, and the pages are aligned with it |
| TemplateEditor.TemplateEditorComponent.AlignPagesWithPdf | src/app/features/editor/template-editor.component.ts:1205-1219 | with a document, pages 1..n are dense, each taken from the last page with its number, and the selected page is clamped to n |
| TemplateEditor.TemplateEditorComponent.PageRendered | src/app/features/editor/template-editor.component.ts:1224-1261 | with a document, the selected page is clamped to it, and the page dimensions and viewport size are recorded |
| TemplateEditor.TemplateEditorComponent.HandleFieldPointerDown | src/app/features/editor/template-editor.component.ts:1378-1437 | selects the field and closes the preview; then, by `GestureOutcome`, opens the editor, commits one `onFieldUpdated` with the drop position, or does nothing more |
| EditorPage.ExportPages | src/app/features/editor/editor-page.component.ts:230-246 | one entry per page, in order, with the page's number and, field by field, the field's wire record |
| EditorPage.NewField | src/app/features/editor/editor-page.component.ts:173-195 | the new field is at (50, 50), 200 wide and 120 high for an image or 40 for text, labelled 'Nuevo campo' or 'Imagen', with font size 16, opacity 1, no value, not multiline, and neither locked nor hidden |
| EditorPage.ExportAfterEdit | src/app/features/editor/editor-page.component.ts:196-199 | the export follows page edits: an append adds the field's record to that page, a clear empties it, other pages are unchanged |
| EditorPage.ResizeInvisibleInExport | src/app/features/editor/editor-page.component.ts:232-245 | replacing a field by a copy differing only in size or multiline leaves the export unchanged |
| EditorPage.EditorPageComponent.constructor | src/app/features/editor/editor-page.component.ts:121-131 | no template, page 1, zoom 100, page size 820 by 1180, empty history with limit 30 |
| EditorPage.EditorPageComponent.Load | src/app/features/editor/editor-page.component.ts:135-142 | a found template is shown from its first page and pushed onto the bounded history |
| EditorPage.EditorPageComponent.CurrentPage | src/app/features/editor/editor-page.component.ts:145-147 | the first page of the template with the selected number; none exactly when there is no template or no such page |
| EditorPage.EditorPageComponent.ZoomFactor | src/app/features/editor/editor-page.component.ts:153-155 | the zoom as a scale: factor times 100 is the percent |
| EditorPage.EditorPageComponent.SelectPage | src/app/features/editor/editor-page.component.ts:160-163 | the page is selected and the field selection dropped |
| EditorPage.EditorPageComponent.SetZoom | src/app/features/editor/editor-page.component.ts:165-167 | the zoom is set |
| EditorPage.EditorPageComponent.SetSelectedField | src/app/features/editor/editor-page.component.ts:169-171 | the field is selected |
| EditorPage.EditorPageComponent.AddField | src/app/features/editor/editor-page.component.ts:173-203 | without a current page nothing changes; otherwise a bounded push of the old template, the new field appended to the current page and selected |
| EditorPage.EditorPageComponent.UpdateField | src/app/features/editor/editor-page.component.ts:205-219 | without a current page nothing changes; otherwise a bounded push of the old template, the field replaced by id on the current page and selected |
| EditorPage.EditorPageComponent.OnPageRendered | src/app/features/editor/editor-page.component.ts:221-224 | the stored size times the zoom factor is the rendered size |
| EditorPage.EditorPageComponent.ExportJson | src/app/features/editor/editor-page.component.ts:226-248 | nothing exactly without a template; otherwise the template's pages as `ExportPages` exports them, one entry per page with its number |
| EditorPage.EditorPageComponent.Undo | src/app/features/editor/editor-page.component.ts:258-266 | without a template nothing changes; otherwise the session steps as `Snapshots.UndoSession` |
| EditorPage.EditorPageComponent.Redo | src/app/features/editor/editor-page.component.ts:268-276 | without a template nothing changes; otherwise the session steps as `Snapshots.RedoSession` |
| FlatEditorPage.Place | src/app/features/editor/editor-page/editor-page.component.ts:90-92 | the list stays strictly sorted by number; it holds the new page and every other page whose number differs |
| FlatEditorPage.PlaceLength | src/app/features/editor/editor-page/editor-page.component.ts:90-92 | the list grows by one exactly when no rendered page had the number; otherwise its length is kept |
| FlatEditorPage.Layout | src/app/features/editor/editor-page/editor-page.component.ts:93-98 | page i is stacked at the heights of the pages above it plus 24 per page |
| FlatEditorPage.StackedWithGap | src/app/features/editor/editor-page/editor-page.component.ts:96 | each page starts 24 below the end of the one above |
| FlatEditorPage.LastPageEndsStack | src/app/features/editor/editor-page/editor-page.component.ts:52-58 | the last page ends at the sum of the heights plus the gaps |
| FlatEditorPage.ReplacePlaced | src/app/features/editor/editor-page/editor-page.component.ts:158 | same length; entries with the id become the field; the others are kept |
| FlatEditorPage.NewTextField | src/app/features/editor/editor-page/editor-page.component.ts:101-122 | the new text field is on page 1 at (100, 100), 180 by 40, labelled 'Campo nuevo', with the value 'Ejemplo', not multiline, and neither locked nor hidden |
| FlatEditorPage.NewImageField | src/app/features/editor/editor-page/editor-page.component.ts:127-148 | the new image field is on page 1 at (120, 120), 120 by 80, labelled 'Imagen', with no value, not multiline, and neither locked nor hidden |
| FlatEditorPage.FieldsOn | src/app/features/editor/editor-page/editor-page.component.ts:186-187 | a field is kept exactly when it is placed on that page |
| FlatEditorPage.FieldsOnCounts | src/app/features/editor/editor-page/editor-page.component.ts:186-187 | each field occurs on its page exactly as often as it is placed there in the list |
| FlatEditorPage.FieldsOnDistributes | src/app/features/editor/editor-page/editor-page.component.ts:186-187 | the filter distributes over concatenation, so the fields of a page keep their order in the list |
| FlatEditorPage.SavePages | src/app/features/editor/editor-page/editor-page.component.ts:183-203 | one entry per rendered page, with its number and, in order, the rounded wire records of the fields placed on it |
| FlatEditorPage.SavePagesGroupsByPage | src/app/features/editor/editor-page/editor-page.component.ts:183-203 | entry i has page i's number and holds, rounded, exactly the fields placed on that page, so fields on unrendered pages are in no entry |
| FlatEditorPage.EditorPageComponent.constructor | src/app/features/editor/editor-page/editor-page.component.ts:42-49 | no template, no pages or fields, nothing selected, zoom 1, empty history |
| FlatEditorPage.EditorPageComponent.CanvasHeight | src/app/features/editor/editor-page/editor-page.component.ts:52-58 | 1200 before any page is rendered; afterwards the bottom of the last page, times the zoom |
| FlatEditorPage.EditorPageComponent.CanvasWidth | src/app/features/editor/editor-page/editor-page.component.ts:60-62 | the first page's width (800 when none), times the zoom |
| FlatEditorPage.EditorPageComponent.Load | src/app/features/editor/editor-page/editor-page.component.ts:69-75 | a found template's field list becomes the state and is pushed onto the history |
| FlatEditorPage.EditorPageComponent.OnPageRendered | src/app/features/editor/editor-page/editor-page.component.ts:89-99 | the pages become `Place` of the old ones, restacked; the layout invariant is kept |
| FlatEditorPage.EditorPageComponent.AddTextField | src/app/features/editor/editor-page/editor-page.component.ts:101-125 | with a template, the new text field is appended and selected; the list is recorded before the change (the corrected order of the finding below), so the session steps as `Snapshots.Commit` |
| FlatEditorPage.EditorPageComponent.AddImageField | src/app/features/editor/editor-page/editor-page.component.ts:127-151 | with a template, the new image field is appended and selected; the list is recorded before the change (the corrected order of the finding below), so the session steps as `Snapshots.Commit` |
| FlatEditorPage.EditorPageComponent.OnFieldSelected | src/app/features/editor/editor-page/editor-page.component.ts:153-155 | the field is selected |
| FlatEditorPage.EditorPageComponent.OnFieldUpdated | src/app/features/editor/editor-page/editor-page.component.ts:157-161 | the field is replaced by id and selected; the list is recorded before the change (the corrected order of the finding below), so the session steps as `Snapshots.Commit` |
| FlatEditorPage.EditorPageComponent.Undo | src/app/features/editor/editor-page/editor-page.component.ts:167-172 | the session steps as `Snapshots.UndoSession` |
| FlatEditorPage.EditorPageComponent.Redo | src/app/features/editor/editor-page/editor-page.component.ts:174-179 | the session steps as `Snapshots.RedoSession` |
| FlatEditorPage.EditorPageComponent.SavePayload | src/app/features/editor/editor-page/editor-page.component.ts:181-203 | nothing exactly without a template; otherwise `SavePages` of the rendered pages and the field list: one entry per rendered page holding, rounded and in order, the fields placed on it |
| FlatEditorPage.EditorPageComponent.OnZoomChange | src/app/features/editor/editor-page/editor-page.component.ts:209-211 | the zoom is set |
| FlatEditorPage.FirstUndoAfterAddKeepsField | src/app/features/editor/editor-page/editor-page.component.ts:122-124 | after loading and adding a field, one undo leaves the added field in the list |
| FlatEditorPage.FirstUndoAfterAddRecordedBefore | src/app/features/editor/editor-page/editor-page.component.ts:122-124 | recorded before the mutation, one undo after loading and adding restores the list as loaded, and a redo brings the field back |
| TemplateServices.SeedTemplates | src/app/services/template.service.ts:63-109 | two templates with the given ids, each with the one seeded page, created and updated now |
| TemplateServices.FindTemplate | src/app/services/template.service.ts:21-23 | none exactly when no template has the id; otherwise the first template with it |
| TemplateServices.FromPayload | src/app/services/template.service.ts:25-30 | the stored template carries the payload's name, description, PDF and pages unchanged, the new id, and now as both dates |
| TemplateServices.Merge | src/app/services/template.service.ts:37 | keeps id and creation time and sets the update time; name, description, PDF and pages each come from the patch when it has them and from the template otherwise; an empty patch only touches the update time |
| TemplateServices.MergeIdempotent | src/app/services/template.service.ts:37 | merging the same patch twice is merging it once |
| TemplateServices.UpdateAll | src/app/services/template.service.ts:34-42 | same length, ids and creation times; every template with the id becomes its merge with the patch, and templates with other ids are unchanged |
| TemplateServices.RemoveTemplate | src/app/services/template.service.ts:47 | a template is kept exactly when it was there and has a different id |
| TemplateServices.RemoveTemplateDistributes | src/app/services/template.service.ts:47 | the filter distributes over concatenation, so it keeps the order |
| TemplateServices.RemoveTemplateIdempotent | src/app/services/template.service.ts:47 | deleting an unknown id changes nothing; deleting twice is deleting once |
| TemplateServices.FindAfterCreate | src/app/services/template.service.ts:21-30 | a template created under an unused id is what a lookup of that id then finds |
| TemplateServices.FindAfterUpdate | src/app/services/template.service.ts:21-44 | after an update, a lookup finds the first template with the id merged with the patch, or nothing when there was none |
| TemplateServices.FindAfterDelete | src/app/services/template.service.ts:21-49 | after a delete, a lookup of that id finds nothing |
| TemplateServices.ToBackendPayload | src/app/services/template.service.ts:111-131 | one entry per page, in order, with the page's number and, field by field, the field's rounded wire record |
| TemplateServices.BackendPayloadIsRoundedExport | src/app/services/template.service.ts:111-131 | the backend payload is the editor's JSON export with x and y rounded; with integer coordinates the two are equal |
| TemplateServices.TemplateService.constructor | src/app/services/template.service.ts:13 | the store starts with the two seeded templates |
| TemplateServices.TemplateService.GetAll | src/app/services/template.service.ts:17-19 | the stored list |
| TemplateServices.TemplateService.GetById | src/app/services/template.service.ts:21-23 | the first template with the id, if any |
| TemplateServices.TemplateService.Create | src/app/services/template.service.ts:25-30 | the payload with a fresh id and both dates set to now is appended and returned |
| TemplateServices.TemplateService.Update | src/app/services/template.service.ts:32-44 | every template with the id is merged; the result is the last merged template, or none |
| TemplateServices.TemplateService.Delete | src/app/services/template.service.ts:46-49 | every template with the id is removed; the answer is always true |

## Left out

- PDF loading and drawing are not modelled. That covers `getDocument`, page rendering, the overlay guides, grid and rulers, the `redrawAnnotations` DOM work and the live repositioning of an element while it is dragged. `PdfLoaded` and `PageRendered` stand for their effects on the component's state.
- Clipboard, file download, toast messages, routing, keyboard shortcuts, theme and language switches, preview mode and the JSON-view toggle are left out. They are I/O or presentation.
- `JSON.parse` is not modelled: `ImportJson` receives its result as a parameter. Array items are taken as pages unchecked, as the source's cast does.
- `TemplateEditorComponent.saveTemplate` is left out. It calls `updatePageFields` on the service, which the service does not define.
- `EditorPageComponent.saveTemplate` is left out. It forwards the template to the service's `update`.
- The flat-list page's `save` is modelled only as the payload it builds (`SavePayload`). The `update` call with a `fields` key that `TemplatePatch` cannot express is left out, and so is the console output.
- `updateFieldFromPanel` is left out. It is the same operation as `OnFieldUpdated`.
- The history flags of the nested-pages editor are left out: `updateHistoryFlags`, `canUndo` and `canRedo`. `hasUndo` and `hasRedo` do not exist on `UndoRedoStack`.
- `flatFields`, `annotationJson`, `selectedField`, `pdfDimensions` and `pageSizeLabel` of the template editor are derived views, and they are left out.
- `HandleFieldPointerDown` assumes the stage does not move during the gesture. The pointer-move positions are an input sequence; events are not interleaved with other actions.
- `DuplicateOf`, `DropPosition`, `PositionElement` and gestures do not model the `?? 180` and `?? 28` size defaults. Every field in the model has a width and a height.
- `NormalizeField` treats only 0 as the falsy number. `NaN` and non-numeric input are not representable in the reals.
- `TemplateEditor.IsSpace` covers the white space and line terminators of `String.prototype.trim` over single UTF-16 code units. It makes no surrogate-pair distinction.
- `TemplateEditor.TemplateEditorComponent.OnHitboxClick` and `TemplateEditor.TemplateEditorComponent.HandleFieldPointerDown` require a positive zoom, because they divide by it. The zoom levels the editor offers (`src/app/features/editor/template-editor.component.ts:827`) are all positive.
- `FlatEditorPage.EditorPageComponent.AddTextField`, `AddImageField` and `OnFieldUpdated` record the list before the change, not after as the source does. The as-written order is kept in `FlatEditorPage.FirstUndoAfterAddKeepsField` (see Findings).
- The flat-list page's history is created as `new HistoryStack(50)`, but `HistoryStack` declares no constructor parameter, so the argument has no effect. The model's history is unbounded.
- `EditorPage.EditorPageComponent.OnPageRendered` requires a non-zero zoom. At zero, JavaScript divides to `Infinity`, which has no real counterpart.
- `core/models/pdf-page.model.ts` is not part of this model. `PageView` assumes it has a number, a width and a height.
- `TemplateServices.Merge` treats an absent key as "keep". A key that is present but `undefined` would overwrite with `undefined`. Keys outside `TemplatePayload` are not representable.
- `uploadPdf` and `getAll`'s observable wrapping are left out. They are file I/O and asynchrony.
- Dates are integer timestamps. uuid values are parameters.
- `UndoRedoServices.UndoRedoService.Clear` models the intended reset. At run time `undoRedo.clear()` is not a function and throws. In `ngOnInit` (`src/app/features/editor/template-editor.component.ts:886`) the throw skips the push and `loadPdf`. In `importJson` (line 1039) it is caught after `pages.set`, so the pages are replaced, the history is not reset and the error message is shown. The model restarts the history in both places.
- `EditorPage.EditorPageComponent.constructor` bounds the history at 30. At run time the limit is a function, `length > limit` is never true, and the history never shifts.
- `FlatEditorPage.EditorPageComponent.Load` takes the field list as a parameter. At run time `structuredClone(template.fields)` is `undefined`, so `fields` becomes `undefined` and the spreads in `addTextField` and `addImageField` (`src/app/features/editor/editor-page/editor-page.component.ts:122`, 148) throw.

## Findings

| source | as written | input that shows it | evidently intended | confidence | as-written member | corrected member |
|---|---|---|---|---|---|---|
| src/app/features/editor/editor-page/editor-page.component.ts:122-124 | the field list is pushed onto the history after it has been mutated (here and at lines 148-150 and 158-160), so the top snapshot is the current state | load a template with fields f0, add a text field, press undo once: the list still holds the new field | one undo restores the list from before the mutation, as the two other controllers do by recording first | high; not executed | FlatEditorPage.FirstUndoAfterAddKeepsField | FlatEditorPage.FirstUndoAfterAddRecordedBefore |
