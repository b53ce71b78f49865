# VisualNotes state transitions in Dafny

VisualNotes is a single-page note-taking app with cards, whiteboards and projects. Its components
hold small state machines that decide what each click, keystroke or mouse event does to the page
state. This project writes each of those machines as pure functions over immutable Dafny records
and sequences, and proves what the components promise about them:

- **Whiteboard** (`viewport.dfy`, `element_store.dfy`, `whiteboard_canvas.dfy`, `whiteboard.dfy`):
  - the canvas gesture machine: pan drag, pen path buffer, and tool-dependent creation;
  - screen↔logical coordinate conversion;
  - wheel and toolbar zoom, clamped to [0.1, 3];
  - the append-only element store with merge-update and lookup;
  - the save-status flag;
  - the undo/redo guards, with the proof that they never fire from any reachable state.
- **Project content list** (`project_content.dfy`, `content_card.dfy`):
  - type and search filtering, and the stable sort by the selected key;
  - the selection list: select, deselect and the select-all toggle;
  - bulk delete, bulk tag, single delete and duplicate;
  - each entry's tag chips with the "+n" overflow count, and its click target.
- **Card editor** (`card_metadata.dfy`, `card_editor.dfy`):
  - tag add and remove, and the predefined-tag buttons;
  - the unsaved-changes flag, computed against a saved snapshot;
  - the load, autosave-completion, duplicate and move transitions;
  - the project-name lookup.
- **Settings** (`data_section.dfy`, `security_section.dfy`):
  - the typed account-deletion gate and the storage-colour bands;
  - the keyed export and backup setting updates;
  - the password form, the two-factor switch, and device-icon classification.
- **Shared vocabulary** (`common.dfy`, `strings.dfy`):
  - the JS operations the components use, each with a characterising contract: `filter`,
    `filter(y => y !== x)`, `[...new Set(xs)]`, `includes`, `toLowerCase`, and the ordering that
    stands in for `localeCompare`.

Modelling conventions:
- React re-renders between events, so every handler sees the state the previous event left. Each
  handler is one total function from state and event to state.
- Timers become explicit completion events: the whiteboard's save timer (`SaveDone`) and the card
  editor's autosave (`AutosaveComplete`).
- Values the page draws from the clock or from `Math.random` are parameters of the event that
  needs them: fresh element ids and "now" timestamps.
- The answer to `window.confirm` is a boolean parameter. The top-left corner of the canvas's
  container, in client coordinates, is a point parameter.
- Whiteboard elements are maps from field name to value, so object spread `{...a, ...b}` is map
  union.
- Coordinates, zoom and storage percentages are exact reals.

## Model

| member | source | states |
|---|---|---|
| Viewport.Clamp | src/pages/whiteboard-interface/components/WhiteboardCanvas.jsx:153 | the result is always in [0.1, 3]; an in-range zoom is unchanged, one below the range becomes 0.1, and one above becomes 3 |
| Viewport.ToLogical | src/pages/whiteboard-interface/components/WhiteboardCanvas.jsx:88-90 | corrected conversion (see Findings): the logical point from a mouse event is drawn, at container corner + pan + logical·zoom, exactly at the client point |
| Viewport.ToLogicalAsWritten | src/pages/whiteboard-interface/components/WhiteboardCanvas.jsx:88-90 | the handlers' conversion: the canvas layer's rectangle corner (container corner + pan) and then the pan again are subtracted |
| Viewport.AsWrittenOffByPan | src/pages/whiteboard-interface/components/WhiteboardCanvas.jsx:88-90 | the point the handlers compute is drawn at client − pan, so it lies under the cursor iff the pan is zero |
| Viewport.ScreenLogicalRoundTrip | src/pages/whiteboard-interface/components/WhiteboardCanvas.jsx:88-90 | the other round trip: a logical point sent to the screen and converted back is the same point |
| Viewport.WheelZoom | src/pages/whiteboard-interface/components/WhiteboardCanvas.jsx:150-155 | the result is in [0.1, 3]; scrolling down never zooms in and scrolling up never zooms out; an unclamped step is exactly ×0.9 (down) or ×1.1 (up); a step past 0.1 or 3 lands exactly on that bound |
| Viewport.ZoomIn | src/pages/whiteboard-interface/index.jsx:98-100 | never above 3; from a valid zoom it stays valid and does not decrease; below the cap it is exactly ×1.2, and at or past the cap it is exactly 3 |
| Viewport.ZoomOut | src/pages/whiteboard-interface/index.jsx:102-104 | never below 0.1; from a valid zoom it stays valid and does not increase; above the floor it is exactly ÷1.2, and at or past the floor it is exactly 0.1 |
| Viewport.ZoomStaysInBounds | src/pages/whiteboard-interface/index.jsx:98-109 | any sequence of zoom-in, zoom-out and wheel steps keeps a valid zoom valid |
| Viewport.InitialZoomInBounds | src/pages/whiteboard-interface/index.jsx:14 | starting from the initial zoom 1, no sequence of zoom steps leaves [0.1, 3] |
| ElementStore.Merge | src/pages/whiteboard-interface/index.jsx:71 | the merged record has the union of the keys; updated fields take the new values and all other fields keep the old ones |
| ElementStore.Create | src/pages/whiteboard-interface/index.jsx:55-60 | exactly one element is appended; the earlier elements are unchanged; the new element carries the fresh id and every other field of the draft |
| ElementStore.Update | src/pages/whiteboard-interface/index.jsx:69-72 | length and order are kept; elements with the id are merged with the updates and all others are unchanged |
| ElementStore.UpdateUnknownId | src/pages/whiteboard-interface/index.jsx:69-72 | an update for an id that no element carries leaves the store unchanged |
| ElementStore.FindIndex | src/pages/whiteboard-interface/index.jsx:65 | none iff no element has the id; otherwise the position of the first element that has it |
| ElementStore.Find | src/pages/whiteboard-interface/index.jsx:65 | none iff no element has the id; otherwise an element of the store with that id, with none before it |
| ElementStore.FindCreated | src/pages/whiteboard-interface/index.jsx:55-66 | with a fresh id, the element just created is the one that selection by that id finds |
| ElementStore.FindAfterCreate | src/pages/whiteboard-interface/index.jsx:55-66 | creating an element does not change what any other id finds |
| ElementStore.FindAfterUpdate | src/pages/whiteboard-interface/index.jsx:64-72 | after an update that does not touch `id`, the lookup finds the merged version of what it found before, and finds nothing iff it found nothing before |
| WhiteboardCanvas.MouseDown | src/pages/whiteboard-interface/components/WhiteboardCanvas.jsx:87-117 | select starts a drag anchored at the client point and changes nothing else; pen starts drawing and seeds the path with the one logical point that maps back to the client point, changing nothing else; text and sticky create exactly the default text or sticky element (size and content included) at that logical point and change no gesture state; rectangle, circle, arrow and card change nothing |
| WhiteboardCanvas.MouseMove | src/pages/whiteboard-interface/components/WhiteboardCanvas.jsx:119-134 | a drag adds (client − anchor) to pan and moves the anchor to the client point; drawing appends exactly one point, the logical point that maps back to the client point, and keeps the earlier points; anything else changes nothing |
| WhiteboardCanvas.MouseUp | src/pages/whiteboard-interface/components/WhiteboardCanvas.jsx:136-148 | a path element carrying the buffered points is created iff drawing with more than one point; drawing and dragging end and the buffer is empty in every case |
| WhiteboardCanvas.Wheel | src/pages/whiteboard-interface/components/WhiteboardCanvas.jsx:150-155 | the only request is a new zoom, and it lies in [0.1, 3] |
| Whiteboard.ChangeTitle | src/pages/whiteboard-interface/index.jsx:28-31 | the new title is set and the status becomes unsaved; nothing else changes |
| Whiteboard.StartSave | src/pages/whiteboard-interface/index.jsx:33-35 | the status becomes saving and one more save timer is pending; nothing else changes |
| Whiteboard.FinishSave | src/pages/whiteboard-interface/index.jsx:36-38 | a pending timer sets the status to saved; with no timer pending nothing changes |
| Whiteboard.CreateElement | src/pages/whiteboard-interface/index.jsx:55-62 | exactly one element with the draft's fields and the fresh id is appended; earlier elements are unchanged; the status becomes unsaved; nothing else on the board changes |
| Whiteboard.SelectElement | src/pages/whiteboard-interface/index.jsx:64-67 | the selection is the first element of the store carrying the id, or none iff no element carries it; nothing but the selection changes |
| Whiteboard.UpdateElement | src/pages/whiteboard-interface/index.jsx:69-74 | matching elements are merged and all others are unchanged; an unknown id leaves the store as it was; the status becomes unsaved |
| Whiteboard.Undo | src/pages/whiteboard-interface/index.jsx:76-85 | acts only when undo is enabled and the cursor is past 0; it then steps back, restores that snapshot, enables redo and disables undo at 0, changing no other field; otherwise it is a no-op |
| Whiteboard.Redo | src/pages/whiteboard-interface/index.jsx:87-96 | acts only when redo is enabled and the cursor is before the last snapshot; it then steps forward, restores that snapshot, enables undo and disables redo at the end, changing no other field; otherwise it is a no-op |
| Whiteboard.ResetView | src/pages/whiteboard-interface/index.jsx:106-109 | zoom is 1 and pan is the origin; nothing else changes |
| Whiteboard.ApplyOutput | src/pages/whiteboard-interface/index.jsx:161-171 | the canvas's requests are applied as the wired callbacks do: the gesture state is replaced, a created element is appended with the fresh id as `CreateElement` does and the status becomes unsaved, a requested pan or zoom is set; nothing else changes |
| Whiteboard.Step | src/pages/whiteboard-interface/index.jsx:28-117 | every event keeps the board well formed; no event writes the history; the tool changes only on a tool change, which changes nothing else; only the zoom controls and the wheel change the zoom, and they keep a valid zoom valid; only a title change changes the title |
| Whiteboard.StepPreservesReachable | src/pages/whiteboard-interface/index.jsx:14-25 | every event keeps the invariant: zoom in bounds, history empty with cursor −1, undo and redo disabled |
| Whiteboard.UndoRedoInert | src/pages/whiteboard-interface/index.jsx:76-96 | after any sequence of events from the initial page, undo and redo change nothing |
| Whiteboard.MouseUpResets | src/pages/whiteboard-interface/components/WhiteboardCanvas.jsx:145-147 | after mouse-up, drawing and dragging are off and the path buffer is empty; mouse-leave has exactly the same effect |
| Whiteboard.DragPanAccumulates | src/pages/whiteboard-interface/components/WhiteboardCanvas.jsx:120-127 | a sequence of drag moves shifts pan by (last client − initial anchor) and leaves the anchor at the last client point; elements are unchanged |
| Whiteboard.LogicalPath | src/pages/whiteboard-interface/components/WhiteboardCanvas.jsx:129-132 | one logical point per client point, each mapping back to its client point |
| Whiteboard.PenMovesAppend | src/pages/whiteboard-interface/components/WhiteboardCanvas.jsx:128-133 | while drawing, a sequence of moves appends their logical points in order after the recorded ones; nothing else on the board changes |
| Whiteboard.PenStroke | src/pages/whiteboard-interface/components/WhiteboardCanvas.jsx:95-148 | down, moves, up: with at least one move, exactly one path element is appended, carrying the down point and every move's point in order; a bare click adds nothing; the buffer ends empty |
| Common.Filter | src/pages/project-detail-view/index.jsx:95 | the result is a subsequence of the input; it holds every kept element with its multiplicity and nothing else |
| Common.RemoveAll | src/pages/project-detail-view/index.jsx:124 | the result is a subsequence; the removed value is absent; every other value keeps its multiplicity; absent values change nothing |
| Common.RemoveAllAppended | src/pages/card-editor/components/CardMetadata.jsx:37-43 | removing a value right after appending it, when it was absent, restores the sequence |
| Common.Dedup | src/pages/project-detail-view/index.jsx:150 | the result has no duplicates and exactly the same members as the input |
| Common.DedupOfNoDup | src/pages/project-detail-view/index.jsx:150 | a duplicate-free sequence is unchanged by deduplication |
| Common.DedupPrefix | src/pages/project-detail-view/index.jsx:150 | deduplicating a + b begins with the deduplication of a |
| Strings.Lower | src/pages/project-detail-view/index.jsx:98 | same length; each character is lowered on its own |
| Strings.Includes | src/pages/project-detail-view/index.jsx:99-101 | true iff the query occurs at some position of the string |
| Strings.LexTotal | src/pages/project-detail-view/index.jsx:111-114 | any two strings are comparable in the order used for name and type |
| Strings.LexTrans | src/pages/project-detail-view/index.jsx:111-114 | that order is transitive |
| Strings.LexAntisym | src/pages/project-detail-view/index.jsx:111-114 | that order is antisymmetric |
| ProjectContent.Visible | src/pages/project-detail-view/index.jsx:94-104 | a subsequence of the items; every kept item matches the type filter ("all" or type + "s") and the lower-cased query in title, preview or a tag; every matching item is kept with its multiplicity |
| ProjectContent.VisibleUnfiltered | src/pages/project-detail-view/index.jsx:96-103 | filter "all" with an empty query hides nothing |
| ProjectContent.InOrderTotal | src/pages/project-detail-view/index.jsx:105-118 | any two items can be ordered under every sort key |
| ProjectContent.InOrderTrans | src/pages/project-detail-view/index.jsx:105-118 | the comparator's order is transitive under every sort key |
| ProjectContent.Insert | src/pages/project-detail-view/index.jsx:105-118 | inserting into a sorted list gives a sorted list with the element added |
| ProjectContent.InsertKeepsTies | src/pages/project-detail-view/index.jsx:105-118 | inserting an item keeps every group of tied items in the order it has with the item in front |
| ProjectContent.SortItems | src/pages/project-detail-view/index.jsx:105-118 | a permutation of the input; non-increasing timestamps for modified and created; non-decreasing title or type for name and type; stable: for every item, the items tied with it appear in their input order |
| ProjectContent.SortUnknownKeepsOrder | src/pages/project-detail-view/index.jsx:115-116 | the default comparator answers 0, so the stable sort keeps the input order |
| ProjectContent.FilteredContent | src/pages/project-detail-view/index.jsx:94-118 | a permutation of the visible items, sorted by the key, each passing both filters; tied items keep their order in the collection |
| ProjectContent.SortedByModifiedPairwise | src/pages/project-detail-view/index.jsx:107-108 | in a list sorted by modification time, every earlier item is at least as recent as every later one |
| ProjectContent.Ids | src/pages/project-detail-view/index.jsx:132 | the ids of the items, position by position |
| ProjectContent.SelectItem | src/pages/project-detail-view/index.jsx:120-126 | selecting appends the id at the end; deselecting removes every occurrence of the id and keeps the other ids in order and multiplicity |
| ProjectContent.SelectThenDeselect | src/pages/project-detail-view/index.jsx:120-126 | selecting an unselected id and deselecting it again restores the selection |
| ProjectContent.SelectAll | src/pages/project-detail-view/index.jsx:128-134 | equal counts clear the selection; otherwise the selection becomes exactly the visible ids in display order |
| ProjectContent.SelectAllToggles | src/pages/project-detail-view/index.jsx:128-134 | from an empty selection, select-all selects every visible item, and pressing it again clears the selection |
| ProjectContent.BulkDelete | src/pages/project-detail-view/index.jsx:140-145 | confirmed: exactly the items with a selected id go, the rest keep their order and multiplicity, and the selection empties; declined: nothing changes |
| ProjectContent.BulkDeleteNothingSelected | src/pages/project-detail-view/index.jsx:140-145 | a confirmed bulk delete with nothing selected keeps every item |
| ProjectContent.MergeTags | src/pages/project-detail-view/index.jsx:150 | no duplicates; a tag is present iff it was old or added; duplicate-free old tags come first, in order |
| ProjectContent.BulkTag | src/pages/project-detail-view/index.jsx:147-154 | selected items get the duplicate-free union of old and added tags, with every other field kept; unselected items are untouched; the length is kept; the selection empties |
| ProjectContent.TagSelected | src/pages/project-detail-view/index.jsx:148-152 | the list keeps its length; an item is re-tagged iff its id is selected |
| ProjectContent.BulkTagKeepsOldTagsFirst | src/pages/project-detail-view/index.jsx:150 | a tagged item's duplicate-free old tags stay in front, in their order |
| ProjectContent.DeleteItem | src/pages/project-detail-view/index.jsx:189-193 | confirmed: every item with that id is removed and nothing else; declined: nothing changes |
| ProjectContent.DuplicateItem | src/pages/project-detail-view/index.jsx:195-204 | one copy goes in front, titled "<title> (Copy)", with the new id and both timestamps now; the list behind it is unchanged |
| ProjectContent.DeleteDuplicate | src/pages/project-detail-view/index.jsx:189-204 | duplicating an item under a fresh id and then deleting the copy restores the list |
| ContentCard.TagRowFor | src/pages/project-detail-view/components/ContentCard.jsx:67-76 | no row iff tags are absent or empty; otherwise the first min(k, n) tags, with k = 2 in list view and 3 in grid view; a "+(n − k)" badge iff n > k |
| ContentCard.TagRowAccountsForAll | src/pages/project-detail-view/components/ContentCard.jsx:165-175 | the shown chips plus the overflow count equal the number of tags, and the chips are the leading tags |
| ContentCard.GridShowsAtLeastList | src/pages/project-detail-view/components/ContentCard.jsx:167 | a grid tile shows at least as many chips as a list row |
| ContentCard.ClickTarget | src/pages/project-detail-view/components/ContentCard.jsx:18-24 | the card editor iff the type is "card", otherwise the whiteboard, in both cases with the item's id |
| CardMetadata.AddTag | src/pages/card-editor/components/CardMetadata.jsx:35-40 | a non-empty new tag is appended, the length grows by one and the input clears; an empty or present tag changes nothing, including the input |
| CardMetadata.KeyPress | src/pages/card-editor/components/CardMetadata.jsx:46-51 | Enter submits the typed tag under the same rules; other keys change nothing |
| CardMetadata.RemoveTag | src/pages/card-editor/components/CardMetadata.jsx:42-44 | every occurrence goes; the other tags keep their order and multiplicity |
| CardMetadata.AddTagKeepsNoDup | src/pages/card-editor/components/CardMetadata.jsx:36-37 | a duplicate-free tag list stays duplicate-free after an add |
| CardMetadata.AddThenRemove | src/pages/card-editor/components/CardMetadata.jsx:35-44 | adding a fresh tag and removing it restores the list |
| CardMetadata.DisabledIffNoOp | src/pages/card-editor/components/CardMetadata.jsx:133-140 | a predefined button is disabled exactly when clicking it would change nothing |
| CardEditor.Settle | src/pages/card-editor/index.jsx:121-136 | once a snapshot exists, the flag is up iff title, content, project or the tag sequence differs from it; while it is up the status is saving |
| CardEditor.Load | src/pages/card-editor/index.jsx:87-118 | the snapshot equals the card, so nothing is unsaved; a known non-empty id loads that card; anything else gives a blank card with id "new" |
| CardEditor.ApplyEdit | src/pages/card-editor/index.jsx:288-320 | the edited field (title, content, project or tags) takes the new value and nothing else in the card changes; the snapshot is kept; afterwards the flag tells whether the card differs from the snapshot |
| CardEditor.EditBackIsClean | src/pages/card-editor/index.jsx:121-131 | typing a field back to its saved value clears the flag, because the flag compares with the snapshot |
| CardEditor.AutosaveComplete | src/pages/card-editor/index.jsx:137-153 | with unsaved changes: status saved, flag down, snapshot := the card, then modifiedAt is bumped; otherwise nothing |
| CardEditor.SaveCompletionStaysClean | src/pages/card-editor/index.jsx:139-153 | the modifiedAt bump after a save does not make the card dirty again, and the status stays saved |
| CardEditor.Duplicate | src/pages/card-editor/index.jsx:198-214 | id "new" and title + " (Copy)"; content, project and tags kept; creation time now; the copy is its own snapshot, so it is not dirty |
| CardEditor.Move | src/pages/card-editor/index.jsx:216-219 | only the project changes; afterwards the flag tells whether the card differs from the snapshot, so moving back to the saved project makes a card whose only change was its project clean again; a clean card becomes dirty iff the project differs from the saved one |
| CardEditor.ProjectName | src/pages/card-editor/index.jsx:262-272 | "Unassigned" iff the id is not one of the six known ids |
| CardEditor.ProjectNameMatchesOptions | src/pages/card-editor/components/CardMetadata.jsx:21-28 | every project option's value is named by its own label, and any id that is no option's value is "Unassigned" |
| DataSection.OpenModal | src/pages/profile-and-settings/components/DataSection.jsx:322 | the modal opens and the typed text is kept |
| DataSection.TypeConfirmation | src/pages/profile-and-settings/components/DataSection.jsx:352 | the typed text replaces the confirmation; the modal state is kept |
| DataSection.DeleteAccount | src/pages/profile-and-settings/components/DataSection.jsx:77-86 | the request goes through iff the text is exactly "DELETE MY ACCOUNT"; a refusal changes nothing; a success closes the modal and keeps the text |
| DataSection.DeleteDisabledIffRefused | src/pages/profile-and-settings/components/DataSection.jsx:371 | the button is disabled iff the handler would refuse |
| DataSection.Cancel | src/pages/profile-and-settings/components/DataSection.jsx:361-364 | the modal closes, the confirmation is empty, and the delete button is disabled |
| DataSection.ReopenAfterCancelNeedsPhrase | src/pages/profile-and-settings/components/DataSection.jsx:77-86 | after a cancel, a reopened modal refuses until the phrase is typed again; after a success the kept phrase lets a reopened modal submit at once |
| DataSection.StoragePercentage | src/pages/profile-and-settings/components/DataSection.jsx:88-90 | the percentage p satisfies p · total = used · 100 |
| DataSection.StorageColorFor | src/pages/profile-and-settings/components/DataSection.jsx:92-97 | destructive iff > 90; warning iff in (75, 90]; primary iff ≤ 75; the bands are exhaustive and disjoint |
| DataSection.StorageColorMonotone | src/pages/profile-and-settings/components/DataSection.jsx:92-97 | more usage never gives a less severe colour |
| DataSection.SetKey | src/pages/profile-and-settings/components/DataSection.jsx:57-62 | the named key gets the value; every other key is untouched; the key set only gains that key |
| DataSection.SetKeyIdempotent | src/pages/profile-and-settings/components/DataSection.jsx:70-75 | writing a key's current value changes nothing |
| DataSection.SetKeysCommute | src/pages/profile-and-settings/components/DataSection.jsx:70-75 | updates of two different keys commute |
| DataSection.ExportToggleKeepsKeys | src/pages/profile-and-settings/components/DataSection.jsx:57-62 | ticking or unticking an existing option of any record keeps its key set, and a record of flags stays a record of flags |
| SecuritySection.ChangeField | src/pages/profile-and-settings/components/SecuritySection.jsx:46-51 | the named field takes the value; the other two are unchanged |
| SecuritySection.FillingEnablesSubmit | src/pages/profile-and-settings/components/SecuritySection.jsx:138 | filling all three fields from the empty form enables submit |
| SecuritySection.Submit | src/pages/profile-and-settings/components/SecuritySection.jsx:53-65 | accepted iff new and confirmation match; a mismatch leaves all three fields unchanged; a match clears all three |
| SecuritySection.SubmitClearsAndDisables | src/pages/profile-and-settings/components/SecuritySection.jsx:58-64 | after an accepted change the submit button is disabled |
| SecuritySection.Enable | src/pages/profile-and-settings/components/SecuritySection.jsx:67-78 | enabled and QR shown; exactly five distinct backup codes are installed |
| SecuritySection.Disable | src/pages/profile-and-settings/components/SecuritySection.jsx:80-84 | disabled, QR hidden, no backup codes |
| SecuritySection.Regenerate | src/pages/profile-and-settings/components/SecuritySection.jsx:219-227 | while enabled, the QR panel flips and the enabled flag and codes are kept; while disabled (button not shown) nothing changes; consistency is kept |
| SecuritySection.TogglesStayConsistent | src/pages/profile-and-settings/components/SecuritySection.jsx:67-84 | any sequence of enable, disable and regenerate presses keeps the codes installed exactly while enabled and the QR panel hidden while disabled; a last enable or disable press decides the whole state; regenerate presses alone change neither the flag nor the codes |
| SecuritySection.IconFor | src/pages/profile-and-settings/components/SecuritySection.jsx:90-94 | smartphone iff the name contains "iPhone" or "Android"; tablet iff it contains neither but contains "iPad" or "Tablet"; monitor iff it contains none of the four |
| SecuritySection.NoClassifyingLetterIsMonitor | src/pages/profile-and-settings/components/SecuritySection.jsx:90-94 | any name without the letters 'i', 'A' and 'T' (such as the "MacBook Pro" session) is shown as a monitor |

## Left out

- Rendering is not modelled: JSX, CSS classes, layout, the canvas render pass and the minimap. The canvas draws a hard-coded list of mock elements, not the store, so it is display only.
- Browser calls are not modelled: `window.location`, `alert`, `console.log`, `localStorage`, `document.execCommand`, `navigator.clipboard`, `FileReader`, `getBoundingClientRect` and event-listener registration. Navigation is modelled only as the route value `ContentCard.ClickTarget`. `window.confirm` is a boolean parameter; the canvas container's corner is a parameter.
- Timers are modelled as completion events, with no timing and no cancellation.
  - The whiteboard's save timer is never cancelled, so a completion after a later edit still reports saved; `Whiteboard.FinishSave` models exactly that.
  - The autosave timer restarts on every card change; only its final firing is modelled, as `CardEditor.AutosaveComplete`.
- Floating point is not modelled: zoom, coordinates and percentages are exact reals, and `Math.round` display formatting is left out.
- `Viewport.ToLogical` requires a non-zero zoom. In every reachable state the zoom is at least 0.1 (`Whiteboard.StepPreservesReachable`), so JS division by zero (Infinity) never arises.
- `Date` and locale formatting are not modelled: timestamps are abstract integers, and "now" is a parameter.
  - `localeCompare` is approximated by lexicographic order on character codes (`Strings.LexLe`). `toLowerCase` lowers only ASCII letters (`Strings.Lower`).
- `Date.now() + Math.random()` ids are not generated: the fresh id is a parameter. The source does not guarantee uniqueness, so the lemmas that need a fresh id take it as a precondition.
- `DataSection.StoragePercentage` requires a positive total. The page's usage record is a constant with total 10, so the source never divides by zero.
- The rich-text editor, the editor toolbar's `execCommand` formatting and image insertion are not modelled. The editor's content is the `CardEditor.Edit` value `Content`.
- Not modelled: the sidebar, header, dashboard, authentication pages and the mock data lists.
  - The card store is a parameter of `CardEditor.Load`; the page's two mock cards ("1" and "2") are one instance of it.
- Settings panels that only toggle record fields (display, notifications, profile, billing) are not modelled. Nor are header and title edit buffers, export start, session termination, bulk move (which logs and clears the selection) and bulk archive (which asks `window.confirm` and then clears the selection, archiving nothing).
- Properties of the JS object model are not modelled: prototype keys such as `"constructor"` would make `projectMap[id]` truthy, and `CardEditor.ProjectName` treats every id outside the six as unassigned.
- `ElementStore.Update` ignores an unknown id; no error is reported.
- The mouse handlers' coordinate conversion subtracts the pan twice (see Findings). `WhiteboardCanvas.MouseDown`, `WhiteboardCanvas.MouseMove` and the whiteboard lemmas use the corrected conversion `Viewport.ToLogical`; the conversion as written is `Viewport.ToLogicalAsWritten`.
- The initial export-option and backup records are page data and are not stated; `DataSection.ExportToggleKeepsKeys` holds for any record.
- `ProjectContent.SelectAll` follows the code: it compares only the selection's length with the visible count. A selection of the same size that holds other ids (for example after changing the filter) is cleared rather than replaced.
- `ProjectContent.Item` keeps only the fields the list operations read or write. Thumbnails, authors and content bodies are carried along unchanged by the source and are not modelled.
- The whiteboard's `selectedElement` keeps a reference to the element object found at selection time. An update builds new objects, so the selection goes stale: `Whiteboard.UpdateElement` leaves it as it was, like the source.

## Findings

| source | as written | input that shows it | evidently intended | confidence | as-written member | corrected member |
|---|---|---|---|---|---|---|
| src/pages/whiteboard-interface/components/WhiteboardCanvas.jsx:88-90 | the canvas layer carries `translate(pan)` (lines 250-252), so its bounding rectangle's corner already includes the pan, and the handlers subtract the pan again: `(client − (corner + pan) − pan) / zoom`; the same at lines 129-131 | container corner (0, 0), pan (10, 0), zoom 1, click at client (50, 0): the element drawn there is at logical (40, 0), but the handler computes (30, 0) | subtract the pan once, so the new point is the one drawn under the cursor | medium, not executed | Viewport.ToLogicalAsWritten, Viewport.AsWrittenOffByPan, Viewport.PanTwiceExample | Viewport.ToLogical |
