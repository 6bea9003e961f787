# Timepp panel controller

A Dafny model of the controller at the heart of the Timepp GNOME Shell
extension (`extension.js`). The `Timepp` panel button owns a fixed, ordered
registry of five sections (timer, stopwatch, pomodoro, alarms, todo), one
separator per section in the popup, a unified panel icon, a context menu and
the popup menu itself. It decides:

- which sections' content is shown when the popup opens: all enabled
  sections from the unified icon, a separate-menu section alone, or every
  enabled non-separate section;
- which separators are shown;
- which panel icons are shown (the unified icon, or one per enabled section);
- how the icons are styled (`checked`) and whether they take focus;
- in which order sections are told that they open or close.

It also moves its container between the left, center and right boxes of the
host panel.

The project has six modules:

- `Sections` (sections.dfy): the section record and the notification log
  entry. `IndicesOf` lists, in registry order, the sections a pass touched.
- `Separators` (separators.dfy): the separator recomputation as a reference
  function, with its counting and placement lemmas.
- `Composition` (composition.dfy): what each pass does to the registry, as
  functions of the registry before it.
  - Passes: the three open passes, the close handler, the context-menu
    opening and the unicon-mode switch.
  - Notification sequences of opening and closing.
- `Controller` (controller.dfy): the whole controller state as a value.
  - One function per handler.
  - `Step` and `Run` over sequences of user events.
  - The invariant that a closed popup shows nothing.
- `PanelLayout` (panel.dfy): the three panel boxes, the container move and
  a `Panel` class with the three Clutter child operations.
- `Extension` (extension.dfy): the `Timepp` class.
  - The registry and the separators are arrays it updates in place.
  - The popup's flags are fields.
  - There is one method per handler, with the loops of the source.
  - Every handler method is proved to leave exactly the state that the
    matching `Controller` function describes:
    `View() == Open(old(View()), trigger)`, and so on. The panel move is
    proved against `PanelLayout.MoveContainer`.
  - The helpers for one pass, one loop turn or one notification are proved
    against the `Composition` and `Sections` functions.

Section identity is the registry index. The source compares the sections'
class names (`__name__`), which are distinct across the five sections.

Behaviour worth knowing before reading the contracts:

- Separators: separator `i-1` is shown exactly when section `i` is shown
  and some earlier section is shown. A hidden section between two shown ones
  therefore gets no separator of its own.
- The trailing separator: a separator is created for every section, because
  the test `i !== len` in the registration loop never fails. The last one is
  never written by the recomputation and keeps the shown state it got when
  it was added to the popup. The popup therefore always ends with a shown
  separator below the last shown section
  (`Controller.TrailingSeparatorAlwaysShown`).
- Panel move: a move to the container's current position is not
  special-cased. The container is removed and inserted again, which can
  reorder the box (`PanelLayout.SameSlotMoveReorders`).
- Unicon mode: the unified-icon branch of `open_menu` shows every enabled
  section, so several separate-menu sections can be shown at once.
- A request from a section icon must name a section: `open_menu` reads the
  trigger's `section_enabled` without a check when the unified icon is
  hidden. This is the precondition `Composition.CanOpen`. `Controller.Step`
  turns such an event into `None`.
- Notification order: the class keeps a ghost record, `heard`, of what each
  section sees when its `on_section_open_state_changed` runs (the
  registry, the separators and whether the menu is open). `open_menu`
  notifies only after every visibility change, the separator recomputation
  and the opening; the close handler notifies a section while its content is
  still shown, after its icon has been reset.

## Model

| member | source | states |
|---|---|---|
| Sections.IndicesOfMembers | extension.js:241-249 | the collected index list holds exactly the flagged sections, strictly increasing, i.e. in registry order and each once |
| Sections.IndicesOfSingle | extension.js:259-262 | when only the trigger can be flagged, the collected list is the trigger alone or empty |
| Sections.NotifyMembers | extension.js:299-303 | a section gets a notification of a kind exactly when it is in the list told that kind |
| Separators.SeparatorsFor | extension.js:330-347 | the recomputation keeps the length, never writes the trailing separator, and a shown separator has a shown section below it and one above |
| Separators.SeparatorShownBetweenShown | extension.js:330-347 | conversely, a separator whose section below is shown, with a shown section above, is shown |
| Separators.NoLeadingOrTrailingSeparator | extension.js:330-347 | no written separator (0 .. n-2) is shown above the first or below the last shown section |
| Separators.TrailingSeparatorKept | extension.js:330-347 | the trailing separator is not recomputed: with only the first section shown, the written separators are hidden and a shown trailing one stays shown |
| Separators.SeparatorCount | extension.js:330-347 | the number of shown written separators is max(0, shown sections - 1) |
| Separators.BetweenCount | extension.js:330-347 | the written part alone has max(0, shown sections - 1) shown separators |
| Separators.CountZeroIffNone | extension.js:331-347 | no section is counted as shown exactly when the running flag never becomes true |
| Separators.SeparatorsIdempotent | extension.js:330-347 | recomputing twice equals once, and the written part depends on the visibility vector alone |
| Composition.OpenBranch | extension.js:237-294 | the unified-icon branch is taken exactly when the icon is shown; the request is ignored exactly when the trigger is disabled; the separate-menu branch is taken exactly for an enabled separate trigger |
| Composition.OpenBranchAdmissible | extension.js:251-254 | a separate-menu request always names an enabled separate-menu section of the registry |
| Composition.AfterOpen | extension.js:237-294 | the registry after the visibility pass, one record per section; its branch-by-branch effect is stated by Composition.AfterOpenEffect |
| Composition.AfterOpenEffect | extension.js:237-294 | only content visibility changes and disabled sections are untouched. Unified icon: every enabled section is shown. Separate trigger: it is the only enabled section left shown. Non-separate trigger: exactly the enabled non-separate sections are shown. The pass preserves visible implies enabled |
| Composition.OpenNotifications | extension.js:232-303 | the notifications open_menu sends, at most two per section; their order is stated by Composition.OpenNotificationsOrder and their addressees by Composition.OpenNotificationsAddressees |
| Composition.OpenNotificationsOrder | extension.js:232-303 | every notification names a registry section; every 'opens' precedes every 'closes'; each kind is in registry order |
| Composition.OpenNotificationsAddressees | extension.js:237-303 | a section is told it opens exactly when the pass showed it, and that it closes exactly when the pass hid it |
| Composition.AfterClose | extension.js:197-209 | disabled sections are untouched; every enabled one ends hidden, unchecked and focusable; none is left shown |
| Composition.CloseNotifications | extension.js:197-209 | only 'closes', in registry order, one to each enabled section that was shown and to no other |
| Composition.AfterContextOpen | extension.js:314-321 | content visibility is unchanged; exactly the sections whose icon is shown become checked and unfocusable |
| Composition.WithUniconMode | extension.js:349-366 | unicon mode hides every section icon; otherwise every enabled section's icon is shown and disabled ones keep theirs; nothing else changes |
| Composition.UniconModeIdempotent | extension.js:349-366 | switching to a mode twice is switching once |
| Composition.UniconModeLastWins | extension.js:349-366 | from any state the startup loop can produce, the last switch alone decides the icons |
| Composition.OpenThenCloseHidesAll | extension.js:189-210 | after an open and the close handler, no section is shown; a section the open showed was told it opens and then told it closes |
| Composition.ContextOpenThenClose | extension.js:189-210 | after opening the context menu and closing, nothing is shown and every enabled section is unchecked and focusable |
| Controller.Startup | extension.js:136-152 | all content hidden, one shown separator per section, icons hidden for disabled sections and in unicon mode, the menu closed and nothing notified |
| Controller.Open | extension.js:231-304 | an ignored request changes nothing; otherwise the menu opens on the right anchor, the unified icon is checked in unicon mode, icons and their styling are untouched, the trailing separator is untouched and the log only grows |
| Controller.HandleClosed | extension.js:189-210 | the context menu is hidden, the unified icon unchecked, no section shown, enabled sections unchecked and focusable, disabled ones untouched, the close notifications appended |
| Controller.Close | extension.js:213-216 | the menu ends closed; closing an open menu leaves nothing shown; closing a closed one changes nothing |
| Controller.ToggleMenu | extension.js:213-220 | an open menu is closed, a closed one opened |
| Controller.ToggleContextMenu | extension.js:306-327 | an open menu is only closed; otherwise the menu opens with the context menu shown, no notification, content visibility unchanged, shown icons checked and unfocusable, the anchor set by the trigger |
| Controller.SetUniconMode | extension.js:349-366 | the unified icon follows the mode and the registry becomes exactly Composition.WithUniconMode of the old one, so only the section icons change; content visibility is unchanged |
| Controller.FocusIn | extension.js:173-179 | focus is ignored while the context menu is up, otherwise it opens the menu from the unified icon, which must then be shown |
| Controller.SetUniconModeIdempotent | extension.js:349-366 | the mode switch on the whole state is idempotent |
| Controller.TogglesOnOpenMenuOnlyClose | extension.js:213-220 | on an open menu both toggles only close, and the close hides every enabled section |
| Controller.Step | extension.js:165-210 | every delivered event keeps the registry well formed |
| Controller.StepKeepsClosedBlank | extension.js:165-210 | every event keeps a closed popup free of shown content and of the context menu |
| Controller.Run | extension.js:165-210 | a run of events keeps the registry well formed |
| Controller.StepKeepsTrailingSeparator | extension.js:330-347 | no event writes the trailing separator |
| Controller.RunKeepsTrailingSeparator | extension.js:330-347 | no run of events writes the trailing separator |
| Controller.TrailingSeparatorAlwaysShown | extension.js:142-147 | after any run of events from start-up, the trailing separator is shown |
| Controller.StartupIsReset | extension.js:136-152 | start-up leaves the unified icon unchecked, every enabled icon unchecked and focusable, and every disabled icon hidden, unchecked and focusable, given section records with unchecked, focusable icons |
| Controller.StepKeepsClosedReset | extension.js:189-210 | every event keeps a closed popup's unified icon unchecked and its enabled icons unchecked and focusable |
| Controller.CloseAfterAnyRun | extension.js:189-210 | after any run of events from a blank closed state, closing leaves the menu closed with nothing shown; when the icons were reset at the start, the unified icon ends unchecked and every enabled icon unchecked and focusable |
| Controller.OpenKeepsDisabledQuiet | extension.js:231-304 | open_menu leaves every disabled section's icon hidden, unchecked and focusable |
| Controller.CloseKeepsDisabledQuiet | extension.js:189-216 | closing leaves every disabled section's icon hidden, unchecked and focusable |
| Controller.ContextKeepsDisabledQuiet | extension.js:306-327 | toggle_context_menu leaves every disabled section's icon hidden, unchecked and focusable |
| Controller.UniconModeKeepsDisabledQuiet | extension.js:349-366 | the unicon-mode switch leaves every disabled section's icon hidden, unchecked and focusable |
| Controller.StepKeepsDisabledQuiet | extension.js:165-210 | no event touches a disabled section's hidden, unchecked, focusable icon |
| Controller.RunKeepsDisabledQuiet | extension.js:165-210 | no run of events touches a disabled section's hidden, unchecked, focusable icon |
| Controller.CloseAfterRunFromStartup | extension.js:136-210 | from start-up with unchecked, focusable icons, closing after any run of events restores the closed baseline: nothing shown, no context menu, the unified icon unchecked and every section icon, enabled or not, unchecked and focusable |
| PanelLayout.MoveContainer | extension.js:372-397 | the container lands at the back of the left or center box or at the front of the right box, has left the old box, and the third box is untouched |
| PanelLayout.MoveKeepsOthersInOrder | extension.js:372-397 | every box keeps its other children in their old order |
| PanelLayout.MovePlaces | extension.js:372-397 | a container that sits once in the old box only sits once in the new box only |
| PanelLayout.LeftRightRoundTrip | extension.js:372-397 | moving left to right and back puts the container in the left box only, with all other children in order |
| PanelLayout.LeftRightRoundTripExact | extension.js:372-397 | if the container was last in the left box, the round trip restores every box exactly |
| PanelLayout.SameSlotMoveReorders | extension.js:372-397 | a move to the same position is not a no-op: it takes the container from the back to the front of the right box |
| PanelLayout.Without | extension.js:377-383 | the child is gone, every other child stays, and a box without the child is unchanged |
| PanelLayout.WithoutAppend | extension.js:377-383 | removing a child distributes over concatenation |
| PanelLayout.WithoutIgnoresContainer | extension.js:377-383 | removing the container again, or after it was added at either end, changes nothing |
| PanelLayout.Panel.RemoveChild | extension.js:377-383 | the box loses the child and keeps the rest in order |
| PanelLayout.Panel.AddChild | extension.js:389-392 | the child is appended to the box |
| PanelLayout.Panel.InsertChildAtIndex | extension.js:395 | the child is inserted at the index, or appended past the end |
| Extension.Timepp.constructor | extension.js:136-152 | the registration loop leaves exactly the state of Controller.Startup |
| Extension.Timepp.UpdateSeparators | extension.js:330-347 | the running-flag loop leaves exactly Separators.SeparatorsFor of the visibility vector |
| Extension.Timepp.NotifySection | extension.js:300 | one notification is appended to the log, and the section is recorded as seeing the registry, separators and menu state of that moment |
| Extension.Timepp.NotifySections | extension.js:299-303 | each listed section is told, in list order, and each sees the current registry, separators and menu state |
| Extension.Timepp.ShowAllPass | extension.js:237-250 | the registry becomes AfterOpen with the unified icon; the shown list is the enabled hidden sections in registry order |
| Extension.Timepp.ShowIfHidden | extension.js:242-248 | one turn of the unified loop: the section is shown and listed exactly when it is enabled and hidden; no other section changes |
| Extension.Timepp.ExclusivePass | extension.js:254-274 | the registry becomes AfterOpen for the separate trigger; the shown and hidden lists are the ones the pass flags |
| Extension.Timepp.HideOthers | extension.js:257-273 | every enabled shown section other than the trigger is hidden, the others are untouched, and the hidden list is those sections in registry order |
| Extension.Timepp.HideIfOther | extension.js:265-272 | one turn of that loop: the section is hidden and listed exactly when it is enabled, shown and not the trigger; no other section changes |
| Extension.Timepp.SharedPass | extension.js:275-294 | the registry becomes AfterOpen for a non-separate trigger; the shown and hidden lists are the ones the pass flags |
| Extension.Timepp.ShareStep | extension.js:279-292 | one turn of the shared loop: an enabled shown separate-menu section is hidden and listed as hidden, an enabled hidden non-separate one is shown and listed as shown; no other section changes |
| Extension.Timepp.VisibilityPass | extension.js:237-294 | the branch chosen, the anchor, the unified icon's style and the pass result, or no change for a disabled trigger |
| Extension.Timepp.OpenMenu | extension.js:231-304 | open_menu leaves exactly Controller.Open of the old state, and every section it notifies sees the final registry and separators and an open menu |
| Extension.Timepp.ShowAndNotify | extension.js:296-303 | the separators are recomputed from the new visibility, the menu opens, and the shown list and then the hidden list are notified; each notified section sees the recomputed separators and an open menu |
| Extension.Timepp.NotifyOpened | extension.js:299-303 | the shown list is told it opens and then the hidden list that it closes, all in one popup state |
| Extension.Timepp.OnOpenStateChanged | extension.js:189-210 | an opening changes nothing; a closing leaves exactly Controller.HandleClosed, and each section told that it closes is still shown at that moment, with its icon already unchecked and focusable |
| Extension.Timepp.CloseSections | extension.js:197-209 | the loop leaves exactly AfterClose and appends exactly CloseNotifications; each section told that it closes is still shown then |
| Extension.Timepp.CloseSection | extension.js:198-208 | one turn of the close loop: an enabled section ends hidden, unchecked and focusable, and is told it closes exactly when it was shown, seeing itself still shown with its icon reset; a disabled one is untouched; no other section changes |
| Extension.Timepp.CloseMenu | extension.js:213-216 | closing leaves exactly Controller.Close |
| Extension.Timepp.ToggleMenu | extension.js:213-220 | toggle_menu leaves exactly Controller.ToggleMenu |
| Extension.Timepp.ToggleContextMenu | extension.js:306-327 | toggle_context_menu leaves exactly Controller.ToggleContextMenu |
| Extension.Timepp.CheckShownIcons | extension.js:314-321 | the registry becomes exactly AfterContextOpen of the old one |
| Extension.Timepp.ToggleUniconMode | extension.js:349-366 | _toggle_unicon_mode leaves exactly Controller.SetUniconMode |
| Extension.Timepp.OnUniconFocusIn | extension.js:173-179 | the focus handler leaves exactly Controller.FocusIn |
| Extension.Timepp.OnPanelPositionChanged | extension.js:372-397 | the panel boxes become exactly PanelLayout.MoveContainer of the old boxes |
| Extension.Timepp.OnPanelPositionSetting | extension.js:165-169 | the container moves from the remembered position, the new position is remembered, and the popup state is untouched |

## Left out

- Stylesheet loading and unloading, theme-context signals and the idle-deferred theme latch: these are host theme I/O and asynchronous callbacks.
- Cache-directory creation through a spawned command, and gettext setup: process and I/O plumbing.
- Icon loading for the unified icon (`_update_unicon_name`): `icon_from_uri` is not part of this model.
- `needs_scrollbar`: it depends on actor geometry and theme-node measurements.
- `enable`, `disable`, `addToStatusArea` and `destroy`: host registration and the sections' own teardown.
- Section internals (the timer, stopwatch, pomodoro, alarms and todo modules): each is an opaque record. Its `on_section_open_state_changed` calls are recorded as log entries, and whatever a section does in reaction is not modelled.
- Signal wiring and the re-emitted `stop-time-tracking` event: the handlers are modelled as methods, not the event system that calls them.
- The host popup menu's open and close are modelled by their effect on the controller. Opening sets `isOpen`. Closing clears it and runs the `open-state-changed` handler with false. Animation and grab handling are left out.
- Settings reads are parameters: the unicon-mode flag of `_toggle_unicon_mode` and the new position of the position handler.
- The Clutter rule that an actor has one parent: the panel boxes are plain lists. `PanelLayout.MovePlaces` proves that a container placed once stays placed once.
- Section identity by class name: modelled as the registry index.
- Controller.Step: key focus on the unified icon is delivered only while the icon is shown, since a hidden actor takes no key focus. `Controller.FocusIn` itself also accepts a hidden icon while the context menu is up, where it does nothing.
