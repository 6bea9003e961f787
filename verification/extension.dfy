/** The Timepp panel button: the section registry and separator list as
    arrays it updates in place, the popup's flags as fields, and one method
    per handler. Each method is proved to leave the state that the matching
    function of module Controller describes. */
module Extension {
  import opened Sections
  import opened Separators
  import opened Composition
  import opened Controller
  import opened PanelLayout

  /** What a section sees when its on_section_open_state_changed runs: the
      notification itself, the registry, the separators and whether the
      menu is open at that moment. */
  datatype Heard = Heard(note: Notification, sections: seq<Section>, separators: seq<bool>, isOpen: bool)

  /** A batch of notifications all delivered while the popup is in one state. */
  function Told(notes: seq<Notification>, s: seq<Section>, seps: seq<bool>, open: bool): (h: seq<Heard>)
    ensures |h| == |notes|
    ensures forall j :: 0 <= j < |notes| ==> h[j] == Heard(notes[j], s, seps, open)
  {
    seq(|notes|, j requires 0 <= j < |notes| => Heard(notes[j], s, seps, open))
  }

  /** A section told that it closes while its content is still shown and
      its icon is already unchecked and focusable. */
  ghost predicate ToldWhileShown(h: Heard) {
    && !h.note.open
    && h.note.section < |h.sections|
    && h.sections[h.note.section].visible
    && !h.sections[h.note.section].checked
    && h.sections[h.note.section].canFocus
  }

  lemma ToldAppend(a: seq<Notification>, b: seq<Notification>, s: seq<Section>, seps: seq<bool>, open: bool)
    ensures Told(a + b, s, seps, open) == Told(a, s, seps, open) + Told(b, s, seps, open)
  {
  }

  class Timepp {
    const sections: array<Section>   // section_register
    const separators: array<bool>    // separator_register: shown or hidden
    var isOpen: bool                 // menu.isOpen
    var contextVisible: bool         // context_menu.actor.visible
    var uniconVisible: bool          // unicon_panel_item.actor.visible
    var uniconChecked: bool          // 'checked' on the unified icon
    var sourceAnchor: Anchor         // menu.sourceActor
    var log: seq<Notification>       // section notifications sent so far
    var panelItemPosition: PanelPosition
    const container: ActorId         // the button's container actor
    ghost var heard: seq<Heard>      // what each notified section saw, in call order

    ghost predicate Valid()
      reads this, sections
    {
      && sections.Length == SectionCount
      && separators.Length == SectionCount
      && VisibleImpliesEnabled(sections[..])
    }

    /** The controller's state as a value. */
    ghost function View(): State
      reads this, sections, separators
    {
      State(sections[..], separators[..], isOpen, contextVisible, uniconVisible,
            uniconChecked, sourceAnchor, log)
    }

    /** _init: the five section records come from the section constructors;
        the registration loop hides each section's content, adds a separator
        after it and hides its icon if it is disabled or unicon mode is on. */
    constructor (init: seq<Section>, uniconMode: bool, position: PanelPosition, container: ActorId)
      requires |init| == SectionCount
      ensures Valid() && fresh(sections) && fresh(separators)
      ensures View() == Startup(init, uniconMode)
      ensures panelItemPosition == position && this.container == container
    {
      var reg := new Section[|init|](k requires 0 <= k < |init| => init[k]);
      var seps: seq<bool> := [];
      var len := reg.Length;
      for i := 0 to len
        invariant |seps| == i
        invariant forall k :: 0 <= k < i ==> seps[k]
        invariant forall k :: 0 <= k < i ==> reg[k] == StartupSection(init[k], uniconMode)
        invariant forall k :: i <= k < len ==> reg[k] == init[k]
      {
        reg[i] := reg[i].(visible := false);
        // always taken: i only runs up to len - 1
        if i != len {
          seps := seps + [true];
        }
        if !reg[i].enabled || uniconMode {
          reg[i] := reg[i].(iconVisible := false);
        }
      }
      sections := reg;
      separators := new bool[len](k requires 0 <= k < len => seps[k]);
      isOpen := false;
      contextVisible := false;
      uniconVisible := uniconMode;
      uniconChecked := false;
      sourceAnchor := ButtonActor;
      log := [];
      heard := [];
      panelItemPosition := position;
      this.container := container;
      new;
      assert sections[..] == Startup(init, uniconMode).sections;
      assert separators[..] == Startup(init, uniconMode).separators;
    }

    /** _update_separators: a running flag says whether a shown section has
        been seen; separator i-1 is shown when section i is shown after one. */
    method UpdateSeparators()
      requires Valid()
      modifies separators
      ensures separators[..] == SeparatorsFor(Visibility(sections[..]), old(separators[..]))
    {
      ghost var vis := Visibility(sections[..]);
      ghost var before := separators[..];
      var flag := sections[0].visible;
      var len := sections.Length;
      for i := 1 to len
        invariant flag == VisibleBefore(vis, i)
        invariant forall k :: 0 <= k < i - 1 ==> separators[k] == (vis[k + 1] && VisibleBefore(vis, k + 1))
        invariant forall k :: i - 1 <= k < len ==> separators[k] == before[k]
      {
        if sections[i].visible {
          if flag {
            separators[i - 1] := true;
          } else {
            separators[i - 1] := false;
          }
          flag := true;
        } else {
          separators[i - 1] := false;
        }
        assert flag == VisibleBefore(vis, i + 1) by {
          if VisibleBefore(vis, i + 1) && !vis[i] {
            var j :| 0 <= j < i + 1 && vis[j];
            assert j < i;
          }
        }
      }
      assert separators[..] == SeparatorsFor(vis, before);
    }

    /** Section k's on_section_open_state_changed(open). */
    method NotifySection(k: nat, open: bool)
      modifies this`log, this`heard
      ensures log == old(log) + [Notification(k, open)]
      ensures heard == old(heard) + [Heard(Notification(k, open), sections[..], separators[..], isOpen)]
    {
      log := log + [Notification(k, open)];
      heard := heard + [Heard(Notification(k, open), sections[..], separators[..], isOpen)];
    }

    /** Calls section k's on_section_open_state_changed(open) for every k in
        ks, in order. */
    method NotifySections(ks: seq<nat>, open: bool)
      modifies this`log, this`heard
      ensures log == old(log) + Notify(ks, open)
      ensures heard == old(heard) + Told(Notify(ks, open), sections[..], separators[..], isOpen)
    {
      for i := 0 to |ks|
        invariant log == old(log) + Notify(ks[..i], open)
        invariant heard == old(heard) + Told(Notify(ks[..i], open), sections[..], separators[..], isOpen)
        modifies this`log, this`heard
      {
        assert ks[..i + 1] == ks[..i] + [ks[i]];
        NotifyAppend(ks[..i], ks[i], open);
        ToldAppend(Notify(ks[..i], open), [Notification(ks[i], open)], sections[..], separators[..], isOpen);
        NotifySection(ks[i], open);
      }
      assert ks[..|ks|] == ks;
    }

    /** open_menu's pass with the unified icon shown: every enabled section
        whose content is hidden is shown, separate-menu ones included. */
    method ShowAllPass() returns (shown: seq<nat>)
      requires Valid()
      modifies sections
      ensures sections[..] == AfterOpen(old(sections[..]), ShowAll)
      ensures shown == IndicesOf(ShowMask(old(sections[..]), ShowAll))
    {
      ghost var s0 := sections[..];
      ghost var showMask := ShowMask(s0, ShowAll);
      shown := [];
      var len := sections.Length;
      for i := 0 to len
        invariant forall k :: 0 <= k < i ==> sections[k] == if showMask[k] then s0[k].(visible := true) else s0[k]
        invariant forall k :: i <= k < len ==> sections[k] == s0[k]
        invariant shown == IndicesBelow(showMask, i)
        modifies sections
      {
        shown := ShowIfHidden(i, shown);
      }
      AfterOpenFrom(s0, ShowAll, sections[..]);
    }

    /** One turn of the unified pass: an enabled hidden section is recorded
        and shown. */
    method ShowIfHidden(i: nat, shown0: seq<nat>) returns (shown: seq<nat>)
      requires i < sections.Length
      modifies sections
      ensures sections[i] == if Shows(old(sections[i]), i, ShowAll) then old(sections[i]).(visible := true) else old(sections[i])
      ensures forall k :: 0 <= k < sections.Length && k != i ==> sections[k] == old(sections[k])
      ensures shown == shown0 + if Shows(old(sections[i]), i, ShowAll) then [i] else []
    {
      shown := shown0;
      var section := sections[i];
      if section.enabled && !section.visible {
        shown := shown + [i];
        sections[i] := section.(visible := true);
      }
    }

    /** open_menu's pass for an enabled separate-menu trigger t: t is shown if
        it was hidden, then every other shown enabled section is hidden. */
    method ExclusivePass(t: nat) returns (shown: seq<nat>, hidden: seq<nat>)
      requires Valid() && t < SectionCount
      requires sections[t].enabled && sections[t].separateMenu
      modifies sections
      ensures sections[..] == AfterOpen(old(sections[..]), Exclusive(t))
      ensures shown == IndicesOf(ShowMask(old(sections[..]), Exclusive(t)))
      ensures hidden == IndicesOf(HideMask(old(sections[..]), Exclusive(t)))
    {
      ghost var s0 := sections[..];
      ghost var b := Exclusive(t);
      shown := [];
      if !sections[t].visible {
        shown := shown + [t];
        sections[t] := sections[t].(visible := true);
      }
      IndicesOfSingle(ShowMask(s0, b), t);
      ghost var s1 := sections[..];
      assert HideMask(s1, b) == HideMask(s0, b);
      hidden := HideOthers(t);
      AfterOpenFrom(s0, b, sections[..]);
    }

    /** The loop of the separate-menu pass: every enabled shown section other
        than the trigger (compared by name in the source) is hidden. */
    method HideOthers(name: nat) returns (hidden: seq<nat>)
      requires sections.Length == SectionCount
      modifies sections
      ensures forall k :: 0 <= k < SectionCount ==>
        sections[k] == if Hides(old(sections[k]), k, Exclusive(name)) then old(sections[k]).(visible := false) else old(sections[k])
      ensures hidden == IndicesOf(HideMask(old(sections[..]), Exclusive(name)))
    {
      ghost var s0 := sections[..];
      ghost var mask := HideMask(s0, Exclusive(name));
      hidden := [];
      var len := sections.Length;
      for i := 0 to len
        invariant forall k :: 0 <= k < i ==>
          sections[k] == if mask[k] then s0[k].(visible := false) else s0[k]
        invariant forall k :: i <= k < len ==> sections[k] == s0[k]
        invariant hidden == IndicesBelow(mask, i)
        modifies sections
      {
        hidden := HideIfOther(name, i, hidden);
      }
    }

    /** One turn of the separate-menu loop: an enabled shown section other
        than the trigger is recorded and hidden. */
    method HideIfOther(name: nat, i: nat, hidden0: seq<nat>) returns (hidden: seq<nat>)
      requires i < sections.Length
      modifies sections
      ensures sections[i] == if Hides(old(sections[i]), i, Exclusive(name)) then old(sections[i]).(visible := false) else old(sections[i])
      ensures forall k :: 0 <= k < sections.Length && k != i ==> sections[k] == old(sections[k])
      ensures hidden == hidden0 + if Hides(old(sections[i]), i, Exclusive(name)) then [i] else []
    {
      hidden := hidden0;
      var section := sections[i];
      if !(name == i || !section.enabled || !section.visible) {
        hidden := hidden + [i];
        sections[i] := section.(visible := false);
      }
    }

    /** open_menu's pass for an enabled non-separate trigger: every enabled
        separate-menu section that is shown is hidden, every enabled
        non-separate one that is hidden is shown. */
    method SharedPass() returns (shown: seq<nat>, hidden: seq<nat>)
      requires Valid()
      modifies sections
      ensures sections[..] == AfterOpen(old(sections[..]), Shared)
      ensures shown == IndicesOf(ShowMask(old(sections[..]), Shared))
      ensures hidden == IndicesOf(HideMask(old(sections[..]), Shared))
    {
      ghost var s0 := sections[..];
      ghost var showMask := ShowMask(s0, Shared);
      ghost var hideMask := HideMask(s0, Shared);
      shown, hidden := [], [];
      var len := sections.Length;
      for i := 0 to len
        invariant forall k :: 0 <= k < i ==>
          sections[k] == if showMask[k] then s0[k].(visible := true) else if hideMask[k] then s0[k].(visible := false) else s0[k]
        invariant forall k :: i <= k < len ==> sections[k] == s0[k]
        invariant shown == IndicesBelow(showMask, i)
        invariant hidden == IndicesBelow(hideMask, i)
        modifies sections
      {
        shown, hidden := ShareStep(i, shown, hidden);
      }
      AfterOpenFrom(s0, Shared, sections[..]);
    }

    /** One turn of the shared pass: a shown enabled separate-menu section is
        recorded and hidden, a hidden enabled non-separate one is recorded and
        shown. */
    method ShareStep(i: nat, shown0: seq<nat>, hidden0: seq<nat>) returns (shown: seq<nat>, hidden: seq<nat>)
      requires i < sections.Length
      modifies sections
      ensures sections[i] == OpenSection(old(sections[i]), i, Shared)
      ensures forall k :: 0 <= k < sections.Length && k != i ==> sections[k] == old(sections[k])
      ensures shown == shown0 + if Shows(old(sections[i]), i, Shared) then [i] else []
      ensures hidden == hidden0 + if Hides(old(sections[i]), i, Shared) then [i] else []
    {
      shown, hidden := shown0, hidden0;
      var section := sections[i];
      if section.enabled {
        if section.separateMenu {
          if section.visible {
            hidden := hidden + [i];
            sections[i] := section.(visible := false);
          }
        } else if !section.visible {
          shown := shown + [i];
          sections[i] := section.(visible := true);
        }
      }
    }

    /** The first half of open_menu: anchor the popup and run the pass the
        request calls for, collecting the sections shown and hidden. A
        disabled trigger while the unified icon is hidden is not served. */
    method VisibilityPass(trigger: Option<nat>, ghost b: Branch) returns (served: bool, shown: seq<nat>, hidden: seq<nat>)
      requires Valid() && CanOpen(SectionCount, uniconVisible, trigger)
      requires b == OpenBranch(sections[..], uniconVisible, trigger)
      modifies this`sourceAnchor, this`uniconChecked, sections
      ensures served == !b.Ignored?
      ensures served ==> Admissible(old(sections[..]), b)
      ensures served ==> View() == old(View()).(sections := AfterOpen(old(sections[..]), b),
        anchor := if b.ShowAll? then UniconIcon else SectionIcon(trigger.value),
        uniconChecked := old(uniconChecked) || b.ShowAll?)
      ensures served ==> shown == IndicesOf(ShowMask(old(sections[..]), b))
      ensures served ==> hidden == IndicesOf(HideMask(old(sections[..]), b))
      ensures !served ==> View() == old(View())
    {
      ghost var s0 := sections[..];
      OpenBranchAdmissible(s0, uniconVisible, trigger);
      shown, hidden := [], [];
      served := true;
      if uniconVisible {
        sourceAnchor := UniconIcon;
        uniconChecked := true;
        shown := ShowAllPass();
        IndicesOfNone(HideMask(s0, b));
      } else if !sections[trigger.value].enabled {
        served := false;
      } else if sections[trigger.value].separateMenu {
        sourceAnchor := SectionIcon(trigger.value);
        shown, hidden := ExclusivePass(trigger.value);
      } else {
        sourceAnchor := SectionIcon(trigger.value);
        shown, hidden := SharedPass();
      }
    }

    /** open_menu(trigger). With the unified icon shown every enabled hidden
        section is shown; otherwise a disabled trigger ends the call at once,
        and an enabled trigger runs the separate-menu or the shared pass
        (identity is the registry index). Then the separators are
        recomputed, the menu opens, and the shown sections, then the hidden
        ones, are told. */
    method OpenMenu(trigger: Option<nat>)
      requires Valid() && CanOpen(SectionCount, uniconVisible, trigger)
      modifies this`isOpen, this`log, this`heard, this`sourceAnchor, this`uniconChecked, sections, separators
      ensures Valid()
      ensures View() == Open(old(View()), trigger)
      // the notifications come after every visibility change, the separator
      // recomputation and the opening
      ensures old(log) <= log && heard == old(heard) + Told(log[|old(log)|..], sections[..], separators[..], true)
    {
      ghost var st := View();
      ghost var b := OpenBranch(sections[..], uniconVisible, trigger);
      var served, shown, hidden := VisibilityPass(trigger, b);
      if !served {
        return;
      }
      ghost var mid := View();
      ShowAndNotify(shown, hidden);
      OpenServed(st, trigger, b, mid, View());
    }

    /** The second half of open_menu: recompute the separators, open the
        menu, then tell the shown sections and then the hidden ones. */
    method ShowAndNotify(shown: seq<nat>, hidden: seq<nat>)
      requires Valid()
      modifies this`isOpen, this`log, this`heard, separators
      ensures View() == old(View()).(separators := SeparatorsFor(Visibility(sections[..]), old(separators[..])),
        isOpen := true, log := old(log) + Notify(shown, true) + Notify(hidden, false))
      // every notified section sees the final registry and separators and an open menu
      ensures old(log) <= log && heard == old(heard) + Told(log[|old(log)|..], sections[..], separators[..], true)
    {
      UpdateSeparators();
      isOpen := true;  // menu.open()
      NotifyOpened(shown, hidden);
    }

    /** The end of open_menu: the shown sections are told they open, then the
        hidden ones that they close. */
    method NotifyOpened(shown: seq<nat>, hidden: seq<nat>)
      modifies this`log, this`heard
      ensures log == old(log) + Notify(shown, true) + Notify(hidden, false)
      ensures heard == old(heard) + Told(log[|old(log)|..], sections[..], separators[..], isOpen)
    {
      NotifySections(shown, true);
      NotifySections(hidden, false);
      ToldAppend(Notify(shown, true), Notify(hidden, false), sections[..], separators[..], isOpen);
      assert log[|old(log)|..] == Notify(shown, true) + Notify(hidden, false);
    }

    /** The menu's 'open-state-changed' handler: an opening is ignored; a
        closing hides the context menu, unchecks the unified icon, and for
        every enabled section unchecks its icon, makes it focusable and, if
        its content is shown, tells it that it closes and hides it. */
    method OnOpenStateChanged(state: bool)
      requires Valid()
      modifies this`contextVisible, this`uniconChecked, this`log, this`heard, sections
      ensures Valid()
      ensures state ==> View() == old(View())
      ensures !state ==> View() == HandleClosed(old(View()))
      // each section told that it closes is still shown at that moment
      ensures old(heard) <= heard
      ensures forall j :: |old(heard)| <= j < |heard| ==> ToldWhileShown(heard[j])
    {
      if state {
        return;
      }
      ghost var s0 := sections[..];
      contextVisible := false;
      uniconChecked := false;
      CloseSections();
      AfterCloseFrom(s0, sections[..]);
      CloseNotificationsAre(s0);
    }

    /** The close handler's loop over the registry. */
    method CloseSections()
      requires sections.Length == SectionCount
      modifies this`log, this`heard, sections
      ensures forall k :: 0 <= k < SectionCount ==> sections[k] == ClosedSection(old(sections[k]))
      ensures log == old(log) + Notify(IndicesOf(CloseMask(old(sections[..]))), false)
      ensures old(heard) <= heard
      ensures forall j :: |old(heard)| <= j < |heard| ==> ToldWhileShown(heard[j])
    {
      ghost var s0 := sections[..];
      ghost var log0 := log;
      ghost var mask := CloseMask(s0);
      var len := sections.Length;
      for i := 0 to len
        invariant forall k :: 0 <= k < i ==> sections[k] == ClosedSection(s0[k])
        invariant forall k :: i <= k < len ==> sections[k] == s0[k]
        invariant log == log0 + Notify(IndicesBelow(mask, i), false)
        invariant old(heard) <= heard
        invariant forall j :: |old(heard)| <= j < |heard| ==> ToldWhileShown(heard[j])
        modifies this`log, this`heard, sections
      {
        NotifyAppend(IndicesBelow(mask, i), i, false);
        CloseSection(i);
      }
    }

    /** One turn of the close handler's loop: an enabled section is
        unchecked and made focusable, and if it is shown it is told that it
        closes and is hidden. */
    method CloseSection(i: nat)
      requires i < sections.Length
      modifies this`log, this`heard, sections
      ensures sections[i] == ClosedSection(old(sections[i]))
      ensures forall k :: 0 <= k < sections.Length && k != i ==> sections[k] == old(sections[k])
      ensures log == old(log) + if old(sections[i]).enabled && old(sections[i]).visible then [Notification(i, false)] else []
      // the section is told before it is hidden, after its icon is reset
      ensures heard == old(heard) + if old(sections[i]).enabled && old(sections[i]).visible
        then [Heard(Notification(i, false), old(sections[..])[i := old(sections[i]).(checked := false, canFocus := true)],
                    separators[..], isOpen)]
        else []
    {
      var section := sections[i];
      if section.enabled {
        sections[i] := section.(checked := false, canFocus := true);
        if section.visible {
          NotifySection(i, false);
          sections[i] := sections[i].(visible := false);
        }
      }
    }

    /** menu.close(): an open menu closes and emits 'open-state-changed'
        with false; a closed one is left alone. */
    method CloseMenu()
      requires Valid()
      modifies this`isOpen, this`contextVisible, this`uniconChecked, this`log, this`heard, sections
      ensures Valid()
      ensures View() == Close(old(View()))
    {
      if isOpen {
        isOpen := false;
        OnOpenStateChanged(false);
      }
    }

    /** toggle_menu(trigger): close an open menu, open a closed one. */
    method ToggleMenu(trigger: Option<nat>)
      requires Valid() && (isOpen || CanOpen(SectionCount, uniconVisible, trigger))
      modifies this, sections, separators
      ensures Valid()
      ensures View() == Controller.ToggleMenu(old(View()), trigger)
      ensures panelItemPosition == old(panelItemPosition)
    {
      if isOpen {
        CloseMenu();
      } else {
        OpenMenu(trigger);
      }
    }

    /** toggle_context_menu(trigger). */
    method ToggleContextMenu(trigger: Option<nat>)
      requires Valid()
      modifies this`isOpen, this`contextVisible, this`uniconChecked, this`log, this`heard, this`sourceAnchor, sections, separators
      ensures Valid()
      ensures View() == Controller.ToggleContextMenu(old(View()), trigger)
    {
      if isOpen {
        CloseMenu();
        return;
      }
      contextVisible := true;
      CheckShownIcons();
      if trigger.Some? {
        sourceAnchor := SectionIcon(trigger.value);
      } else {
        sourceAnchor := UniconIcon;
      }
      UpdateSeparators();
      isOpen := true;  // menu.open(false)
    }

    /** toggle_context_menu's loop: every section whose panel icon is shown
        is styled 'checked' and stops taking focus. */
    method CheckShownIcons()
      requires sections.Length == SectionCount
      modifies sections
      ensures sections[..] == AfterContextOpen(old(sections[..]))
    {
      ghost var s0 := sections[..];
      var len := sections.Length;
      for i := 0 to len
        invariant forall k :: 0 <= k < i ==>
          sections[k] == if s0[k].iconVisible then s0[k].(checked := true, canFocus := false) else s0[k]
        invariant forall k :: i <= k < len ==> sections[k] == s0[k]
        modifies sections
      {
        var section := sections[i];
        if section.iconVisible {
          sections[i] := section.(checked := true, canFocus := false);
        }
      }
      assert sections[..] == AfterContextOpen(s0);
    }

    /** _toggle_unicon_mode, given the unicon-mode setting. */
    method ToggleUniconMode(uniconMode: bool)
      requires Valid()
      modifies this, sections
      ensures Valid()
      ensures View() == SetUniconMode(old(View()), uniconMode)
      ensures panelItemPosition == old(panelItemPosition)
    {
      ghost var s0 := sections[..];
      ghost var s1 := WithUniconMode(s0, uniconMode);
      var len := sections.Length;
      if uniconMode {
        uniconVisible := true;
        for i := 0 to len
          invariant forall k :: 0 <= k < i ==> sections[k] == s1[k]
          invariant forall k :: i <= k < len ==> sections[k] == s0[k]
          modifies sections
        {
          sections[i] := sections[i].(iconVisible := false);
        }
      } else {
        uniconVisible := false;
        for i := 0 to len
          invariant forall k :: 0 <= k < i ==> sections[k] == s1[k]
          invariant forall k :: i <= k < len ==> sections[k] == s0[k]
          modifies sections
        {
          var section := sections[i];
          if section.enabled {
            sections[i] := sections[i].(iconVisible := true);
          }
        }
      }
      assert sections[..] == s1;
    }

    /** The unified icon's 'key-focus-in' handler. */
    method OnUniconFocusIn()
      requires Valid() && (uniconVisible || (isOpen && contextVisible))
      modifies this, sections, separators
      ensures Valid()
      ensures View() == FocusIn(old(View()))
      ensures panelItemPosition == old(panelItemPosition)
    {
      // the user has right-clicked to show the context menu
      if isOpen && contextVisible {
        return;
      }
      OpenMenu(None);
    }

    /** _on_panel_position_changed(oldPos, newPos): take the container out of
        the old position's box, then append it to the left or center box, or
        insert it at index 0 of the right box. */
    method OnPanelPositionChanged(panel: Panel, oldPos: PanelPosition, newPos: PanelPosition)
      modifies panel
      ensures panel.boxes == MoveContainer(old(panel.boxes), container, oldPos, newPos)
    {
      var ref := container;
      ghost var b0 := panel.boxes;
      panel.RemoveChild(oldPos, ref);
      ghost var removed := panel.boxes;
      if newPos == Right {
        panel.InsertChildAtIndex(Right, ref, 0);
        InsertAtFront(removed.Get(Right), ref);
      } else {
        panel.AddChild(newPos, ref);
      }
      MoveContainerSteps(b0, ref, oldPos, newPos, removed, panel.boxes);
    }

    /** The 'changed::panel-item-position' handler: move from the remembered
        position to the new setting and remember it. */
    method OnPanelPositionSetting(panel: Panel, newPos: PanelPosition)
      modifies this, panel
      ensures panel.boxes == MoveContainer(old(panel.boxes), container, old(panelItemPosition), newPos)
      ensures panelItemPosition == newPos
      ensures isOpen == old(isOpen) && contextVisible == old(contextVisible)
      ensures uniconVisible == old(uniconVisible) && uniconChecked == old(uniconChecked)
      ensures sourceAnchor == old(sourceAnchor) && log == old(log)
    {
      OnPanelPositionChanged(panel, panelItemPosition, newPos);
      panelItemPosition := newPos;
    }
  }
}
