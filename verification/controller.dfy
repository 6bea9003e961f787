/** The Timepp panel button as a state machine over values: every handler of
    the controller is a function from the state before to the state after.
    The class in extension.dfy is proved to follow these functions. */
module Controller {
  import opened Sections
  import opened Separators
  import opened Composition

  /** The actor the popup is anchored to (menu.sourceActor). */
  datatype Anchor = ButtonActor | UniconIcon | SectionIcon(section: nat)

  /** Everything the controller reads or writes, apart from the panel boxes. */
  datatype State = State(
    sections: seq<Section>,     // section_register
    separators: seq<bool>,      // separator_register: shown or hidden
    isOpen: bool,               // menu.isOpen
    contextVisible: bool,       // context_menu.actor.visible
    uniconVisible: bool,        // unicon_panel_item.actor.visible
    uniconChecked: bool,        // 'checked' pseudo class on the unified icon
    anchor: Anchor,             // menu.sourceActor
    log: seq<Notification>)     // on_section_open_state_changed calls so far

  ghost predicate ValidState(st: State) {
    && |st.sections| == SectionCount
    && |st.separators| == SectionCount
    && VisibleImpliesEnabled(st.sections)
  }

  /** While the popup is closed, neither section content nor the context
      menu is shown. */
  ghost predicate ClosedIsBlank(st: State) {
    !st.isOpen ==> !st.contextVisible && forall k :: 0 <= k < |st.sections| ==> !st.sections[k].visible
  }

  /** While the popup is closed, the unified icon is unchecked and every
      enabled section's icon is unchecked and takes focus. */
  ghost predicate ClosedIsReset(st: State) {
    !st.isOpen ==>
      && !st.uniconChecked
      && forall k :: 0 <= k < |st.sections| && st.sections[k].enabled ==>
           !st.sections[k].checked && st.sections[k].canFocus
  }

  function StartupSection(sec: Section, uniconMode: bool): Section {
    sec.(visible := false, iconVisible := if !sec.enabled || uniconMode then false else sec.iconVisible)
  }

  /** The state _init leaves: every section hidden and registered, one
      separator per section (the test i !== len never fails), each separator
      shown as a new actor is, section icons hidden for disabled sections and
      in unicon mode, the unified icon shown only in unicon mode. */
  function Startup(init: seq<Section>, uniconMode: bool): (st: State)
    requires |init| == SectionCount
    ensures ValidState(st) && ClosedIsBlank(st)
    ensures !st.isOpen && st.log == [] && st.uniconVisible == uniconMode && !st.uniconChecked
    ensures forall k :: 0 <= k < SectionCount ==> st.separators[k]
    ensures forall k :: 0 <= k < SectionCount ==>
      st.sections[k].iconVisible == (init[k].iconVisible && init[k].enabled && !uniconMode)
    ensures forall k :: 0 <= k < SectionCount ==>
      st.sections[k] == init[k].(visible := false, iconVisible := st.sections[k].iconVisible)
  {
    State(
      seq(|init|, k requires 0 <= k < |init| => StartupSection(init[k], uniconMode)),
      seq(|init|, _ => true),
      false, false, uniconMode, false, ButtonActor, [])
  }

  /** open_menu(trigger). Nothing happens for a disabled trigger while the
      unified icon is hidden; otherwise the visibility pass runs, the
      separators are recomputed, the menu opens, and only then are the shown
      and then the hidden sections notified. */
  function Open(st: State, trigger: Option<nat>): (r: State)
    requires ValidState(st) && CanOpen(SectionCount, st.uniconVisible, trigger)
    ensures ValidState(r)
    ensures OpenBranch(st.sections, st.uniconVisible, trigger).Ignored? ==> r == st
    ensures !OpenBranch(st.sections, st.uniconVisible, trigger).Ignored? ==>
      r.isOpen && r.anchor == (if st.uniconVisible then UniconIcon else SectionIcon(trigger.value))
    ensures st.uniconVisible ==> r.uniconChecked
    // the popup's other parts and every icon are left as they were
    ensures r.contextVisible == st.contextVisible && r.uniconVisible == st.uniconVisible
    ensures forall k :: 0 <= k < SectionCount ==>
      r.sections[k].iconVisible == st.sections[k].iconVisible &&
      r.sections[k].checked == st.sections[k].checked &&
      r.sections[k].canFocus == st.sections[k].canFocus
    // the trailing separator is never touched
    ensures r.separators[SectionCount - 1] == st.separators[SectionCount - 1]
    // notifications only append
    ensures st.log <= r.log
  {
    var b := OpenBranch(st.sections, st.uniconVisible, trigger);
    OpenBranchAdmissible(st.sections, st.uniconVisible, trigger);
    AfterOpenEffect(st.sections, b);
    if b.Ignored? then st
    else
      var s := AfterOpen(st.sections, b);
      st.(sections := s,
          separators := SeparatorsFor(Visibility(s), st.separators),
          isOpen := true,
          anchor := if b.ShowAll? then UniconIcon else SectionIcon(trigger.value),
          uniconChecked := st.uniconChecked || b.ShowAll?,
          log := st.log + OpenNotifications(st.sections, b))
  }

  /** Open for a request that is not ignored, in two steps: mid is the
      state after the visibility pass and the anchoring, fin the state after
      the separators, the opening and the notifications. */
  lemma OpenServed(st: State, trigger: Option<nat>, b: Branch, mid: State, fin: State)
    requires ValidState(st) && CanOpen(SectionCount, st.uniconVisible, trigger)
    requires b == OpenBranch(st.sections, st.uniconVisible, trigger) && !b.Ignored?
    requires Admissible(st.sections, b)
    requires mid == st.(sections := AfterOpen(st.sections, b),
      anchor := if b.ShowAll? then UniconIcon else SectionIcon(trigger.value),
      uniconChecked := st.uniconChecked || b.ShowAll?)
    requires fin == mid.(separators := SeparatorsFor(Visibility(mid.sections), mid.separators), isOpen := true,
      log := mid.log + Notify(IndicesOf(ShowMask(st.sections, b)), true)
                     + Notify(IndicesOf(HideMask(st.sections, b)), false))
    ensures Open(st, trigger) == fin
  {
  }

  /** The 'open-state-changed' handler for a close: the context menu is
      hidden, the unified icon unchecked, and every enabled section unchecked,
      focusable and hidden, each shown one being told it closes. */
  function HandleClosed(st: State): (r: State)
    requires ValidState(st)
    ensures ValidState(r)
    ensures !r.contextVisible && !r.uniconChecked
    ensures forall k :: 0 <= k < SectionCount ==> !r.sections[k].visible
    ensures forall k :: 0 <= k < SectionCount && st.sections[k].enabled ==>
      !r.sections[k].checked && r.sections[k].canFocus
    ensures forall k :: 0 <= k < SectionCount && !st.sections[k].enabled ==> r.sections[k] == st.sections[k]
    ensures r.isOpen == st.isOpen && r.separators == st.separators && r.anchor == st.anchor
    ensures r.uniconVisible == st.uniconVisible
    ensures r.log == st.log + CloseNotifications(st.sections)
  {
    st.(contextVisible := false,
        uniconChecked := false,
        sections := AfterClose(st.sections),
        log := st.log + CloseNotifications(st.sections))
  }

  /** menu.close(): a closed menu stays as it is; an open one closes and
      runs the close handler. */
  function Close(st: State): (r: State)
    requires ValidState(st)
    ensures ValidState(r) && !r.isOpen
    ensures st.isOpen ==> ClosedIsBlank(r)
    ensures st.isOpen ==> r == HandleClosed(st.(isOpen := false))
    ensures !st.isOpen ==> r == st
  {
    if st.isOpen then HandleClosed(st.(isOpen := false)) else st
  }

  /** toggle_menu(trigger). */
  function ToggleMenu(st: State, trigger: Option<nat>): (r: State)
    requires ValidState(st) && (st.isOpen || CanOpen(SectionCount, st.uniconVisible, trigger))
    ensures ValidState(r)
    ensures st.isOpen ==> r == Close(st) && !r.isOpen
    ensures !st.isOpen ==> r == Open(st, trigger)
  {
    if st.isOpen then Close(st) else Open(st, trigger)
  }

  /** toggle_context_menu(trigger): closes an open menu; otherwise shows the
      context menu, checks and unfocuses every shown section icon, anchors
      the popup, recomputes separators and opens without notifying anyone. */
  function ToggleContextMenu(st: State, trigger: Option<nat>): (r: State)
    requires ValidState(st)
    ensures ValidState(r)
    ensures st.isOpen ==> r == Close(st) && !r.isOpen
    ensures !st.isOpen ==> r.isOpen && r.contextVisible && r.log == st.log
    ensures !st.isOpen ==> Visibility(r.sections) == Visibility(st.sections)
    ensures !st.isOpen ==> forall k :: 0 <= k < SectionCount ==>
      (st.sections[k].iconVisible ==> r.sections[k].checked && !r.sections[k].canFocus) &&
      (!st.sections[k].iconVisible ==> r.sections[k] == st.sections[k])
    ensures !st.isOpen ==> r.anchor == (if trigger.Some? then SectionIcon(trigger.value) else UniconIcon)
  {
    if st.isOpen then Close(st)
    else
      var s := AfterContextOpen(st.sections);
      st.(contextVisible := true,
          sections := s,
          anchor := if trigger.Some? then SectionIcon(trigger.value) else UniconIcon,
          separators := SeparatorsFor(Visibility(s), st.separators),
          isOpen := true)
  }

  /** _toggle_unicon_mode, reading the unicon-mode setting. */
  function SetUniconMode(st: State, unicon: bool): (r: State)
    requires ValidState(st)
    ensures ValidState(r)
    ensures r.uniconVisible == unicon
    ensures r.sections == WithUniconMode(st.sections, unicon)
    ensures Visibility(r.sections) == Visibility(st.sections)
    ensures r == st.(uniconVisible := unicon, sections := r.sections)
    ensures unicon ==> forall k :: 0 <= k < SectionCount ==> !r.sections[k].iconVisible
    ensures !unicon ==> forall k :: 0 <= k < SectionCount && st.sections[k].enabled ==> r.sections[k].iconVisible
  {
    st.(uniconVisible := unicon, sections := WithUniconMode(st.sections, unicon))
  }

  /** The unified icon's 'key-focus-in' handler: ignored while the context
      menu is up, otherwise open_menu(), which needs the unified icon shown
      since no section is named. */
  function FocusIn(st: State): (r: State)
    requires ValidState(st) && (st.uniconVisible || (st.isOpen && st.contextVisible))
    ensures ValidState(r)
    ensures st.isOpen && st.contextVisible ==> r == st
    ensures !(st.isOpen && st.contextVisible) ==> r == Open(st, None)
  {
    if st.isOpen && st.contextVisible then st else Open(st, None)
  }

  /** Switching to the same mode twice is switching once. */
  lemma SetUniconModeIdempotent(st: State, unicon: bool)
    requires ValidState(st)
    ensures SetUniconMode(SetUniconMode(st, unicon), unicon) == SetUniconMode(st, unicon)
  {
    UniconModeIdempotent(st.sections, unicon);
  }

  /** Toggling an open menu, by either click, only closes it. */
  lemma TogglesOnOpenMenuOnlyClose(st: State, trigger: Option<nat>)
    requires ValidState(st) && st.isOpen
    ensures ToggleMenu(st, trigger) == ToggleContextMenu(st, trigger) == Close(st)
    ensures !Close(st).isOpen
    ensures Close(st).sections == AfterClose(st.sections)
  {
  }

  /** The events the controller reacts to. */
  datatype Event =
    | MenuToggled(trigger: Option<nat>)          // left click: unified icon (None) or a section's icon
    | ContextToggled(trigger: Option<nat>)       // right click
    | UniconFocused                              // the unified icon takes key focus
    | UniconModeChanged(unicon: bool)            // the unicon-mode setting changes
    | MenuClosed                                 // the popup is closed by any other means

  /** One event; None when the source would fail (a toggle that reaches
      open_menu without a trigger while the unified icon is hidden), or
      when the event cannot be delivered (a trigger outside the registry,
      focus on a hidden icon). */
  function Step(st: State, e: Event): (r: Option<State>)
    requires ValidState(st)
    ensures r.Some? ==> ValidState(r.value)
  {
    match e
    case MenuToggled(t) =>
      if t.Some? && t.value >= SectionCount then None
      else if st.isOpen || CanOpen(SectionCount, st.uniconVisible, t) then Some(ToggleMenu(st, t))
      else None
    case ContextToggled(t) =>
      if t.Some? && t.value >= SectionCount then None else Some(ToggleContextMenu(st, t))
    case UniconFocused =>
      if st.uniconVisible then Some(FocusIn(st)) else None
    case UniconModeChanged(u) => Some(SetUniconMode(st, u))
    case MenuClosed => Some(Close(st))
  }

  /** Every step keeps a closed popup blank. */
  lemma StepKeepsClosedBlank(st: State, e: Event)
    requires ValidState(st) && ClosedIsBlank(st)
    ensures Step(st, e).Some? ==> ClosedIsBlank(Step(st, e).value)
  {
    match e
    case MenuToggled(t) =>
    case ContextToggled(t) =>
    case UniconFocused =>
    case UniconModeChanged(u) =>
      var r := SetUniconMode(st, u);
      if !r.isOpen {
        forall k | 0 <= k < |r.sections| ensures !r.sections[k].visible {
          assert Visibility(r.sections)[k] == Visibility(st.sections)[k];
        }
      }
    case MenuClosed =>
  }

  /** A run of events; None once one of them fails. */
  function Run(st: State, es: seq<Event>): (r: Option<State>)
    requires ValidState(st)
    ensures r.Some? ==> ValidState(r.value)
    decreases |es|
  {
    if es == [] then Some(st)
    else match Step(st, es[0])
      case None => None
      case Some(st') => Run(st', es[1..])
  }

  /** No event writes the trailing separator. */
  lemma StepKeepsTrailingSeparator(st: State, e: Event)
    requires ValidState(st)
    ensures Step(st, e).Some? ==> Step(st, e).value.separators[SectionCount - 1] == st.separators[SectionCount - 1]
  {
  }

  lemma {:induction false} RunKeepsTrailingSeparator(st: State, es: seq<Event>)
    requires ValidState(st)
    ensures Run(st, es).Some? ==> Run(st, es).value.separators[SectionCount - 1] == st.separators[SectionCount - 1]
    decreases |es|
  {
    if es != [] {
      StepKeepsTrailingSeparator(st, es[0]);
      if Step(st, es[0]).Some? {
        RunKeepsTrailingSeparator(Step(st, es[0]).value, es[1..]);
      }
    }
  }

  /** The separator below the last section is shown at start-up and never
      recomputed, so after any run of events the popup ends with a shown
      separator, whichever sections are shown above it. */
  lemma TrailingSeparatorAlwaysShown(init: seq<Section>, uniconMode: bool, es: seq<Event>)
    requires |init| == SectionCount
    requires Run(Startup(init, uniconMode), es).Some?
    ensures Run(Startup(init, uniconMode), es).value.separators[SectionCount - 1]
  {
    RunKeepsTrailingSeparator(Startup(init, uniconMode), es);
  }

  /** A disabled section's icon is hidden, unchecked and focusable. */
  ghost predicate DisabledQuiet(st: State) {
    forall k :: 0 <= k < |st.sections| && !st.sections[k].enabled ==>
      !st.sections[k].iconVisible && !st.sections[k].checked && st.sections[k].canFocus
  }

  lemma OpenKeepsDisabledQuiet(st: State, t: Option<nat>)
    requires ValidState(st) && DisabledQuiet(st) && CanOpen(SectionCount, st.uniconVisible, t)
    ensures DisabledQuiet(Open(st, t))
  {
    var r := Open(st, t);
    forall k | 0 <= k < |r.sections| && !r.sections[k].enabled
      ensures !r.sections[k].iconVisible && !r.sections[k].checked && r.sections[k].canFocus
    {
      assert !st.sections[k].enabled;
    }
  }

  lemma CloseKeepsDisabledQuiet(st: State)
    requires ValidState(st) && DisabledQuiet(st)
    ensures DisabledQuiet(Close(st))
  {
  }

  lemma ContextKeepsDisabledQuiet(st: State, t: Option<nat>)
    requires ValidState(st) && DisabledQuiet(st)
    ensures DisabledQuiet(ToggleContextMenu(st, t))
  {
    if !st.isOpen {
      var r := ToggleContextMenu(st, t);
      forall k | 0 <= k < |r.sections| && !r.sections[k].enabled
        ensures !r.sections[k].iconVisible && !r.sections[k].checked && r.sections[k].canFocus
      {
        assert r.sections[k] == st.sections[k];
      }
    }
  }

  lemma UniconModeKeepsDisabledQuiet(st: State, u: bool)
    requires ValidState(st) && DisabledQuiet(st)
    ensures DisabledQuiet(SetUniconMode(st, u))
  {
    var r := SetUniconMode(st, u);
    forall k | 0 <= k < |r.sections| && !r.sections[k].enabled
      ensures !r.sections[k].iconVisible && !r.sections[k].checked && r.sections[k].canFocus
    {
      assert r.sections[k] == st.sections[k].(iconVisible := r.sections[k].iconVisible);
    }
  }

  /** No event touches a disabled section's icon. */
  lemma StepKeepsDisabledQuiet(st: State, e: Event)
    requires ValidState(st) && DisabledQuiet(st)
    ensures Step(st, e).Some? ==> DisabledQuiet(Step(st, e).value)
  {
    match e
    case MenuToggled(t) =>
      if Step(st, e).Some? {
        if st.isOpen { CloseKeepsDisabledQuiet(st); } else { OpenKeepsDisabledQuiet(st, t); }
      }
    case ContextToggled(t) =>
      ContextKeepsDisabledQuiet(st, t);
    case UniconFocused =>
      if Step(st, e).Some? && !(st.isOpen && st.contextVisible) {
        OpenKeepsDisabledQuiet(st, None);
      }
    case UniconModeChanged(u) =>
      UniconModeKeepsDisabledQuiet(st, u);
    case MenuClosed =>
      CloseKeepsDisabledQuiet(st);
  }

  lemma {:induction false} RunKeepsDisabledQuiet(st: State, es: seq<Event>)
    requires ValidState(st) && DisabledQuiet(st)
    ensures Run(st, es).Some? ==> DisabledQuiet(Run(st, es).value)
    decreases |es|
  {
    if es != [] {
      StepKeepsDisabledQuiet(st, es[0]);
      if Step(st, es[0]).Some? {
        RunKeepsDisabledQuiet(Step(st, es[0]).value, es[1..]);
      }
    }
  }

  /** Start-up leaves the icons reset when the section records it is
      given have unchecked, focusable icons. */
  lemma StartupIsReset(init: seq<Section>, uniconMode: bool)
    requires |init| == SectionCount
    requires forall k :: 0 <= k < SectionCount ==> !init[k].checked && init[k].canFocus
    ensures ClosedIsReset(Startup(init, uniconMode))
    ensures DisabledQuiet(Startup(init, uniconMode))
  {
    var st := Startup(init, uniconMode);
    forall k | 0 <= k < |st.sections|
      ensures !st.sections[k].checked && st.sections[k].canFocus
      ensures !st.sections[k].enabled ==> !st.sections[k].iconVisible
    {
      assert st.sections[k] == StartupSection(init[k], uniconMode);
    }
  }

  /** Every step keeps the icons of a closed popup reset. */
  lemma StepKeepsClosedReset(st: State, e: Event)
    requires ValidState(st) && ClosedIsReset(st)
    ensures Step(st, e).Some? ==> ClosedIsReset(Step(st, e).value)
  {
  }

  /** Whatever sequence of clicks, focus changes and mode switches happened
      since start-up, closing the popup afterwards leaves it blank: no
      section content or context menu shown. When the icons were reset at
      the start, closing also leaves the unified icon unchecked and every
      enabled section's icon unchecked and focusable. */
  lemma {:induction false} CloseAfterAnyRun(st: State, es: seq<Event>)
    requires ValidState(st) && ClosedIsBlank(st)
    requires Run(st, es).Some?
    ensures ClosedIsBlank(Run(st, es).value)
    ensures var c := Close(Run(st, es).value);
      !c.isOpen && !c.contextVisible &&
      (forall k :: 0 <= k < SectionCount ==> !c.sections[k].visible)
    ensures ClosedIsReset(st) ==> ClosedIsReset(Run(st, es).value)
    ensures ClosedIsReset(st) ==> var c := Close(Run(st, es).value);
      !c.uniconChecked &&
      (forall k :: 0 <= k < SectionCount && c.sections[k].enabled ==> !c.sections[k].checked && c.sections[k].canFocus)
    decreases |es|
  {
    if es != [] {
      StepKeepsClosedBlank(st, es[0]);
      if ClosedIsReset(st) {
        StepKeepsClosedReset(st, es[0]);
      }
      CloseAfterAnyRun(Step(st, es[0]).value, es[1..]);
    }
  }

  /** From start-up with unchecked, focusable icons, closing after any run
      of events restores the closed baseline: nothing shown, no context
      menu, the unified icon unchecked, every section icon unchecked and
      focusable. */
  lemma CloseAfterRunFromStartup(init: seq<Section>, uniconMode: bool, es: seq<Event>)
    requires |init| == SectionCount
    requires forall k :: 0 <= k < SectionCount ==> !init[k].checked && init[k].canFocus
    requires Run(Startup(init, uniconMode), es).Some?
    ensures var c := Close(Run(Startup(init, uniconMode), es).value);
      && !c.isOpen && !c.contextVisible && !c.uniconChecked
      && (forall k :: 0 <= k < SectionCount ==> !c.sections[k].visible)
      && (forall k :: 0 <= k < SectionCount ==> !c.sections[k].checked && c.sections[k].canFocus)
  {
    var st := Startup(init, uniconMode);
    StartupIsReset(init, uniconMode);
    CloseAfterAnyRun(st, es);
    RunKeepsDisabledQuiet(st, es);
  }
}
