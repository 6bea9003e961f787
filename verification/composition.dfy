/** What each controller pass does to the section records, as functions of
    the records before the pass: opening the menu (three ways), the close
    handler, opening the context menu and switching the icon mode. The
    class in extension.dfy runs these passes as loops over its registry and
    is proved to produce exactly these results. */
module Composition {
  import opened Sections

  /** The way open_menu treats a request. */
  datatype Branch =
    | ShowAll               // the unified icon is shown: every enabled section
    | Ignored               // per-section icons, the trigger is disabled: nothing
    | Exclusive(trigger: nat)  // a separate-menu trigger: that section alone
    | Shared                // a non-separate trigger: all non-separate sections

  /** The request can be served: either the unified icon is shown, or a
      trigger section of the registry is given (the source dereferences the
      trigger without a check when the unified icon is hidden). */
  predicate CanOpen(count: nat, uniconVisible: bool, trigger: Option<nat>) {
    uniconVisible || (trigger.Some? && trigger.value < count)
  }

  function OpenBranch(s: seq<Section>, uniconVisible: bool, trigger: Option<nat>): (b: Branch)
    requires CanOpen(|s|, uniconVisible, trigger)
    ensures b.ShowAll? <==> uniconVisible
    ensures b.Ignored? <==> !uniconVisible && !s[trigger.value].enabled
    ensures b.Exclusive? <==> !uniconVisible && s[trigger.value].enabled && s[trigger.value].separateMenu
    ensures b.Exclusive? ==> b.trigger == trigger.value
  {
    if uniconVisible then ShowAll
    else if !s[trigger.value].enabled then Ignored
    else if s[trigger.value].separateMenu then Exclusive(trigger.value)
    else Shared
  }

  /** An exclusive request names an enabled separate-menu section. */
  predicate Admissible(s: seq<Section>, b: Branch) {
    b.Exclusive? ==> b.trigger < |s| && s[b.trigger].enabled && s[b.trigger].separateMenu
  }

  lemma OpenBranchAdmissible(s: seq<Section>, uniconVisible: bool, trigger: Option<nat>)
    requires CanOpen(|s|, uniconVisible, trigger)
    ensures Admissible(s, OpenBranch(s, uniconVisible, trigger))
  {
  }

  /** Section k (record sec) is hidden now and is shown by the pass. */
  predicate Shows(sec: Section, k: nat, b: Branch) {
    match b
    case ShowAll => sec.enabled && !sec.visible
    case Ignored => false
    case Exclusive(t) => k == t && !sec.visible
    case Shared => sec.enabled && !sec.separateMenu && !sec.visible
  }

  /** Section k (record sec) is shown now and is hidden by the pass. */
  predicate Hides(sec: Section, k: nat, b: Branch) {
    match b
    case ShowAll => false
    case Ignored => false
    case Exclusive(t) => k != t && sec.enabled && sec.visible
    case Shared => sec.enabled && sec.separateMenu && sec.visible
  }

  function ShowMask(s: seq<Section>, b: Branch): (m: seq<bool>)
    ensures |m| == |s|
    ensures forall k :: 0 <= k < |s| ==> m[k] == Shows(s[k], k, b)
  {
    seq(|s|, k requires 0 <= k < |s| => Shows(s[k], k, b))
  }

  function HideMask(s: seq<Section>, b: Branch): (m: seq<bool>)
    ensures |m| == |s|
    ensures forall k :: 0 <= k < |s| ==> m[k] == Hides(s[k], k, b)
  {
    seq(|s|, k requires 0 <= k < |s| => Hides(s[k], k, b))
  }

  function OpenSection(sec: Section, k: nat, b: Branch): Section {
    if Shows(sec, k, b) then sec.(visible := true)
    else if Hides(sec, k, b) then sec.(visible := false)
    else sec
  }

  /** The registry after open_menu's visibility pass. */
  function AfterOpen(s: seq<Section>, b: Branch): (r: seq<Section>)
    requires Admissible(s, b)
    ensures |r| == |s|
  {
    seq(|s|, k requires 0 <= k < |s| => OpenSection(s[k], k, b))
  }

  /** What the visibility pass does, branch by branch. */
  lemma AfterOpenEffect(s: seq<Section>, b: Branch)
    requires Admissible(s, b)
    // only content visibility changes
    ensures forall k :: 0 <= k < |s| ==> AfterOpen(s, b)[k] == s[k].(visible := AfterOpen(s, b)[k].visible)
    // disabled sections are left alone
    ensures forall k :: 0 <= k < |s| && !s[k].enabled ==> AfterOpen(s, b)[k] == s[k]
    // unified icon: every enabled section is shown, separate-menu ones too, none is hidden
    ensures b.ShowAll? ==> forall k :: 0 <= k < |s| ==> (AfterOpen(s, b)[k].visible <==> s[k].enabled || s[k].visible)
    // separate-menu trigger: it is the only enabled section left shown
    ensures b.Exclusive? ==> forall k :: 0 <= k < |s| && s[k].enabled ==> (AfterOpen(s, b)[k].visible <==> k == b.trigger)
    // non-separate trigger: exactly the enabled non-separate sections are shown
    ensures b.Shared? ==> forall k :: 0 <= k < |s| && s[k].enabled ==> (AfterOpen(s, b)[k].visible <==> !s[k].separateMenu)
    ensures b.Ignored? ==> AfterOpen(s, b) == s
    ensures VisibleImpliesEnabled(s) ==> VisibleImpliesEnabled(AfterOpen(s, b))
  {
  }

  /** A registry that agrees with the pass section by section is the
      registry after the pass. */
  lemma AfterOpenFrom(s: seq<Section>, b: Branch, r: seq<Section>)
    requires Admissible(s, b) && |r| == |s|
    requires forall k :: 0 <= k < |s| ==> r[k] == OpenSection(s[k], k, b)
    ensures r == AfterOpen(s, b)
  {
  }

  /** The notifications open_menu sends: true to every section it showed, in
      registry order, then false to every section it hid, in registry order. */
  function OpenNotifications(s: seq<Section>, b: Branch): (log: seq<Notification>)
    requires Admissible(s, b)
    ensures |log| <= 2 * |s|
  {
    Notify(IndicesOf(ShowMask(s, b)), true) + Notify(IndicesOf(HideMask(s, b)), false)
  }

  /** The order of open_menu's notifications. */
  lemma OpenNotificationsOrder(s: seq<Section>, b: Branch)
    requires Admissible(s, b)
    ensures var log := OpenNotifications(s, b);
      && (forall p :: 0 <= p < |log| ==> log[p].section < |s|)
      // every 'true' precedes every 'false'
      && (forall p, q :: 0 <= p < q < |log| && log[q].open ==> log[p].open)
      // within each kind, registry order, so no section is told twice
      && (forall p, q :: 0 <= p < q < |log| && log[p].open == log[q].open ==> log[p].section < log[q].section)
  {
    IndicesOfMembers(ShowMask(s, b));
    IndicesOfMembers(HideMask(s, b));
  }

  /** Who open_menu tells: a section is told it opens exactly when the pass
      showed it, and told it closes exactly when the pass hid it. */
  lemma OpenNotificationsAddressees(s: seq<Section>, b: Branch)
    requires Admissible(s, b)
    ensures forall k :: 0 <= k < |s| ==>
      (Notification(k, true) in OpenNotifications(s, b) <==> !s[k].visible && AfterOpen(s, b)[k].visible)
    ensures forall k :: 0 <= k < |s| ==>
      (Notification(k, false) in OpenNotifications(s, b) <==> s[k].visible && !AfterOpen(s, b)[k].visible)
  {
    var shown := IndicesOf(ShowMask(s, b));
    var hidden := IndicesOf(HideMask(s, b));
    IndicesOfMembers(ShowMask(s, b));
    IndicesOfMembers(HideMask(s, b));
    forall k | 0 <= k < |s|
      ensures Notification(k, true) in OpenNotifications(s, b) <==> k in shown
      ensures Notification(k, false) in OpenNotifications(s, b) <==> k in hidden
    {
      NotifyMembers(shown, true, k);
      NotifyMembers(hidden, false, k);
    }
  }

  /** What the close handler does to one section record. */
  function ClosedSection(sec: Section): Section {
    if sec.enabled then sec.(visible := false, checked := false, canFocus := true) else sec
  }

  /** The registry after the close handler: every enabled section loses its
      'checked' style, becomes focusable again and is hidden. */
  function AfterClose(s: seq<Section>): (r: seq<Section>)
    ensures |r| == |s|
    ensures forall k :: 0 <= k < |s| && !s[k].enabled ==> r[k] == s[k]
    ensures forall k :: 0 <= k < |s| && s[k].enabled ==>
      r[k] == s[k].(visible := false, checked := false, canFocus := true)
    ensures VisibleImpliesEnabled(s) ==> forall k :: 0 <= k < |s| ==> !r[k].visible
  {
    seq(|s|, k requires 0 <= k < |s| => ClosedSection(s[k]))
  }

  lemma AfterCloseFrom(s: seq<Section>, r: seq<Section>)
    requires |r| == |s|
    requires forall k :: 0 <= k < |s| ==> r[k] == ClosedSection(s[k])
    ensures r == AfterClose(s)
  {
  }

  function CloseMask(s: seq<Section>): (m: seq<bool>)
    ensures |m| == |s|
    ensures forall k :: 0 <= k < |s| ==> m[k] == (s[k].enabled && s[k].visible)
  {
    seq(|s|, k requires 0 <= k < |s| => s[k].enabled && s[k].visible)
  }

  /** The notifications the close handler sends: one 'false' to each enabled
      section that was shown, in registry order. */
  function CloseNotifications(s: seq<Section>): (log: seq<Notification>)
    ensures forall p :: 0 <= p < |log| ==> !log[p].open && log[p].section < |s|
    ensures forall p, q :: 0 <= p < q < |log| ==> log[p].section < log[q].section
    ensures forall k :: 0 <= k < |s| ==>
      (Notification(k, false) in log <==> s[k].enabled && s[k].visible)
  {
    var hidden := IndicesOf(CloseMask(s));
    IndicesOfMembers(CloseMask(s));
    forall k | 0 <= k < |s|
      ensures Notification(k, false) in Notify(hidden, false) <==> k in hidden
    {
      NotifyMembers(hidden, false, k);
    }
    Notify(hidden, false)
  }

  lemma CloseNotificationsAre(s: seq<Section>)
    ensures CloseNotifications(s) == Notify(IndicesOf(CloseMask(s)), false)
  {
  }

  /** The registry after toggle_context_menu opens the menu: each section
      whose panel icon is shown is styled 'checked' and cannot take focus;
      nothing else changes, content visibility in particular. */
  function AfterContextOpen(s: seq<Section>): (r: seq<Section>)
    ensures |r| == |s|
    ensures Visibility(r) == Visibility(s)
    ensures forall k :: 0 <= k < |s| && s[k].iconVisible ==>
      r[k] == s[k].(checked := true, canFocus := false)
    ensures forall k :: 0 <= k < |s| && !s[k].iconVisible ==> r[k] == s[k]
  {
    seq(|s|, k requires 0 <= k < |s| =>
      if s[k].iconVisible then s[k].(checked := true, canFocus := false) else s[k])
  }

  /** The registry after _toggle_unicon_mode: in unicon mode every section
      icon is hidden; otherwise every enabled section's icon is shown and
      disabled sections keep theirs as it was. */
  function WithUniconMode(s: seq<Section>, unicon: bool): (r: seq<Section>)
    ensures |r| == |s|
    ensures forall k :: 0 <= k < |s| ==> r[k] == s[k].(iconVisible := r[k].iconVisible)
    ensures unicon ==> forall k :: 0 <= k < |s| ==> !r[k].iconVisible
    ensures !unicon ==> forall k :: 0 <= k < |s| ==>
      r[k].iconVisible == (s[k].enabled || s[k].iconVisible)
  {
    seq(|s|, k requires 0 <= k < |s| =>
      if unicon then s[k].(iconVisible := false)
      else if s[k].enabled then s[k].(iconVisible := true)
      else s[k])
  }

  /** Switching to a mode twice is switching to it once. */
  lemma UniconModeIdempotent(s: seq<Section>, unicon: bool)
    ensures WithUniconMode(WithUniconMode(s, unicon), unicon) == WithUniconMode(s, unicon)
  {
  }

  /** The pass the last switch performed decides every icon: the mode
      reached does not depend on the modes switched through before. */
  lemma UniconModeLastWins(s: seq<Section>, first: bool, unicon: bool)
    requires unicon || forall k :: 0 <= k < |s| && !s[k].enabled ==> !s[k].iconVisible
    ensures WithUniconMode(WithUniconMode(s, first), unicon) == WithUniconMode(s, unicon)
  {
  }

  /** Opening and then closing leaves no section shown, and the notification
      log of the pair tells every section that was shown by the open (and not
      hidden by it) that it closes. */
  lemma OpenThenCloseHidesAll(s: seq<Section>, b: Branch)
    requires Admissible(s, b) && VisibleImpliesEnabled(s)
    ensures forall k :: 0 <= k < |s| ==> !AfterClose(AfterOpen(s, b))[k].visible
    ensures forall k :: 0 <= k < |s| && !s[k].visible && AfterOpen(s, b)[k].visible ==>
      Notification(k, true) in OpenNotifications(s, b) &&
      Notification(k, false) in CloseNotifications(AfterOpen(s, b))
  {
    AfterOpenEffect(s, b);
    OpenNotificationsAddressees(s, b);
  }

  /** Opening the context menu never changes which sections are shown, and
      the close handler that follows hides the ones that were. */
  lemma ContextOpenThenClose(s: seq<Section>)
    requires VisibleImpliesEnabled(s)
    ensures forall k :: 0 <= k < |s| ==> !AfterClose(AfterContextOpen(s))[k].visible
    ensures forall k :: 0 <= k < |s| && s[k].enabled ==>
      !AfterClose(AfterContextOpen(s))[k].checked && AfterClose(AfterContextOpen(s))[k].canFocus
  {
  }
}
