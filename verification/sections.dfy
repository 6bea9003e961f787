/** The section records the controller works on, and the bookkeeping it
    keeps about them: which registry indices a pass selects, and the
    open-state notifications it sends. */
module Sections {

  datatype Option<T> = None | Some(value: T)

  /** The five collaborators, in registration order: timer, stopwatch,
      pomodoro, alarms, todo. A section is identified by its index. */
  const SectionCount: nat := 5

  /** What the controller reads and writes of one section. */
  datatype Section = Section(
    enabled: bool,       // section_enabled: the user has turned the tool on
    separateMenu: bool,  // separate_menu: its content is shown on its own
    visible: bool,       // the section's content actor is shown in the popup
    iconVisible: bool,   // the section's own panel icon is shown
    checked: bool,       // the icon carries the 'checked' pseudo class
    canFocus: bool)      // the icon can take keyboard focus

  /** One call of a section's on_section_open_state_changed(open). */
  datatype Notification = Notification(section: nat, open: bool)

  /** A section's content is only ever shown while it is enabled. */
  ghost predicate VisibleImpliesEnabled(s: seq<Section>) {
    forall k :: 0 <= k < |s| ==> s[k].visible ==> s[k].enabled
  }

  function Visibility(s: seq<Section>): (v: seq<bool>)
    ensures |v| == |s|
    ensures forall k :: 0 <= k < |s| ==> v[k] == s[k].visible
  {
    seq(|s|, k requires 0 <= k < |s| => s[k].visible)
  }

  /** The indices below i whose flag is set, in increasing (registry)
      order: the shown_sections / hidden_sections list a pass has built
      after visiting the first i sections. */
  function IndicesBelow(m: seq<bool>, i: nat): (r: seq<nat>)
    requires i <= |m|
    ensures |r| <= i
    decreases i
  {
    if i == 0 then []
    else IndicesBelow(m, i - 1) + (if m[i - 1] then [i - 1] else [])
  }

  /** The list a whole pass builds. */
  function IndicesOf(m: seq<bool>): (r: seq<nat>)
    ensures |r| <= |m|
  {
    IndicesBelow(m, |m|)
  }

  /** The list holds exactly the flagged indices below i, each once, in
      increasing order. */
  lemma {:induction false} IndicesBelowMembers(m: seq<bool>, i: nat)
    requires i <= |m|
    ensures forall p :: 0 <= p < |IndicesBelow(m, i)| ==> IndicesBelow(m, i)[p] < i && m[IndicesBelow(m, i)[p]]
    ensures forall k :: 0 <= k < i && m[k] ==> k in IndicesBelow(m, i)
    ensures forall p, q :: 0 <= p < q < |IndicesBelow(m, i)| ==> IndicesBelow(m, i)[p] < IndicesBelow(m, i)[q]
    decreases i
  {
    if i > 0 {
      IndicesBelowMembers(m, i - 1);
      var r := IndicesBelow(m, i);
      forall k | 0 <= k < i && m[k] ensures k in r {
        if k < i - 1 {
          assert k in IndicesBelow(m, i - 1);
        }
      }
    }
  }

  /** The whole list holds exactly the flagged indices, each once, in
      increasing order. */
  lemma IndicesOfMembers(m: seq<bool>)
    ensures forall p :: 0 <= p < |IndicesOf(m)| ==> IndicesOf(m)[p] < |m| && m[IndicesOf(m)[p]]
    ensures forall k :: 0 <= k < |m| && m[k] ==> k in IndicesOf(m)
    ensures forall p, q :: 0 <= p < q < |IndicesOf(m)| ==> IndicesOf(m)[p] < IndicesOf(m)[q]
  {
    IndicesBelowMembers(m, |m|);
  }

  /** A mask with no flag set selects nothing. */
  lemma IndicesOfNone(m: seq<bool>)
    requires forall k :: 0 <= k < |m| ==> !m[k]
    ensures IndicesOf(m) == []
  {
    IndicesBelowNone(m, |m|);
  }

  lemma {:induction false} IndicesBelowNone(m: seq<bool>, i: nat)
    requires i <= |m|
    requires forall k :: 0 <= k < |m| ==> !m[k]
    ensures IndicesBelow(m, i) == []
    decreases i
  {
    if i > 0 {
      IndicesBelowNone(m, i - 1);
    }
  }

  /** A mask that can only have flag t set selects t or nothing. */
  lemma IndicesOfSingle(m: seq<bool>, t: nat)
    requires t < |m|
    requires forall k :: 0 <= k < |m| && k != t ==> !m[k]
    ensures IndicesOf(m) == if m[t] then [t] else []
  {
    IndicesBelowSingle(m, t, |m|);
  }

  lemma {:induction false} IndicesBelowSingle(m: seq<bool>, t: nat, i: nat)
    requires t < |m| && i <= |m|
    requires forall k :: 0 <= k < |m| && k != t ==> !m[k]
    ensures IndicesBelow(m, i) == if t < i && m[t] then [t] else []
    decreases i
  {
    if i > 0 {
      IndicesBelowSingle(m, t, i - 1);
      if i - 1 == t {
        assert IndicesBelow(m, i) == [] + (if m[t] then [t] else []);
      } else {
        assert !m[i - 1];
      }
    }
  }

  /** The notifications sent to the listed sections, in list order. */
  function Notify(ix: seq<nat>, open: bool): (log: seq<Notification>)
    ensures |log| == |ix|
    ensures forall p :: 0 <= p < |ix| ==> log[p] == Notification(ix[p], open)
  {
    seq(|ix|, p requires 0 <= p < |ix| => Notification(ix[p], open))
  }

  /** A section is in a notification batch exactly when it is in the list. */
  lemma NotifyAppend(ix: seq<nat>, k: nat, open: bool)
    ensures Notify(ix + [k], open) == Notify(ix, open) + [Notification(k, open)]
  {
  }

  lemma NotifyMembers(ix: seq<nat>, open: bool, k: nat)
    ensures Notification(k, open) in Notify(ix, open) <==> k in ix
  {
    var log := Notify(ix, open);
    if k in ix {
      var p :| 0 <= p < |ix| && ix[p] == k;
      assert log[p] == Notification(k, open);
    }
  }
}
