/** The three host panel slots the widget's container can live in, and the
    move that _on_panel_position_changed performs between them. */
module PanelLayout {

  /** panel-item-position: LEFT = 0, CENTER = 1, RIGHT = 2. */
  datatype PanelPosition = Left | Center | Right

  /** An actor of the host panel (the widget's container or anything else). */
  type ActorId = nat

  /** The children of the three panel boxes, front to back. */
  datatype PanelBoxes = PanelBoxes(left: seq<ActorId>, center: seq<ActorId>, right: seq<ActorId>)
  {
    function Get(p: PanelPosition): seq<ActorId> {
      match p
      case Left => left
      case Center => center
      case Right => right
    }

    function Set(p: PanelPosition, children: seq<ActorId>): (r: PanelBoxes)
      ensures r.Get(p) == children
      ensures forall q :: q != p ==> r.Get(q) == Get(q)
    {
      match p
      case Left => this.(left := children)
      case Center => this.(center := children)
      case Right => this.(right := children)
    }
  }

  /** The children without actor a (a remove_child; an actor has at most
      one parent, so it is listed at most once). */
  function Without(s: seq<ActorId>, a: ActorId): (r: seq<ActorId>)
    ensures a !in r
    ensures forall x :: x in r <==> x in s && x != a
    ensures a !in s ==> r == s
    decreases |s|
  {
    if s == [] then []
    else (if s[0] == a then [] else [s[0]]) + Without(s[1..], a)
  }

  lemma {:induction false} WithoutAppend(s: seq<ActorId>, t: seq<ActorId>, a: ActorId)
    ensures Without(s + t, a) == Without(s, a) + Without(t, a)
    decreases |s|
  {
    if s == [] {
      assert s + t == t;
    } else {
      assert (s + t)[1..] == s[1..] + t;
      WithoutAppend(s[1..], t, a);
    }
  }

  /** Taking the container out of a box, or adding it at either end, does not
      change the order of the other children. */
  lemma WithoutIgnoresContainer(s: seq<ActorId>, a: ActorId)
    ensures Without(Without(s, a), a) == Without(s, a)
    ensures Without(Without(s, a) + [a], a) == Without(s, a)
    ensures Without([a] + Without(s, a), a) == Without(s, a)
  {
    WithoutAppend(Without(s, a), [a], a);
    WithoutAppend([a], Without(s, a), a);
  }

  lemma InsertAtFront(s: seq<ActorId>, a: ActorId)
    ensures s[..0] + [a] + s[0..] == [a] + s
  {
    assert s[..0] == [] && s[0..] == s;
  }

  /** MoveContainer as its two steps: the removal, then the insertion at
      the end of the new slot that the slot calls for. */
  lemma MoveContainerSteps(b: PanelBoxes, c: ActorId, from: PanelPosition, to: PanelPosition,
                           removed: PanelBoxes, r: PanelBoxes)
    requires removed == b.Set(from, Without(b.Get(from), c))
    requires r == removed.Set(to, if to == Right then [c] + removed.Get(to) else removed.Get(to) + [c])
    ensures r == MoveContainer(b, c, from, to)
  {
  }

  /** The container is in slot p, once, and in no other slot. */
  ghost predicate PlacedAt(b: PanelBoxes, c: ActorId, p: PanelPosition) {
    multiset(b.Get(p))[c] == 1 && forall q :: q != p ==> c !in b.Get(q)
  }

  /** _on_panel_position_changed: remove container c from the box of the old
      position, then append it to the left or center box, or put it in front
      of the right box. A move to the same slot is not special-cased. */
  function MoveContainer(b: PanelBoxes, c: ActorId, from: PanelPosition, to: PanelPosition): (r: PanelBoxes)
    // the container lands at the back of left/center, at the front of right
    ensures to != Right ==> |r.Get(to)| > 0 && r.Get(to)[|r.Get(to)| - 1] == c
    ensures to == Right ==> |r.Get(to)| > 0 && r.Get(to)[0] == c
    // it has left the old slot
    ensures from != to ==> c !in r.Get(from)
    // slots other than the two named are untouched
    ensures forall p :: p != from && p != to ==> r.Get(p) == b.Get(p)
  {
    var removed := b.Set(from, Without(b.Get(from), c));
    var box := removed.Get(to);
    removed.Set(to, if to == Right then [c] + box else box + [c])
  }

  /** The other children of every box keep their relative order. */
  lemma MoveKeepsOthersInOrder(b: PanelBoxes, c: ActorId, from: PanelPosition, to: PanelPosition, p: PanelPosition)
    ensures Without(MoveContainer(b, c, from, to).Get(p), c) == Without(b.Get(p), c)
  {
    var r := MoveContainer(b, c, from, to);
    var removed := b.Set(from, Without(b.Get(from), c));
    var box := removed.Get(to);
    WithoutIgnoresContainer(b.Get(from), c);
    if p == to {
      if to == from {
        assert box == Without(b.Get(from), c);
      } else {
        assert box == b.Get(to);
      }
      WithoutAppend(box, [c], c);
      WithoutAppend([c], box, c);
      WithoutIgnoresContainer(box, c);
    } else if p == from {
      assert r.Get(p) == Without(b.Get(from), c);
    }
  }

  /** A container that sits in one slot only sits in the new slot only. */
  lemma MovePlaces(b: PanelBoxes, c: ActorId, from: PanelPosition, to: PanelPosition)
    requires PlacedAt(b, c, from)
    ensures PlacedAt(MoveContainer(b, c, from, to), c, to)
  {
    var r := MoveContainer(b, c, from, to);
    var box := b.Set(from, Without(b.Get(from), c)).Get(to);
    assert c !in box by {
      if to != from {
        assert box == b.Get(to);
      }
    }
    if to == Right {
      assert r.Get(to) == [c] + box;
      assert multiset(r.Get(to)) == multiset([c]) + multiset(box);
    } else {
      assert r.Get(to) == box + [c];
      assert multiset(r.Get(to)) == multiset(box) + multiset([c]);
    }
    forall q | q != to ensures c !in r.Get(q) {
      if q != from {
        assert r.Get(q) == b.Get(q);
      }
    }
  }

  /** Moving left to right and back again puts the container back in the
      left box only, with every box's other children in their old order. */
  lemma LeftRightRoundTrip(b: PanelBoxes, c: ActorId)
    requires PlacedAt(b, c, Left)
    ensures PlacedAt(MoveContainer(MoveContainer(b, c, Left, Right), c, Right, Left), c, Left)
    ensures forall p :: Without(MoveContainer(MoveContainer(b, c, Left, Right), c, Right, Left).Get(p), c)
                     == Without(b.Get(p), c)
  {
    var m := MoveContainer(b, c, Left, Right);
    var r := MoveContainer(m, c, Right, Left);
    MovePlaces(b, c, Left, Right);
    MovePlaces(m, c, Right, Left);
    forall p ensures Without(r.Get(p), c) == Without(b.Get(p), c) {
      MoveKeepsOthersInOrder(b, c, Left, Right, p);
      MoveKeepsOthersInOrder(m, c, Right, Left, p);
    }
  }

  /** If the container was the last child of the left box (where a left
      placement appends it), moving it right and back restores every box. */
  lemma LeftRightRoundTripExact(b: PanelBoxes, c: ActorId)
    requires PlacedAt(b, c, Left)
    requires |b.left| > 0 && b.left[|b.left| - 1] == c
    ensures MoveContainer(MoveContainer(b, c, Left, Right), c, Right, Left) == b
  {
    var front := b.left[..|b.left| - 1];
    assert b.left == front + [c];
    assert c !in front by {
      assert multiset(b.left) == multiset(front) + multiset([c]);
    }
    WithoutAppend(front, [c], c);
    var m := MoveContainer(b, c, Left, Right);
    assert m.left == front;
    assert m.center == b.center;
    assert m.right == [c] + b.right;
    var r := MoveContainer(m, c, Right, Left);
    WithoutAppend([c], b.right, c);
    assert c !in b.right;
    assert r.right == b.right;
    assert r.left == b.left;
    assert r.center == b.center;
  }

  /** A move to the slot the container is already in is not a no-op: a
      container at the back of the right box is taken to its front. */
  lemma SameSlotMoveReorders()
    ensures MoveContainer(PanelBoxes([], [], [1, 7]), 7, Right, Right).right == [7, 1]
  {
    var b := PanelBoxes([], [], [1, 7]);
    assert Without([1, 7], 7) == [1] + Without([7], 7);
  }

  /** The host panel: its three boxes, changed in place by Clutter's child
      operations. */
  class Panel {
    var boxes: PanelBoxes

    constructor (initial: PanelBoxes)
      ensures boxes == initial
    {
      boxes := initial;
    }

    /** remove_child: a child that is not there is left alone. */
    method RemoveChild(p: PanelPosition, a: ActorId)
      modifies this
      ensures boxes == old(boxes).Set(p, Without(old(boxes).Get(p), a))
    {
      boxes := boxes.Set(p, Without(boxes.Get(p), a));
    }

    /** add_child: the child goes after the existing ones. */
    method AddChild(p: PanelPosition, a: ActorId)
      modifies this
      ensures boxes == old(boxes).Set(p, old(boxes).Get(p) + [a])
    {
      boxes := boxes.Set(p, boxes.Get(p) + [a]);
    }

    /** insert_child_at_index: an index past the end appends. */
    method InsertChildAtIndex(p: PanelPosition, a: ActorId, index: nat)
      modifies this
      ensures var old_ := old(boxes).Get(p);
        boxes == old(boxes).Set(p, if index <= |old_| then old_[..index] + [a] + old_[index..] else old_ + [a])
    {
      var children := boxes.Get(p);
      if index <= |children| {
        boxes := boxes.Set(p, children[..index] + [a] + children[index..]);
      } else {
        boxes := boxes.Set(p, children + [a]);
      }
    }
  }
}
