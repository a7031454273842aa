/** A hand sprite of the tutorial: clicking it, once flipping is enabled, turns it between
    its front and its back and tells the scene it flipped. */
module Hand {

  /** The sprite frame showing a side: 0 for the front, 1 for the back. */
  function FrameFor(front: bool): (frame: nat)
    ensures frame <= 1
    ensures frame == 0 <==> front
  {
    if front then 0 else 1
  }

  class Hand {
    var canFlip: bool
    var front: bool
    var frame: nat
    /** How many 'flipped' events this hand has emitted to the scene. */
    var flippedEmitted: nat
    const mirrored: bool

    /** The frame always shows the side `front` names. */
    ghost predicate Valid()
      reads this
    {
      frame == FrameFor(front)
    }

    /** A hand starts showing its front, not yet flippable; the left one is mirrored. */
    constructor(right: bool)
      ensures Valid() && !canFlip && front && frame == 0 && flippedEmitted == 0
      ensures mirrored == !right
    {
      canFlip := false;
      front := true;
      frame := 0;
      flippedEmitted := 0;
      mirrored := !right;
    }

    /** A click: when flipping is enabled the hand shows its other side and emits 'flipped'
        once; otherwise nothing changes. */
    method PointerDown() returns (emitted: bool)
      requires Valid()
      modifies this`front, this`frame, this`flippedEmitted
      ensures Valid()
      ensures emitted == canFlip
      ensures canFlip ==> front == !old(front) && flippedEmitted == old(flippedEmitted) + 1
      ensures !canFlip ==> front == old(front) && frame == old(frame) &&
                           flippedEmitted == old(flippedEmitted)
    {
      emitted := false;
      if canFlip {
        if front {
          frame := 1;
        } else {
          frame := 0;
        }
        front := !front;
        flippedEmitted := flippedEmitted + 1;
        emitted := true;
      }
    }

    /** Two clicks while flippable show the original side again and emit two events. */
    method FlipTwice()
      requires Valid() && canFlip
      modifies this`front, this`frame, this`flippedEmitted
      ensures Valid()
      ensures front == old(front) && frame == old(frame)
      ensures flippedEmitted == old(flippedEmitted) + 2
    {
      var first := PointerDown();
      var second := PointerDown();
    }
  }
}
