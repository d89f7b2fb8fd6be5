/** Screen geometry of the sketch: the start and restart buttons, the option
    boxes of the quiz screen, and the pointer hit test. Coordinates are reals;
    the canvas size and the pointer position are parameters. */
module Layout {

  datatype Option<T> = None | Some(value: T)

  /** A hit rectangle with its top-left corner at (x, y). */
  datatype Box = Box(x: real, y: real, w: real, h: real)

  /** Containment is strict on all four edges. */
  predicate Contains(b: Box, mouseX: real, mouseY: real) {
    mouseX > b.x && mouseX < b.x + b.w && mouseY > b.y && mouseY < b.y + b.h
  }

  /** The start button: 200 by 50, centred horizontally, top edge at mid-height. */
  function StartButton(width: real, height: real): (b: Box)
    ensures b.w == 200.0 && b.h == 50.0 && b.x + b.w / 2.0 == width / 2.0 && b.y == height / 2.0
  {
    Box(width / 2.0 - 100.0, height / 2.0, 200.0, 50.0)
  }

  /** The restart button: 200 by 50, centred horizontally, top edge at three quarters of the height. */
  function RestartButton(width: real, height: real): (b: Box)
    ensures b.w == 200.0 && b.h == 50.0 && b.x + b.w / 2.0 == width / 2.0 && b.y == height * 0.75
  {
    Box(width / 2.0 - 100.0, height * 0.75, 200.0, 50.0)
  }

  const OptionHeight: real := 50.0
  const OptionPitch: real := 60.0

  /** Option `i`: 70% of the canvas wide and centred, 50 high, rows 60 apart
      starting 20 above mid-height. */
  function OptionBox(i: nat, width: real, height: real): (b: Box)
    ensures b.w == width * 0.7 && b.h == 50.0 && b.x + b.w / 2.0 == width / 2.0
    ensures b.y == height / 2.0 - 20.0 + (i as real) * 60.0
  {
    var w := width * 0.7;
    Box((width - w) / 2.0, height / 2.0 - 20.0 + (i as real) * OptionPitch, w, OptionHeight)
  }

  /** Two different option boxes never both contain the pointer. */
  lemma OptionBoxesDisjoint(i: nat, j: nat, width: real, height: real, mouseX: real, mouseY: real)
    requires i != j
    ensures !(Contains(OptionBox(i, width, height), mouseX, mouseY) &&
              Contains(OptionBox(j, width, height), mouseX, mouseY))
  {
    var yi, yj := OptionBox(i, width, height).y, OptionBox(j, width, height).y;
    if i < j {
      assert (j as real) - (i as real) >= 1.0;
      assert yj - yi >= OptionPitch;
    } else {
      assert (i as real) - (j as real) >= 1.0;
      assert yi - yj >= OptionPitch;
    }
  }

  /** The option boxes of a question with `count` options, in option order. */
  method LayoutOptions(count: nat, width: real, height: real) returns (boxes: seq<Box>)
    ensures |boxes| == count
    ensures forall i :: 0 <= i < count ==> boxes[i] == OptionBox(i, width, height)
  {
    boxes := [];
    for i := 0 to count
      invariant |boxes| == i
      invariant forall k :: 0 <= k < i ==> boxes[k] == OptionBox(k, width, height)
    {
      var w := width * 0.7;
      var x := (width - w) / 2.0;
      var y := height / 2.0 - 20.0 + (i as real) * 60.0;
      var h := 50.0;
      boxes := boxes + [Box(x, y, w, h)];
    }
  }

  /** The index of the first box containing the pointer, if any. */
  function FirstHit(boxes: seq<Box>, mouseX: real, mouseY: real): (r: Option<nat>)
    ensures r.Some? ==> r.value < |boxes| && Contains(boxes[r.value], mouseX, mouseY)
    ensures r.Some? ==> forall k :: 0 <= k < r.value ==> !Contains(boxes[k], mouseX, mouseY)
    ensures r.None? ==> forall k :: 0 <= k < |boxes| ==> !Contains(boxes[k], mouseX, mouseY)
  {
    if boxes == [] then None
    else if Contains(boxes[0], mouseX, mouseY) then Some(0)
    else match FirstHit(boxes[1..], mouseX, mouseY)
      case None => None
      case Some(k) => Some(k + 1)
  }

  /** The scan of the option boxes in the click handler: the first box that
      contains the pointer wins. */
  method FindHit(boxes: seq<Box>, mouseX: real, mouseY: real) returns (hit: Option<nat>)
    ensures hit == FirstHit(boxes, mouseX, mouseY)
  {
    var i := 0;
    while i < |boxes|
      invariant 0 <= i <= |boxes|
      invariant forall k :: 0 <= k < i ==> !Contains(boxes[k], mouseX, mouseY)
    {
      if Contains(boxes[i], mouseX, mouseY) {
        FirstHitUnique(boxes, mouseX, mouseY, i);
        return Some(i);
      }
      i := i + 1;
    }
    FirstHitUnique(boxes, mouseX, mouseY, |boxes|);
    hit := None;
  }

  /** The contract of FirstHit determines it: `i` is the first hit iff it is
      a hit with no hit before it. */
  lemma FirstHitUnique(boxes: seq<Box>, mouseX: real, mouseY: real, i: nat)
    requires i <= |boxes|
    requires forall k :: 0 <= k < i ==> !Contains(boxes[k], mouseX, mouseY)
    ensures i < |boxes| && Contains(boxes[i], mouseX, mouseY) ==> FirstHit(boxes, mouseX, mouseY) == Some(i)
    ensures i == |boxes| ==> FirstHit(boxes, mouseX, mouseY) == None
  {
  }

  /** On the option layout the first hit is the one box under the pointer. */
  lemma OptionHitIsTheBoxUnderPointer(boxes: seq<Box>, width: real, height: real,
                                      mouseX: real, mouseY: real, i: nat)
    requires forall k :: 0 <= k < |boxes| ==> boxes[k] == OptionBox(k, width, height)
    requires i < |boxes| && Contains(boxes[i], mouseX, mouseY)
    ensures FirstHit(boxes, mouseX, mouseY) == Some(i)
  {
    forall k | 0 <= k < i
      ensures !Contains(boxes[k], mouseX, mouseY)
    {
      OptionBoxesDisjoint(k, i, width, height, mouseX, mouseY);
    }
    FirstHitUnique(boxes, mouseX, mouseY, i);
  }
}
