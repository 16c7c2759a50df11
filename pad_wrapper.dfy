/**
 * The gamepad wrapper (tekken/data/wrappers/controllers/pad_wrapper.py) and
 * the button table it enumerates (constants/controllers/pad.py): a pad holds
 * a mask of pressed buttons and the two axes of each stick; two pads are
 * compared button by button and axis by axis.
 */
module PadWrappers {

  /** `PadController`, in declaration order. */
  datatype PadButton =
    | UP | DOWN | LEFT | RIGHT | START | SELECT | LEFT_STICK_BUTTON | RIGHT_STICK_BUTTON
    | LEFT_BUTTON | RIGHT_BUTTON | LEFT_TRIGGER | RIGHT_TRIGGER | THREE | FOUR | ONE | TWO

  /** The `IntEnum` value of each button. */
  function Value(b: PadButton): bv16
  {
    match b
    case UP => 0x0001
    case DOWN => 0x0002
    case LEFT => 0x0004
    case RIGHT => 0x0008
    case START => 0x0010
    case SELECT => 0x0020
    case LEFT_STICK_BUTTON => 0x0040
    case RIGHT_STICK_BUTTON => 0x0080
    case LEFT_BUTTON => 0x0100
    case RIGHT_BUTTON => 0x0200
    case LEFT_TRIGGER => 0x0400
    case RIGHT_TRIGGER => 0x0800
    case THREE => 0x1000
    case FOUR => 0x2000
    case ONE => 0x4000
    case TWO => 0x8000
  }

  /** Iterating over `PadController` visits the members in this order. */
  const ALL_BUTTONS: seq<PadButton> := [
    UP, DOWN, LEFT, RIGHT, START, SELECT, LEFT_STICK_BUTTON, RIGHT_STICK_BUTTON,
    LEFT_BUTTON, RIGHT_BUTTON, LEFT_TRIGGER, RIGHT_TRIGGER, THREE, FOUR, ONE, TWO]

  /** Every button has one bit of its own, so the buttons of a mask are
    * independent of each other. */
  lemma ButtonBits(b: PadButton, c: PadButton)
    ensures Value(b) != 0 && Value(b) & (Value(b) - 1) == 0
    ensures b != c ==> Value(b) & Value(c) == 0
    ensures b in ALL_BUTTONS
  {
  }

  /** `button & mask` taken as a truth value. */
  predicate Pressed(mask: bv16, b: PadButton)
  {
    Value(b) & mask != 0
  }

  /** A single bit differs between two masks exactly when it is set in one
    * of them and not in the other. */
  lemma PressedXor(x: bv16, y: bv16, b: PadButton)
    ensures Pressed(x ^ y, b) <==> Pressed(x, b) != Pressed(y, b)
  {
    match b
    case UP =>
    case DOWN =>
    case LEFT =>
    case RIGHT =>
    case START =>
    case SELECT =>
    case LEFT_STICK_BUTTON =>
    case RIGHT_STICK_BUTTON =>
    case LEFT_BUTTON =>
    case RIGHT_BUTTON =>
    case LEFT_TRIGGER =>
    case RIGHT_TRIGGER =>
    case THREE =>
    case FOUR =>
    case ONE =>
    case TWO =>
  }

  /** `[button for button in buttons if button & mask]`. */
  function Filtered(buttons: seq<PadButton>, mask: bv16): (r: seq<PadButton>)
    ensures forall b :: b in r <==> b in buttons && Pressed(mask, b)
    ensures |r| <= |buttons|
  {
    if |buttons| == 0 then []
    else
      var last := buttons[|buttons| - 1];
      Filtered(buttons[..|buttons| - 1], mask) + (if Pressed(mask, last) then [last] else [])
  }

  /** Each listed button paired with whether it is pressed in `mask`. */
  function Tagged(buttons: seq<PadButton>, mask: bv16): (r: seq<(PadButton, bool)>)
    ensures |r| == |buttons|
    ensures forall i :: 0 <= i < |r| ==> r[i] == (buttons[i], Pressed(mask, buttons[i]))
    ensures forall b, t :: (b, t) in r <==> b in buttons && t == Pressed(mask, b)
  {
    if |buttons| == 0 then []
    else
      var last := buttons[|buttons| - 1];
      Tagged(buttons[..|buttons| - 1], mask) + [(last, Pressed(mask, last))]
  }

  /** The button part of `difference`: the buttons whose bit differs between
    * the two masks, in enumeration order, each tagged with its state in `x`. */
  function DiffButtons(x: bv16, y: bv16): seq<(PadButton, bool)>
  {
    Tagged(Filtered(ALL_BUTTONS, x ^ y), x)
  }

  /** A button is listed exactly when its state differs between the pads,
    * and it is tagged `True` exactly when the first pad presses it. */
  lemma DiffButtonsMeaning(x: bv16, y: bv16, b: PadButton)
    ensures (b, true) in DiffButtons(x, y) <==> Pressed(x, b) && !Pressed(y, b)
    ensures (b, false) in DiffButtons(x, y) <==> !Pressed(x, b) && Pressed(y, b)
  {
    PressedXor(x, y, b);
    ButtonBits(b, b);
  }

  /** Comparing a mask with itself lists no button. */
  lemma DiffButtonsSelf(x: bv16)
    ensures DiffButtons(x, x) == []
  {
    assert x ^ x == 0;
    assert forall b :: !Pressed(0, b);
    FilteredNothing(ALL_BUTTONS, 0);
  }

  /** A mask that holds no button lists none. */
  lemma {:induction false} FilteredNothing(buttons: seq<PadButton>, mask: bv16)
    requires forall b :: !Pressed(mask, b)
    ensures Filtered(buttons, mask) == []
  {
    if |buttons| > 0 {
      FilteredNothing(buttons[..|buttons| - 1], mask);
    }
  }

  /** `__tuple_difference`: the size of the gap times -1 when the first value
    * is the larger one. */
  function TupleDifference(a: (int, int), b: (int, int)): (r: (int, int))
    ensures r == (b.0 - a.0, b.1 - a.1)
  {
    (ItemDifference(a.0, b.0), ItemDifference(a.1, b.1))
  }

  /** One component of `__tuple_difference`. */
  function ItemDifference(a: int, b: int): (r: int)
    ensures r == b - a
  {
    (Max(a, b) - Min(a, b)) * (if a > b then -1 else 1)
  }

  function Max(a: int, b: int): int { if a >= b then a else b }

  function Min(a: int, b: int): int { if a <= b then a else b }

  /** The value `difference` returns, the dictionary with keys 'buttons',
    * 'left_stick' and 'right_stick'. */
  datatype PadDifference = PadDifference(buttons: seq<(PadButton, bool)>, leftStick: (int, int),
                                         rightStick: (int, int))

  /** A pad compared with one in the same state shows no change. */
  lemma DifferenceSelf(x: bv16, left: (int, int), right: (int, int))
    ensures PadDifference(DiffButtons(x, x), TupleDifference(left, left), TupleDifference(right, right))
      == PadDifference([], (0, 0), (0, 0))
  {
    DiffButtonsSelf(x);
  }

  class PadControllerWrapper {
    var pressedButtons: bv16
    var leftStickHorizontalAxis: int
    var leftStickVerticalAxis: int
    var rightStickHorizontalAxis: int
    var rightStickVerticalAxis: int

    /** A pad with the fields read from a block of bytes. */
    constructor(pressed: bv16, leftStick: (int, int), rightStick: (int, int))
      ensures pressedButtons == pressed && LeftStick() == leftStick && RightStick() == rightStick
    {
      pressedButtons := pressed;
      leftStickHorizontalAxis := leftStick.0;
      leftStickVerticalAxis := leftStick.1;
      rightStickHorizontalAxis := rightStick.0;
      rightStickVerticalAxis := rightStick.1;
    }

    /** The `left_stick` property. */
    function LeftStick(): (int, int)
      reads this
    {
      (leftStickHorizontalAxis, leftStickVerticalAxis)
    }

    /** The `right_stick` property. */
    function RightStick(): (int, int)
      reads this
    {
      (rightStickHorizontalAxis, rightStickVerticalAxis)
    }

    /** Setting `left_stick` writes the two left axes; reading it back gives
      * the same pair and the rest of the pad is unchanged. */
    method SetLeftStick(leftStick: (int, int))
      modifies this
      ensures LeftStick() == leftStick
      ensures pressedButtons == old(pressedButtons) && RightStick() == old(RightStick())
    {
      leftStickHorizontalAxis := leftStick.0;
      leftStickVerticalAxis := leftStick.1;
    }

    /** Setting `right_stick` writes the two right axes; reading it back
      * gives the same pair and the rest of the pad is unchanged. */
    method SetRightStick(rightStick: (int, int))
      modifies this
      ensures RightStick() == rightStick
      ensures pressedButtons == old(pressedButtons) && LeftStick() == old(LeftStick())
    {
      rightStickHorizontalAxis := rightStick.0;
      rightStickVerticalAxis := rightStick.1;
    }

    /** `is_pressed(button)`: the button's bit is set in the mask. */
    function IsPressed(b: PadButton): (r: bool)
      reads this
      ensures r <==> Value(b) & pressedButtons != 0
    {
      Pressed(pressedButtons, b)
    }

    /** `difference(pad_controller)`: the buttons whose state differs and the
      * change of each stick from this pad to the other. */
    method Difference(other: PadControllerWrapper) returns (r: PadDifference)
      ensures r.buttons == DiffButtons(pressedButtons, other.pressedButtons)
      ensures r.leftStick == TupleDifference(LeftStick(), other.LeftStick())
      ensures r.rightStick == TupleDifference(RightStick(), other.RightStick())
    {
      var listed := ButtonsIn(pressedButtons ^ other.pressedButtons);
      var diffButtons := TagButtons(listed, pressedButtons);
      r := PadDifference(diffButtons, TupleDifference(LeftStick(), other.LeftStick()),
                         TupleDifference(RightStick(), other.RightStick()));
    }
  }

  /** The list comprehension of `difference`: the buttons set in `mask`. */
  method ButtonsIn(mask: bv16) returns (listed: seq<PadButton>)
    ensures listed == Filtered(ALL_BUTTONS, mask)
  {
    listed := [];
    for i := 0 to |ALL_BUTTONS|
      invariant listed == Filtered(ALL_BUTTONS[..i], mask)
    {
      var button := ALL_BUTTONS[i];
      if Value(button) & mask != 0 {
        listed := listed + [button];
      }
      assert ALL_BUTTONS[..i + 1][..i] == ALL_BUTTONS[..i];
    }
    assert ALL_BUTTONS[..|ALL_BUTTONS|] == ALL_BUTTONS;
  }

  /** The loop of `difference` that replaces each listed button by the pair
    * of it and whether `pressed` holds it. */
  method TagButtons(listed: seq<PadButton>, pressed: bv16) returns (diffButtons: seq<(PadButton, bool)>)
    ensures diffButtons == Tagged(listed, pressed)
  {
    diffButtons := [];
    for index := 0 to |listed|
      invariant diffButtons == Tagged(listed[..index], pressed)
    {
      var diffButton := listed[index];
      if Value(diffButton) & pressed != 0 {
        TaggedSnoc(listed, index, pressed, true);
        diffButtons := diffButtons + [(diffButton, true)];
      } else {
        TaggedSnoc(listed, index, pressed, false);
        diffButtons := diffButtons + [(diffButton, false)];
      }
    }
    assert listed[..|listed|] == listed;
  }

  /** Extending the listed buttons by one extends their tagging by one pair. */
  lemma TaggedSnoc(listed: seq<PadButton>, index: nat, pressed: bv16, isPressed: bool)
    requires index < |listed| && isPressed == Pressed(pressed, listed[index])
    ensures Tagged(listed[..index + 1], pressed) == Tagged(listed[..index], pressed) + [(listed[index], isPressed)]
  {
    assert listed[..index + 1][..index] == listed[..index];
  }
}
