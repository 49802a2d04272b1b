/**
 * The input layer of the Illusions engine: key and mouse events become
 * button bits.
 *
 * Each `InputEvent` owns a bit mask and a key map. An event fires (yields its
 * mask) when one of its mappings goes from up to down. `Input` gathers the
 * fired masks into `buttonStates`, remembers which bits are new, filters
 * everything through `enabledButtons`, moves the cursor on cursor actions
 * and follows the cheat code typed on the keyboard.
 *
 * Masks are the source's 32-bit `uint`, modelled as the set of their bits.
 * The screen size the source asks the system for is given to the `Input`
 * constructor.
 */
module IllusionsInput {

  /** A bit position of a 32-bit mask. */
  type BitIndex = i: nat | i < 32

  /**
   * A 32-bit `uint` mask, as the set of its bits: `|` is union, `&` is
   * intersection, `m & ~n` is difference and `m != 0` is non-emptiness.
   * The masks are only ever combined bitwise.
   */
  type Mask = set<BitIndex>

  /** No mouse button; the buttons are single bits. */
  const MOUSE_NONE: Mask := {}
  const MOUSE_LEFT_BUTTON: Mask := {0}
  const MOUSE_RIGHT_BUTTON: Mask := {1}

  /** The sixteen button bits, `0xFFFF`. */
  const ALL_BUTTONS: Mask := set i: BitIndex | i < 16

  /** The keys to release, in order, to switch cheat mode on. */
  const CHEAT_CODE: string := "gosanta"
  /** The cheat index once the whole code was typed: cheat mode is on. */
  const CHEAT_ACTIVE: nat := 7

  /** The engine actions the input layer tells apart: the four cursor moves, none, and the others. */
  datatype Action = ActionNone | CursorUp | CursorDown | CursorLeft | CursorRight | OtherAction(id: nat)

  /** One mapping of an event: an action or a mouse button, and whether it is held down. */
  datatype KeyMapping = KeyMapping(action: Action, mouseButton: Mask, down: bool)

  datatype Point = Point(x: int, y: int)

  /** A mapping responds to `action` (unless it maps no action) or to `mouseButton` (unless it maps no button). */
  predicate Matches(k: KeyMapping, action: Action, mouseButton: Mask)
  {
    (k.action != ActionNone && k.action == action) || (k.mouseButton != MOUSE_NONE && k.mouseButton == mouseButton)
  }

  /** The mapping goes from up to down on this event. */
  predicate Fires(k: KeyMapping, action: Action, mouseButton: Mask, down: bool)
  {
    Matches(k, action, mouseButton) && down && !k.down
  }

  /** Some mapping of `keyMap` fires on this event. */
  predicate AnyFires(keyMap: seq<KeyMapping>, action: Action, mouseButton: Mask, down: bool)
  {
    exists i :: 0 <= i < |keyMap| && Fires(keyMap[i], action, mouseButton, down)
  }

  /** One mapping after the event: a press marks it down, a release marks it up. */
  function Handled(k: KeyMapping, action: Action, mouseButton: Mask, down: bool): (r: KeyMapping)
    ensures r.action == k.action && r.mouseButton == k.mouseButton
    ensures Matches(k, action, mouseButton) ==> r.down == down
    ensures !Matches(k, action, mouseButton) ==> r == k
  {
    if Matches(k, action, mouseButton) then
      if down && !k.down then k.(down := true)
      else if !down then k.(down := false)
      else k
    else k
  }

  /** The whole key map after the event. */
  function HandledAll(keyMap: seq<KeyMapping>, action: Action, mouseButton: Mask, down: bool): (r: seq<KeyMapping>)
    ensures |r| == |keyMap|
  {
    seq(|keyMap|, i requires 0 <= i < |keyMap| => Handled(keyMap[i], action, mouseButton, down))
  }

  /** Pressing again without a release in between fires nothing and changes no mapping. */
  lemma SecondPressIsQuiet(keyMap: seq<KeyMapping>, action: Action, mouseButton: Mask)
    ensures var once := HandledAll(keyMap, action, mouseButton, true);
            && !AnyFires(once, action, mouseButton, true)
            && HandledAll(once, action, mouseButton, true) == once
  {
    var once := HandledAll(keyMap, action, mouseButton, true);
    forall i | 0 <= i < |once|
      ensures !Fires(once[i], action, mouseButton, true)
      ensures Handled(once[i], action, mouseButton, true) == once[i]
    {
    }
  }

  /** After a release, a press of a matching mapping fires again. */
  lemma PressAfterReleaseFires(keyMap: seq<KeyMapping>, action: Action, mouseButton: Mask, i: nat)
    requires i < |keyMap| && Matches(keyMap[i], action, mouseButton)
    ensures AnyFires(HandledAll(keyMap, action, mouseButton, false), action, mouseButton, true)
  {
    var released := HandledAll(keyMap, action, mouseButton, false);
    assert Fires(released[i], action, mouseButton, true);
  }

  /** `CLIP(v, lo, hi)`: `lo` below the range, `hi` above it, `v` inside. */
  function Clip(v: int, lo: int, hi: int): (r: int)
    ensures lo <= hi ==> lo <= r <= hi
    ensures lo <= v <= hi ==> r == v
    ensures v < lo ==> r == lo
    ensures lo <= v && hi < v ==> r == hi
  {
    if v < lo then lo else if v > hi then hi else v
  }

  /** Clipping a clipped value changes nothing. */
  lemma ClipIdempotent(v: int, lo: int, hi: int)
    requires lo <= hi
    ensures Clip(Clip(v, lo, hi), lo, hi) == Clip(v, lo, hi)
  {
  }

  /** The cursor step of a cursor action: 4 pixels along one axis. */
  function CursorStep(action: Action): (r: Point)
    ensures action.CursorUp? || action.CursorDown? || action.CursorLeft? || action.CursorRight? <==> r != Point(0, 0)
    ensures action.CursorUp? ==> r == Point(0, -4)
    ensures action.CursorDown? ==> r == Point(0, 4)
    ensures action.CursorLeft? ==> r == Point(-4, 0)
    ensures action.CursorRight? ==> r == Point(4, 0)
  {
    match action
    case CursorUp => Point(0, -4)
    case CursorDown => Point(0, 4)
    case CursorRight => Point(4, 0)
    case CursorLeft => Point(-4, 0)
    case _ => Point(0, 0)
  }

  /** The cursor moved by `(dx, dy)` and kept on a `width` by `height` screen. */
  function MovedCursor(p: Point, dx: int, dy: int, width: int, height: int): (r: Point)
    ensures width >= 1 && height >= 1 ==> 0 <= r.x < width && 0 <= r.y < height
    ensures 0 <= p.x + dx < width ==> r.x == p.x + dx
    ensures 0 <= p.y + dy < height ==> r.y == p.y + dy
    ensures p.x + dx < 0 ==> r.x == 0
    ensures p.y + dy < 0 ==> r.y == 0
    ensures 0 <= p.x + dx && width <= p.x + dx ==> r.x == width - 1
    ensures 0 <= p.y + dy && height <= p.y + dy ==> r.y == height - 1
  {
    Point(Clip(p.x + dx, 0, width - 1), Clip(p.y + dy, 0, height - 1))
  }

  /** The cheat index after one key-up while cheat mode is off: one step further on the next letter, else back to 0. */
  function CheatStep(index: nat, key: char): (r: nat)
    ensures r <= CHEAT_ACTIVE
    ensures r == 0 || r == index + 1
    ensures r == index + 1 <==> index < CHEAT_ACTIVE && key == CHEAT_CODE[index]
  {
    if index < CHEAT_ACTIVE && key == CHEAT_CODE[index] then index + 1 else 0
  }

  /** The cheat index after a key-up: unchanged once cheat mode is on, otherwise a `CheatStep`. */
  function KeyUp(index: nat, key: char): (r: nat)
    ensures index == CHEAT_ACTIVE ==> r == CHEAT_ACTIVE
    ensures index != CHEAT_ACTIVE ==> (r == 0 || r == index + 1) && r <= CHEAT_ACTIVE
    ensures index != CHEAT_ACTIVE ==> (r == index + 1 <==> index < CHEAT_ACTIVE && key == CHEAT_CODE[index])
  {
    if index == CHEAT_ACTIVE then index else CheatStep(index, key)
  }

  /** The cheat index after releasing `keys` in order, from `index`. */
  function CheatAfter(index: nat, keys: string): nat
    decreases |keys|
  {
    if keys == [] then index else KeyUp(CheatAfter(index, keys[..|keys| - 1]), keys[|keys| - 1])
  }

  /** Typing the code from the start switches cheat mode on. */
  lemma TypingTheCodeActivates()
    ensures CheatAfter(0, CHEAT_CODE) == CHEAT_ACTIVE
  {
    assert CheatAfter(0, "g") == 1 by { assert "g"[..0] == ""; }
    assert CheatAfter(0, "go") == 2 by { assert "go"[..1] == "g"; }
    assert CheatAfter(0, "gos") == 3 by { assert "gos"[..2] == "go"; }
    assert CheatAfter(0, "gosa") == 4 by { assert "gosa"[..3] == "gos"; }
    assert CheatAfter(0, "gosan") == 5 by { assert "gosan"[..4] == "gosa"; }
    assert CheatAfter(0, "gosant") == 6 by { assert "gosant"[..5] == "gosan"; }
    assert CHEAT_CODE[..6] == "gosant";
  }

  /** A wrong `g` in the middle of the code starts over at 0, not at 1. */
  lemma StrayGRestarts()
    ensures CheatAfter(0, "gg") == 0 && CheatAfter(0, "ggo") == 0
  {
    assert "gg"[..1] == "g";
    assert "ggo"[..2] == "gg";
  }

  /** Once cheat mode is on, no key switches it off. */
  lemma {:induction false} ActiveStaysActive(keys: string)
    ensures CheatAfter(CHEAT_ACTIVE, keys) == CHEAT_ACTIVE
    decreases |keys|
  {
    if keys != [] {
      ActiveStaysActive(keys[..|keys| - 1]);
    }
  }

  /** The whole code was released in a row from position `i` of `keys`. */
  predicate CodeAt(keys: string, i: nat)
  {
    i + |CHEAT_CODE| <= |keys| && keys[i..i + |CHEAT_CODE|] == CHEAT_CODE
  }

  /**
   * What the cheat index means: below 7, the last keys released are the
   * first `index` letters of the code; at 7, the code was typed in a row.
   */
  lemma {:induction false} CheatIndexMeaning(keys: string)
    ensures var n := CheatAfter(0, keys);
            && n <= CHEAT_ACTIVE
            && (n < CHEAT_ACTIVE ==> n <= |keys| && keys[|keys| - n..] == CHEAT_CODE[..n])
            && (n == CHEAT_ACTIVE ==> exists i: nat :: CodeAt(keys, i))
    decreases |keys|
  {
    assert |CHEAT_CODE| == 7;
    if keys != [] {
      var front := keys[..|keys| - 1];
      var key := keys[|keys| - 1];
      CheatIndexMeaning(front);
      var m := CheatAfter(0, front);
      if m == CHEAT_ACTIVE {
        var i: nat :| CodeAt(front, i);
        assert keys[i..i + 7] == front[i..i + 7];
        assert CodeAt(keys, i);
      } else if key == CHEAT_CODE[m] {
        assert keys[|keys| - (m + 1)..] == front[|front| - m..] + [key];
        assert CHEAT_CODE[..m + 1] == CHEAT_CODE[..m] + [CHEAT_CODE[m]];
        if m + 1 == CHEAT_ACTIVE {
          assert keys[|keys| - 7..|keys| - 7 + 7] == keys[|keys| - 7..];
          assert CHEAT_CODE[..7] == CHEAT_CODE;
          assert CodeAt(keys, |keys| - 7);
        }
      }
    }
  }

  /** Masks `a`, `b` and `c` have a common bit exactly when their bitwise and is not 0. */
  lemma CommonBit(a: Mask, b: Mask, c: Mask)
    ensures a * (b * c) != {} <==> exists i :: i in a && i in b && i in c
  {
    if a * (b * c) != {} {
      var i :| i in a * (b * c);
      assert i in a && i in b && i in c;
    } else {
      forall i | i in a && i in b
        ensures i !in c
      {
        assert i !in a * (b * c);
      }
    }
  }

  /** One input event: a bit mask and the mappings that trigger it. */
  class InputEvent {
    var bitMask: Mask
    var keyMap: seq<KeyMapping>

    constructor ()
      ensures bitMask == {} && keyMap == []
    {
      bitMask := {};
      keyMap := [];
    }

    method SetBitMask(mask: Mask)
      modifies this`bitMask
      ensures bitMask == mask
    {
      bitMask := mask;
    }

    /** `KeyMap::add`: a new mapping, up. */
    method Add(action: Action, mouseButton: Mask)
      modifies this`keyMap
      ensures keyMap == old(keyMap) + [KeyMapping(action, mouseButton, false)]
    {
      keyMap := keyMap + [KeyMapping(action, mouseButton, false)];
    }

    /** `addKey`: a mapping for an action and no mouse button. */
    method AddKey(action: Action)
      modifies this`keyMap
      ensures keyMap == old(keyMap) + [KeyMapping(action, MOUSE_NONE, false)]
    {
      Add(action, MOUSE_NONE);
    }

    /** `addMouseButton`: a mapping for a mouse button and no action. */
    method AddMouseButton(mouseButton: Mask)
      modifies this`keyMap
      ensures keyMap == old(keyMap) + [KeyMapping(ActionNone, mouseButton, false)]
    {
      Add(ActionNone, mouseButton);
    }

    /**
     * `handle`: every matching mapping takes the event's up or down state;
     * the result is the mask when some mapping went from up to down, else 0.
     */
    method Handle(action: Action, mouseButton: Mask, down: bool) returns (newKeys: Mask)
      modifies this`keyMap
      ensures keyMap == HandledAll(old(keyMap), action, mouseButton, down)
      ensures newKeys == if AnyFires(old(keyMap), action, mouseButton, down) then bitMask else {}
    {
      newKeys := {};
      ghost var before := keyMap;
      for i := 0 to |keyMap|
        invariant |keyMap| == |before|
        invariant forall j :: 0 <= j < i ==> keyMap[j] == Handled(before[j], action, mouseButton, down)
        invariant forall j :: i <= j < |keyMap| ==> keyMap[j] == before[j]
        invariant newKeys == if exists j :: 0 <= j < i && Fires(before[j], action, mouseButton, down) then bitMask else {}
      {
        var k := keyMap[i];
        if Matches(k, action, mouseButton) {
          if down && !k.down {
            newKeys := newKeys + bitMask;
            keyMap := keyMap[i := k.(down := true)];
          } else if !down {
            keyMap := keyMap[i := k.(down := false)];
          }
        }
      }
      assert keyMap == HandledAll(before, action, mouseButton, down);
    }
  }

  /** The engine's input state. */
  class Input {
    var buttonStates: Mask
    var newButtons: Mask
    var buttonsDown: Mask
    var newKeys: Mask
    var enabledButtons: Mask
    var cursorPos: Point
    var prevCursorPos: Point
    var cursorMovedByKeyboard: bool
    var cheatCodeIndex: nat
    /** One event per engine event number. */
    const inputEvents: seq<InputEvent>
    /** The screen size the cursor is kept on. */
    const screenWidth: int
    const screenHeight: int

    /** The events are distinct objects. */
    predicate Distinct()
    {
      forall i, j :: 0 <= i < j < |inputEvents| ==> inputEvents[i] != inputEvents[j]
    }

    /** The masks the events before `n` yield on an event, from their key maps. */
    ghost function Fired(action: Action, mouseButton: Mask, down: bool, n: nat): Mask
      reads inputEvents
      requires n <= |inputEvents|
    {
      if n == 0 then {}
      else Fired(action, mouseButton, down, n - 1) +
           (if AnyFires(inputEvents[n - 1].keyMap, action, mouseButton, down) then inputEvents[n - 1].bitMask else {})
    }

    constructor (eventCount: nat, width: int, height: int)
      ensures Distinct() && |inputEvents| == eventCount
      ensures forall i :: 0 <= i < eventCount ==>
                fresh(inputEvents[i]) && inputEvents[i].bitMask == {} && inputEvents[i].keyMap == []
      ensures screenWidth == width && screenHeight == height
      ensures buttonStates == {} && newButtons == {} && buttonsDown == {} && newKeys == {}
      ensures enabledButtons == ALL_BUTTONS
      ensures cursorPos == Point(0, 0) && prevCursorPos == Point(0, 0)
      ensures !cursorMovedByKeyboard && cheatCodeIndex == 0
    {
      var events: seq<InputEvent> := [];
      while |events| < eventCount
        invariant |events| <= eventCount
        invariant forall i :: 0 <= i < |events| ==> fresh(events[i]) && events[i].bitMask == {} && events[i].keyMap == []
        invariant forall i, j :: 0 <= i < j < |events| ==> events[i] != events[j]
      {
        var e := new InputEvent();
        events := events + [e];
      }
      inputEvents := events;
      screenWidth, screenHeight := width, height;
      buttonStates, newButtons, buttonsDown, newKeys := {}, {}, {}, {};
      enabledButtons := ALL_BUTTONS;
      cursorPos, prevCursorPos := Point(0, 0), Point(0, 0);
      cursorMovedByKeyboard := false;
      cheatCodeIndex := 0;
    }

    /** A mouse move puts the cursor where the mouse is, no longer moved by keyboard. */
    method MouseMove(x: int, y: int)
      modifies this`cursorPos, this`cursorMovedByKeyboard
      ensures cursorPos == Point(x, y) && !cursorMovedByKeyboard
    {
      cursorMovedByKeyboard := false;
      cursorPos := Point(x, y);
    }

    /** `lookButtonStates`: some bit of `mask` is pressed and enabled. */
    function LookButtonStates(mask: Mask): (r: bool)
      reads this`buttonStates, this`enabledButtons
      ensures r <==> exists b :: b in mask && b in buttonStates && b in enabledButtons
    {
      CommonBit(mask, buttonStates, enabledButtons);
      mask * (buttonStates * enabledButtons) != {}
    }

    /** `lookNewButtons`: some bit of `mask` was newly pressed and is enabled. */
    function LookNewButtons(mask: Mask): (r: bool)
      reads this`newButtons, this`enabledButtons
      ensures r <==> exists b :: b in mask && b in newButtons && b in enabledButtons
    {
      CommonBit(mask, newButtons, enabledButtons);
      mask * (newButtons * enabledButtons) != {}
    }

    /** Cheat mode is on once the whole code was typed; no key-up changes the index then. */
    function IsCheatModeActive(): (r: bool)
      reads this`cheatCodeIndex
      ensures r <==> cheatCodeIndex == |CHEAT_CODE|
      ensures r ==> forall key :: KeyUp(cheatCodeIndex, key) == cheatCodeIndex
    {
      cheatCodeIndex == CHEAT_ACTIVE
    }

    /** A bit that is pressed and enabled is seen through any mask holding it. */
    lemma LookSeesEnabledPress(mask: Mask, bit: BitIndex)
      requires bit in mask && bit in buttonStates && bit in enabledButtons
      ensures LookButtonStates(mask)
    {
      assert bit in mask * (buttonStates * enabledButtons);
    }

    /** A disabled bit is never seen. */
    lemma LookIgnoresDisabled(mask: Mask)
      requires mask * enabledButtons == {}
      ensures !LookButtonStates(mask) && !LookNewButtons(mask)
    {
      assert mask * (buttonStates * enabledButtons) <= mask * enabledButtons;
      assert mask * (newButtons * enabledButtons) <= mask * enabledButtons;
    }

    method SetCheatModeActive(active: bool)
      modifies this`cheatCodeIndex
      ensures IsCheatModeActive() == active
      ensures cheatCodeIndex == if active then CHEAT_ACTIVE else 0
    {
      cheatCodeIndex := if active then CHEAT_ACTIVE else 0;
    }

    /** `handleKey`: only key-ups count, and only while cheat mode is off. */
    method HandleKey(key: char, mouseButton: Mask, down: bool)
      modifies this`cheatCodeIndex
      ensures down || old(IsCheatModeActive()) ==> cheatCodeIndex == old(cheatCodeIndex)
      ensures !down ==> cheatCodeIndex == KeyUp(old(cheatCodeIndex), key)
    {
      if !down && !IsCheatModeActive() {
        if cheatCodeIndex < CHEAT_ACTIVE && key == CHEAT_CODE[cheatCodeIndex] {
          cheatCodeIndex := cheatCodeIndex + 1;
        } else {
          cheatCodeIndex := 0;
        }
      }
    }

    /** `moveCursorByKeyboard`: the cursor moves and stays on the screen. */
    method MoveCursorByKeyboard(dx: int, dy: int)
      modifies this`cursorPos, this`cursorMovedByKeyboard
      ensures cursorMovedByKeyboard
      ensures cursorPos == MovedCursor(old(cursorPos), dx, dy, screenWidth, screenHeight)
    {
      cursorMovedByKeyboard := true;
      cursorPos := Point(Clip(cursorPos.x + dx, 0, screenWidth - 1), Clip(cursorPos.y + dy, 0, screenHeight - 1));
    }

    /**
     * `handleAction`: a cursor action moves the cursor; then every event
     * handles the action, and the masks of those that fired are added to
     * the button states. The new buttons are exactly the bits this added.
     */
    method HandleAction(action: Action, mouseButton: Mask, down: bool)
      requires Distinct()
      modifies this`buttonStates, this`newButtons, this`newKeys, this`cursorPos, this`cursorMovedByKeyboard, inputEvents
      ensures CursorStep(action) != Point(0, 0) ==>
                cursorMovedByKeyboard &&
                cursorPos == MovedCursor(old(cursorPos), CursorStep(action).x, CursorStep(action).y, screenWidth, screenHeight)
      ensures CursorStep(action) == Point(0, 0) ==>
                cursorMovedByKeyboard == old(cursorMovedByKeyboard) && cursorPos == old(cursorPos)
      ensures forall i :: 0 <= i < |inputEvents| ==>
                inputEvents[i].bitMask == old(inputEvents[i].bitMask) &&
                inputEvents[i].keyMap == HandledAll(old(inputEvents[i].keyMap), action, mouseButton, down)
      ensures buttonStates == old(buttonStates) + old(newKeys) + old(Fired(action, mouseButton, down, |inputEvents|))
      ensures old(buttonStates) <= buttonStates
      ensures newButtons == buttonStates - old(buttonStates)
      ensures newKeys == {}
    {
      match action {
        case CursorUp => MoveCursorByKeyboard(0, -4);
        case CursorDown => MoveCursorByKeyboard(0, 4);
        case CursorRight => MoveCursorByKeyboard(4, 0);
        case CursorLeft => MoveCursorByKeyboard(-4, 0);
        case _ =>
      }
      HandleEvents(action, mouseButton, down);
      var prevButtonStates := buttonStates;
      buttonStates := buttonStates + newKeys;
      newKeys := {};
      newButtons := buttonStates - prevButtonStates;
    }

    /** The loop of `handleAction` over the events, collecting the fired masks in `newKeys`. */
    method HandleEvents(action: Action, mouseButton: Mask, down: bool)
      requires Distinct()
      modifies this`newKeys, inputEvents
      ensures forall i :: 0 <= i < |inputEvents| ==>
                inputEvents[i].bitMask == old(inputEvents[i].bitMask) &&
                inputEvents[i].keyMap == HandledAll(old(inputEvents[i].keyMap), action, mouseButton, down)
      ensures newKeys == old(newKeys) + old(Fired(action, mouseButton, down, |inputEvents|))
    {
      for i := 0 to |inputEvents|
        invariant forall j :: 0 <= j < |inputEvents| ==> inputEvents[j].bitMask == old(inputEvents[j].bitMask)
        invariant forall j :: 0 <= j < i ==>
                    inputEvents[j].keyMap == HandledAll(old(inputEvents[j].keyMap), action, mouseButton, down)
        invariant forall j :: i <= j < |inputEvents| ==> inputEvents[j].keyMap == old(inputEvents[j].keyMap)
        invariant newKeys == old(newKeys) + old(Fired(action, mouseButton, down, i))
      {
        var fired := inputEvents[i].Handle(action, mouseButton, down);
        newKeys := newKeys + fired;
      }
    }

    /** `handleMouseButton`: the button's bit is set or cleared in `buttonsDown`, then the events handle it. */
    method HandleMouseButton(mouseButton: Mask, down: bool)
      requires Distinct()
      modifies this`buttonStates, this`newButtons, this`newKeys, this`buttonsDown, this`cursorPos,
               this`cursorMovedByKeyboard, inputEvents
      ensures buttonsDown == if down then old(buttonsDown) + mouseButton else old(buttonsDown) - mouseButton
      ensures cursorPos == old(cursorPos) && cursorMovedByKeyboard == old(cursorMovedByKeyboard)
      ensures forall i :: 0 <= i < |inputEvents| ==>
                inputEvents[i].bitMask == old(inputEvents[i].bitMask) &&
                inputEvents[i].keyMap == HandledAll(old(inputEvents[i].keyMap), ActionNone, mouseButton, down)
      ensures buttonStates == old(buttonStates) + old(newKeys) + old(Fired(ActionNone, mouseButton, down, |inputEvents|))
      ensures newButtons == buttonStates - old(buttonStates)
      ensures newKeys == {}
    {
      if down {
        buttonsDown := buttonsDown + mouseButton;
      } else {
        buttonsDown := buttonsDown - mouseButton;
      }
      HandleAction(ActionNone, mouseButton, down);
    }

    /** `pollButton`: if `mask` is pressed and enabled, release all of its bits and say so. */
    method PollButton(mask: Mask) returns (r: bool)
      modifies this`buttonStates
      ensures r == old(LookButtonStates(mask))
      ensures r ==> buttonStates == old(buttonStates) - mask
      ensures !r ==> buttonStates == old(buttonStates)
    {
      if LookButtonStates(mask) {
        buttonStates := buttonStates - mask;
        return true;
      }
      return false;
    }

    /** `setButtonState`: press the enabled bits of `mask`, and only those. */
    method SetButtonState(mask: Mask)
      modifies this`buttonStates
      ensures old(buttonStates) <= buttonStates
      ensures buttonStates - old(buttonStates) <= enabledButtons * mask
      ensures enabledButtons * mask <= buttonStates
    {
      buttonStates := buttonStates + enabledButtons * mask;
    }

    /** `discardButtons`: release the bits of `mask`, keep the others. */
    method DiscardButtons(mask: Mask)
      modifies this`buttonStates
      ensures buttonStates * mask == {}
      ensures buttonStates == old(buttonStates) - mask
    {
      buttonStates := buttonStates - mask;
    }

    /** `discardAllEvents`: release the sixteen button bits. */
    method DiscardAllEvents()
      modifies this`buttonStates
      ensures buttonStates * ALL_BUTTONS == {}
      ensures buttonStates == old(buttonStates) - ALL_BUTTONS
    {
      DiscardButtons(ALL_BUTTONS);
    }

    /** `activateButton`: enable the bits of `mask` and release them. */
    method ActivateButton(mask: Mask)
      modifies this`enabledButtons, this`buttonStates
      ensures enabledButtons == old(enabledButtons) + mask
      ensures buttonStates == old(buttonStates) - mask
      ensures !LookButtonStates(mask)
    {
      enabledButtons := enabledButtons + mask;
      buttonStates := buttonStates - mask;
    }

    /** `deactivateButton`: disable the bits of `mask`; what is pressed stays pressed. */
    method DeactivateButton(mask: Mask)
      modifies this`enabledButtons
      ensures enabledButtons == old(enabledButtons) - mask
      ensures !LookButtonStates(mask) && !LookNewButtons(mask)
    {
      enabledButtons := enabledButtons - mask;
      LookIgnoresDisabled(mask);
    }

    /** `setCursorPosition`: current and previous position both become `p`. */
    method SetCursorPosition(p: Point)
      modifies this`cursorPos, this`prevCursorPos
      ensures cursorPos == p && prevCursorPos == p
    {
      cursorPos := p;
      prevCursorPos := p;
    }

    /**
     * `getCursorDelta`: previous minus current position; the previous
     * position then catches up, so the next delta is zero until the cursor
     * moves.
     */
    method GetCursorDelta() returns (delta: Point)
      modifies this`prevCursorPos
      ensures delta.x + cursorPos.x == old(prevCursorPos).x && delta.y + cursorPos.y == old(prevCursorPos).y
      ensures prevCursorPos == cursorPos
    {
      delta := Point(prevCursorPos.x - cursorPos.x, prevCursorPos.y - cursorPos.y);
      prevCursorPos := cursorPos;
    }
  }
}
