/**
 * The on-screen button list of the Labyrinth of Time engine: creating and
 * freeing buttons, drawing a list, and matching a key press or a mouse
 * click against the attached list. Drawing and delays are left out; a
 * button keeps only what the matching rules look at.
 */
module LabInterface {
  /** A 16-bit unsigned value. */
  type U16 = i: int | 0 <= i < 0x1_0000

  /** Key codes of the digits and of "no key". */
  const KEYCODE_INVALID := 0
  const KEYCODE_0 := '0' as int

  /** The button id the key '0' selects. */
  const ZERO_KEY_BUTTON_ID := 9

  datatype Point = Point(x: int, y: int)

  /** A rectangle by its left, top, right and bottom coordinates. */
  datatype Rect = Rect(left: int, top: int, right: int, bottom: int)

  class Button {
    const x: int
    const y: int
    const buttonId: U16
    const keyEquiv: int
    /** Width and height of the button's image. */
    const width: int
    const height: int
    var isEnabled: bool

    constructor(x: int, y: int, buttonId: U16, keyEquiv: int, width: int, height: int)
      ensures this.x == x && this.y == y && this.buttonId == buttonId && this.keyEquiv == keyEquiv
      ensures this.width == width && this.height == height
      ensures isEnabled
    {
      this.x := x;
      this.y := y;
      this.buttonId := buttonId;
      this.keyEquiv := keyEquiv;
      this.width := width;
      this.height := height;
      isEnabled := true;
    }

    /** The rectangle the source builds, (x, y, x + width - 1, y + height - 1); how its edges count is left to `contains`. */
    function Area(): Rect
    {
      Rect(x, y, x + width - 1, y + height - 1)
    }
  }

  /** A list of buttons owned by one screen. */
  class ButtonList {
    var buttons: seq<Button>

    constructor(buttons: seq<Button>)
      ensures this.buttons == buttons
    {
      this.buttons := buttons;
    }
  }

  /**
   * Whether `key` selects a button with this id and key equivalent: the
   * digit value taken as a 16-bit number, minus one, equals the id; or the
   * key is '0' and the id is 9; or the key equals a valid key equivalent.
   * So the digit keys '1' to '9' select ids 0 to 8 and '0' selects id 9.
   * Other keys match too: a key `k` above '0' selects id `k - '0' - 1`
   * (':' selects 9 like '0'), and one below '0' wraps around 16 bits.
   */
  function NumKeyMatches(key: int, buttonId: U16, keyEquiv: int): (r: bool)
    ensures keyEquiv != KEYCODE_INVALID && key == keyEquiv ==> r
    ensures KEYCODE_0 <= key <= KEYCODE_0 + 9 ==>
              (r <==> buttonId == (if key == KEYCODE_0 then ZERO_KEY_BUTTON_ID else key - KEYCODE_0 - 1)
                      || (keyEquiv != KEYCODE_INVALID && key == keyEquiv))
    ensures KEYCODE_0 < key < KEYCODE_0 + 0x1_0000 ==>
              (r <==> buttonId == key - KEYCODE_0 - 1 || (keyEquiv != KEYCODE_INVALID && key == keyEquiv))
    ensures KEYCODE_0 - 0x1_0000 < key < KEYCODE_0 ==>
              (r <==> buttonId == key - KEYCODE_0 + 0xFFFF || (keyEquiv != KEYCODE_INVALID && key == keyEquiv))
  {
    var gkey := (key - KEYCODE_0) % 0x1_0000;
    gkey - 1 == buttonId
    || (gkey == 0 && buttonId == ZERO_KEY_BUTTON_ID)
    || (keyEquiv != KEYCODE_INVALID && key == keyEquiv)
  }

  /** An enabled button that `key` selects. */
  predicate KeyHit(b: Button, key: int)
    reads b
  {
    b.isEnabled && NumKeyMatches(key, b.buttonId, b.keyEquiv)
  }

  /** An enabled button whose area contains `pos`. */
  predicate PointHit(b: Button, pos: Point, contains: (Rect, Point) -> bool)
    reads b
  {
    contains(b.Area(), pos) && b.isEnabled
  }

  /** The screen's button state: the attached list and the pressed button. */
  class Interface {
    var screenButtonList: ButtonList?
    var hitButton: Button?

    constructor()
      ensures screenButtonList == null && hitButton == null
    {
      screenButtonList := null;
      hitButton := null;
    }

    /** A new enabled button; its x is scaled to the screen. */
    method CreateButton(x: U16, y: U16, id: U16, key: int, width: int, height: int, vgaScaleX: int -> int)
      returns (button: Button)
      ensures fresh(button)
      ensures button.x == vgaScaleX(x) && button.y == y && button.buttonId == id && button.keyEquiv == key
      ensures button.width == width && button.height == height
      ensures button.isEnabled
    {
      button := new Button(vgaScaleX(x), y, id, key, width, height);
    }

    /** Empties a button list. */
    method FreeButtonList(buttonList: ButtonList)
      modifies buttonList
      ensures buttonList.buttons == []
    {
      buttonList.buttons := [];
    }

    /** Draws a button enabled or disabled and records which. */
    method ToggleButton(button: Button, enable: bool)
      modifies button`isEnabled
      ensures button.isEnabled == enable
    {
      button.isEnabled := enable;
    }

    /**
     * Draws every button of the list as written: each is first drawn
     * enabled, which marks it enabled, so the test for a disabled button
     * never holds and every button ends enabled.
     */
    method DrawButtonListAsWritten(buttonList: ButtonList)
      modifies buttonList.buttons
      ensures forall i :: 0 <= i < |buttonList.buttons| ==> buttonList.buttons[i].isEnabled
    {
      var buttons := buttonList.buttons;
      for i := 0 to |buttons|
        invariant forall j :: 0 <= j < i ==> buttons[j].isEnabled
      {
        ToggleButton(buttons[i], true);
        if !buttons[i].isEnabled {
          // The redraw as disabled is unreachable: the button was just enabled.
          assert false;
        }
      }
    }

    /**
     * Draws every button of the list: a button that was disabled is drawn
     * enabled and then disabled again, so every button keeps its state.
     */
    method DrawButtonList(buttonList: ButtonList)
      modifies buttonList.buttons
      ensures forall i :: 0 <= i < |buttonList.buttons| ==>
                buttonList.buttons[i].isEnabled == old(buttonList.buttons[i].isEnabled)
    {
      var buttons := buttonList.buttons;
      for i := 0 to |buttons|
        invariant forall j :: 0 <= j < |buttons| ==> buttons[j].isEnabled == old(buttons[j].isEnabled)
      {
        var wasEnabled := buttons[i].isEnabled;
        ToggleButton(buttons[i], true);
        if !wasEnabled {
          ToggleButton(buttons[i], false);
        }
      }
    }

    /** Attaches the list the hit checks search. */
    method AttachButtonList(buttonList: ButtonList?)
      modifies this`screenButtonList
      ensures screenButtonList == buttonList
    {
      screenButtonList := buttonList;
    }

    /**
     * The first enabled button of the attached list that `key` selects,
     * or null when there is none or no list is attached.
     */
    method CheckNumButtonHit(key: int) returns (r: Button?)
      ensures screenButtonList == null ==> r == null
      ensures screenButtonList != null && r == null ==>
                forall i :: 0 <= i < |screenButtonList.buttons| ==> !KeyHit(screenButtonList.buttons[i], key)
      ensures r != null ==> screenButtonList != null && r.isEnabled
      ensures r != null ==>
                exists i :: 0 <= i < |screenButtonList.buttons| && screenButtonList.buttons[i] == r && KeyHit(r, key)
                  && forall j :: 0 <= j < i ==> !KeyHit(screenButtonList.buttons[j], key)
    {
      if screenButtonList == null {
        return null;
      }
      var buttons := screenButtonList.buttons;
      for i := 0 to |buttons|
        invariant forall j :: 0 <= j < i ==> !KeyHit(buttons[j], key)
      {
        var button := buttons[i];
        if !button.isEnabled {
          continue;
        }
        if NumKeyMatches(key, button.buttonId, button.keyEquiv) {
          return button;
        }
      }
      return null;
    }

    /**
     * The first enabled button of the attached list whose area contains
     * `pos`, recorded as the pressed button; on a miss the pressed button
     * stays as it was.
     */
    method CheckButtonHit(pos: Point, contains: (Rect, Point) -> bool) returns (r: Button?)
      modifies this`hitButton
      ensures screenButtonList == null ==> r == null
      ensures screenButtonList != null && r == null ==>
                forall i :: 0 <= i < |screenButtonList.buttons| ==> !PointHit(screenButtonList.buttons[i], pos, contains)
      ensures r != null ==> screenButtonList != null && r.isEnabled
      ensures r != null ==>
                exists i :: 0 <= i < |screenButtonList.buttons| && screenButtonList.buttons[i] == r
                  && PointHit(r, pos, contains)
                  && forall j :: 0 <= j < i ==> !PointHit(screenButtonList.buttons[j], pos, contains)
      ensures hitButton == if r != null then r else old(hitButton)
    {
      if screenButtonList == null {
        return null;
      }
      var buttons := screenButtonList.buttons;
      for i := 0 to |buttons|
        invariant forall j :: 0 <= j < i ==> !PointHit(buttons[j], pos, contains)
      {
        var button := buttons[i];
        if contains(button.Area(), pos) && button.isEnabled {
          hitButton := button;
          return button;
        }
      }
      return null;
    }

    /** Shows the pressed button pressed and then released, and forgets it. */
    method HandlePressedButton()
      modifies this`hitButton
      ensures hitButton == null
    {
      if hitButton == null {
        return;
      }
      hitButton := null;
    }

    /** The first button of the attached list with this id, enabled or not. */
    method GetButton(id: U16) returns (r: Button?)
      requires screenButtonList != null
      ensures r == null ==> forall i :: 0 <= i < |screenButtonList.buttons| ==> screenButtonList.buttons[i].buttonId != id
      ensures r != null ==>
                exists i :: 0 <= i < |screenButtonList.buttons| && screenButtonList.buttons[i] == r && r.buttonId == id
                  && forall j :: 0 <= j < i ==> screenButtonList.buttons[j].buttonId != id
    {
      var buttons := screenButtonList.buttons;
      for i := 0 to |buttons|
        invariant forall j :: 0 <= j < i ==> buttons[j].buttonId != id
      {
        if buttons[i].buttonId == id {
          return buttons[i];
        }
      }
      return null;
    }
  }
}
