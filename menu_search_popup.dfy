/**
 * The keyboard and search state machine of the searchable pop-up menu.
 *
 * The widget's state is a value, `Popup`, and every operation is first
 * defined as a function on that value (`Searched`, `InputEvent`,
 * `PickEffect`). The class `MenuSearchPopup` holds the same fields and
 * updates them in place, step by step as the widget does; each of its
 * methods is proved to leave the object in the state the function
 * computes. What the functions promise is proved in MenuSearchProperties.
 */
module MenuSearch {
  import opened TextMatch

  datatype Option<T> = None | Some(value: T)

  // Event type names the popup reacts to.
  const Del := "DEL"
  const BackSpace := "BACK_SPACE"
  const NumpadPlus := "NUMPAD_PLUS"
  const NumpadMinus := "NUMPAD_MINUS"
  const DownArrow := "DOWN_ARROW"
  const UpArrow := "UP_ARROW"
  const Space := "SPACE"

  /** The editing and navigation keys, handled before any typing. */
  const Actions: set<string> := {Del, BackSpace, NumpadPlus, NumpadMinus, DownArrow, UpArrow}

  /** The typing keys, and the character each one types without shift (same position). */
  const Alphabet: string := "ABCDEFGHIJKLMNOPQRSTUVWXYZ "
  const AlphabetLower: string := "abcdefghijklmnopqrstuvwxyz "

  /** NUMPAD_MINUS never shrinks the text below this size. */
  const MinTextSize := 12

  // Values the widget starts with.
  const InitialTextSize := 18
  const InitialMaxStrLen := 20

  /** One key event: its type name, whether it is a press, and whether shift is held. */
  datatype Event = Event(kind: string, press: bool, shift: bool)

  /**
   * The sizes pick_mouse measures with. The widget derives box height,
   * width and height from font metrics; here they are given.
   */
  datatype Layout = Layout(boxHeight: real, width: real, height: real, border: real, spacer: real)

  /** The state of the widget: its top-centre anchor and the six search fields. */
  datatype Popup = Popup(
    x: real, y: real,
    textSize: int,
    inputString: string,
    maxStrLen: int,
    items: seq<string>,
    filterItems: seq<string>,
    filterItemIndex: int)

  /** A freshly opened popup at (x, y) over the given menu entries. */
  function Initial(x: real, y: real, items: seq<string>): (p: Popup)
    ensures p.inputString == [] && p.filterItems == [] && p.filterItemIndex == 0
    ensures p.items == items && p.x == x && p.y == y
  {
    Popup(x, y, InitialTextSize, "", InitialMaxStrLen, items, [], 0)
  }

  // ---------------------------------------------------------------------
  // Searching

  /**
   * Whether the search keeps `item` for the lower-cased query `q`: the
   * item starts with the query, or the item itself occurs inside the
   * query (not the query inside the item).
   */
  predicate Keeps(item: string, q: string): (r: bool)
    ensures r <==> q <= item || IsSubstring(item, q)
  {
    q <= item || Contains(q, item)
  }

  /** The entries of `items` that `Keeps` accepts, in their original order. */
  function FilterMatching(items: seq<string>, q: string): (r: seq<string>)
    ensures |r| <= |items|
    ensures forall k :: 0 <= k < |r| ==> Keeps(r[k], q)
    ensures forall k :: 0 <= k < |r| ==> r[k] in items
    decreases |items|
  {
    if items == [] then []
    else
      var front := items[..|items| - 1];
      var last := items[|items| - 1];
      var rest := FilterMatching(front, q);
      assert forall k :: 0 <= k < |rest| ==> rest[k] in items by {
        forall k | 0 <= k < |rest| ensures rest[k] in items {
          var j :| 0 <= j < |front| && front[j] == rest[k];
          assert items[j] == rest[k];
        }
      }
      if q <= last then rest + [last]
      else if Contains(q, last) then rest + [last]
      else rest
  }

  /** What search_items leaves in filter_items for the given entries and typed text. */
  function SearchResult(items: seq<string>, input: string): (r: seq<string>)
    ensures input == [] ==> r == []
    ensures forall k :: 0 <= k < |r| ==> Keeps(r[k], Lower(input)) && r[k] in items
  {
    if |input| == 0 then [] else FilterMatching(items, Lower(input))
  }

  /** The popup after search_items: only the filtered list is rebuilt. */
  function Searched(p: Popup): (r: Popup)
    ensures r.filterItems == SearchResult(p.items, p.inputString)
    ensures r.(filterItems := p.filterItems) == p
  {
    p.(filterItems := SearchResult(p.items, p.inputString))
  }

  // ---------------------------------------------------------------------
  // Key events

  /** A typing key is a one-character type name found in `Alphabet`. */
  predicate IsTypingKey(kind: string) {
    |kind| == 1 && kind[0] in Alphabet
  }

  /** The first position of `c` in `s`, as a list's index lookup finds it. */
  function IndexOf(s: string, c: char): (i: nat)
    requires c in s
    ensures i < |s| && s[i] == c
    ensures c !in s[..i]
  {
    if s[0] == c then 0
    else
      var i := IndexOf(s[1..], c);
      assert s[..i + 1] == [s[0]] + s[1..][..i];
      i + 1
  }

  /** Position by position, the lower-case alphabet is the lower-casing of the alphabet. */
  lemma AlphabetsPaired()
    ensures |AlphabetLower| == |Alphabet|
    ensures forall j :: 0 <= j < |Alphabet| ==> AlphabetLower[j] == LowerChar(Alphabet[j])
  {
    forall j | 0 <= j < |Alphabet| ensures AlphabetLower[j] == LowerChar(Alphabet[j]) {
      if j < 9 {
        assert j in {0, 1, 2, 3, 4, 5, 6, 7, 8};
      } else if j < 18 {
        assert j in {9, 10, 11, 12, 13, 14, 15, 16, 17};
      } else {
        assert j in {18, 19, 20, 21, 22, 23, 24, 25, 26};
      }
    }
  }

  /**
   * The character a typing key appends: the key itself under shift, else
   * its partner at the same position of the lower-case alphabet, which is
   * its lower-casing.
   */
  function TypedChar(kind: string, shift: bool): (r: char)
    requires IsTypingKey(kind)
    ensures r == if shift then kind[0] else LowerChar(kind[0])
  {
    AlphabetsPaired();
    if shift then kind[0] else AlphabetLower[IndexOf(Alphabet, kind[0])]
  }

  /** Appends one character to the typed text and searches again. */
  function Typed(p: Popup, c: char): (r: Popup)
    ensures r.inputString == p.inputString + [c]
    ensures r.filterItems == SearchResult(p.items, r.inputString)
    ensures r.(inputString := p.inputString, filterItems := p.filterItems) == p
  {
    Searched(p.(inputString := p.inputString + [c]))
  }

  /**
   * A pressed action key (one of `Actions`); the checks run one after
   * another. Only DEL and BACK_SPACE touch the text, and only by dropping
   * its end; only the arrows move the selection; only the numpad keys
   * change the text size.
   */
  function ActionKey(p: Popup, kind: string): (r: Popup)
    ensures r.x == p.x && r.y == p.y && r.items == p.items && r.maxStrLen == p.maxStrLen
    ensures r.inputString <= p.inputString
    ensures r.filterItems == p.filterItems || r.filterItems == SearchResult(r.items, r.inputString)
    ensures r.inputString != p.inputString ==> kind in {Del, BackSpace}
    ensures r.inputString != p.inputString ==>
      |r.inputString| == |p.inputString| - 1 && r.filterItems == SearchResult(r.items, r.inputString)
    ensures r.filterItemIndex != p.filterItemIndex ==> kind in {DownArrow, UpArrow}
    ensures r.textSize != p.textSize ==> kind in {NumpadPlus, NumpadMinus}
  {
    var p1 :=
      if kind in {Del, BackSpace} && |p.inputString| > 0 then
        Searched(p.(inputString := p.inputString[..|p.inputString| - 1]))
      else p;
    var p2 :=
      if kind == DownArrow && p1.filterItemIndex < |p1.filterItems| - 1 then
        p1.(filterItemIndex := p1.filterItemIndex + 1)
      else p1;
    var p3 :=
      if kind == UpArrow && p2.filterItemIndex > 0 then
        p2.(filterItemIndex := p2.filterItemIndex - 1)
      else p2;
    var p4 :=
      if kind == NumpadPlus then p3.(textSize := p3.textSize + 1) else p3;
    if kind == NumpadMinus && p4.textSize > MinTextSize then
      p4.(textSize := p4.textSize - 1)
    else p4
  }

  /**
   * The popup after modal_input_event: action keys first, then typing keys
   * (while the text is shorter than max_str_len), then SPACE (always).
   * Only pressed events do anything.
   */
  function InputEvent(p: Popup, e: Event): (r: Popup)
    ensures r.x == p.x && r.y == p.y && r.items == p.items && r.maxStrLen == p.maxStrLen
    ensures !e.press ==> r == p
  {
    var p1 := if e.kind in Actions && e.press then ActionKey(p, e.kind) else p;
    var p2 :=
      if IsTypingKey(e.kind) && |p1.inputString| < p1.maxStrLen && e.press then
        Typed(p1, TypedChar(e.kind, e.shift))
      else p1;
    if e.kind == Space && e.press then Typed(p2, ' ') else p2
  }

  // ---------------------------------------------------------------------
  // Mouse picking

  /**
   * The vertical distance from one list row to the next. The widget's
   * spacer is positive and its box height is never negative, so the rows
   * never collapse.
   */
  function RowHeight(l: Layout): (r: real)
    ensures l.boxHeight >= 0.0 && l.spacer > 0.0 ==> r >= 2.0 * l.spacer > 0.0
  {
    l.boxHeight + 2.0 * l.spacer
  }

  /** The y-coordinate of the top of the first list row, below the search box. */
  function ItemsTop(y: real, l: Layout): real {
    y - l.border - l.boxHeight - 3.0 * l.spacer
  }

  /**
   * The row index pick_mouse selects for a click at (mouseX, mouseY) on a
   * popup anchored at (x, y), or None when it returns without selecting.
   * The two bounds tests are kept as written: `not a < b and c > d` reads
   * `(not a < b) and (c > d)`, so only a click at or beyond the right edge
   * (and right of the left edge), or at or above the top (and above the
   * bottom), is turned away. The index is not bounded by the list length.
   */
  function Pick(x: real, y: real, l: Layout, mouseX: real, mouseY: real): (r: Option<int>)
    requires RowHeight(l) > 0.0
    ensures r.Some? ==> r.value >= 0 && mouseY <= ItemsTop(y, l)
    ensures mouseY > ItemsTop(y, l) ==> r == None
  {
    var left := x - l.width / 2.0;
    var right := left + l.width;
    var bottom := y - l.height;
    var top := y;
    if !(mouseX < right) && mouseX > left then None
    else if !(mouseY < top) && mouseY > bottom then None
    else
      var dist := ItemsTop(y, l) - mouseY;
      if dist < 0.0 then None
      else
        assert dist / RowHeight(l) >= 0.0;
        Some((dist / RowHeight(l)).Floor)
  }

  /** The popup after pick_mouse: the picked row, if any, becomes the selection. */
  function PickEffect(p: Popup, l: Layout, mouseX: real, mouseY: real): (r: Popup)
    requires RowHeight(l) > 0.0
    ensures r.(filterItemIndex := p.filterItemIndex) == p
    ensures r.filterItemIndex == p.filterItemIndex || r.filterItemIndex >= 0
  {
    match Pick(p.x, p.y, l, mouseX, mouseY)
    case None => p
    case Some(i) => p.(filterItemIndex := i)
  }

  // ---------------------------------------------------------------------
  // The widget object

  class MenuSearchPopup {
    var x: real
    var y: real
    var textSize: int
    var inputString: string
    var maxStrLen: int
    var items: seq<string>
    var filterItems: seq<string>
    var filterItemIndex: int

    /** The object's fields as a `Popup` value. */
    function State(): Popup
      reads this
    {
      Popup(x, y, textSize, inputString, maxStrLen, items, filterItems, filterItemIndex)
    }

    constructor (x: real, y: real, items: seq<string>)
      ensures State() == Initial(x, y, items)
    {
      this.x := x;
      this.y := y;
      textSize := InitialTextSize;
      inputString := "";
      maxStrLen := InitialMaxStrLen;
      this.items := items;
      filterItems := [];
      filterItemIndex := 0;
    }

    /** search_items: clears the filtered list and refills it, entry by entry. */
    method SearchItems()
      modifies this
      ensures State() == Searched(old(State()))
    {
      filterItems := [];
      if |inputString| == 0 {
        return;
      }
      var q := Lower(inputString);
      var i := 0;
      while i < |items|
        invariant 0 <= i <= |items|
        invariant filterItems == FilterMatching(items[..i], q)
        invariant State() == old(State()).(filterItems := filterItems)
      {
        var menuItem := items[i];
        assert items[..i + 1][..i] == items[..i];
        if q <= menuItem {
          filterItems := filterItems + [menuItem];
        } else if Contains(q, menuItem) {
          filterItems := filterItems + [menuItem];
        }
        i := i + 1;
      }
      assert items[..i] == items;
    }

    /** modal_input_event: reacts to one key event. */
    method ModalInputEvent(e: Event)
      modifies this
      ensures State() == InputEvent(old(State()), e)
    {
      ghost var p0 := State();
      var letter := e.kind;
      if letter in Actions && e.press {
        ActionKeyEvent(letter);
      }
      ghost var p1 := State();
      assert p1 == if letter in Actions && e.press then ActionKey(p0, letter) else p0;
      if IsTypingKey(letter) && |inputString| < maxStrLen && e.press {
        if e.shift {
          assert letter == [letter[0]];
          inputString := inputString + letter;
        } else {
          var ind := IndexOf(Alphabet, letter[0]);
          inputString := inputString + [AlphabetLower[ind]];
        }
        SearchItems();
        assert State() == Typed(p1, TypedChar(letter, e.shift));
      }
      ghost var p2 := State();
      assert p2 == if IsTypingKey(letter) && |p1.inputString| < p1.maxStrLen && e.press
        then Typed(p1, TypedChar(letter, e.shift)) else p1;
      if letter == Space && e.press {
        inputString := inputString + " ";
        SearchItems();
        assert State() == Typed(p2, ' ');
      }
    }

    /** The part of modal_input_event that handles a pressed action key. */
    method ActionKeyEvent(letter: string)
      modifies this
      ensures State() == ActionKey(old(State()), letter)
    {
      if letter in {Del, BackSpace} {
        if |inputString| > 0 {
          inputString := inputString[..|inputString| - 1];
          SearchItems();
        }
      }
      if letter == DownArrow {
        if filterItemIndex < |filterItems| - 1 {
          filterItemIndex := filterItemIndex + 1;
        }
      }
      if letter == UpArrow {
        if filterItemIndex > 0 {
          filterItemIndex := filterItemIndex - 1;
        }
      }
      if letter == NumpadPlus {
        textSize := textSize + 1;
      }
      if letter == NumpadMinus {
        if textSize > MinTextSize {
          textSize := textSize - 1;
        }
      }
    }

    /**
     * pick_mouse: selects the row under a click; `picked` is true exactly
     * when the widget returns True.
     */
    method PickMouse(mouseX: real, mouseY: real, l: Layout) returns (picked: bool)
      requires RowHeight(l) > 0.0
      modifies this
      ensures picked <==> Pick(old(x), old(y), l, mouseX, mouseY).Some?
      ensures State() == PickEffect(old(State()), l, mouseX, mouseY)
    {
      var left := x - l.width / 2.0;
      var right := left + l.width;
      var bottom := y - l.height;
      var top := y;
      if !(mouseX < right) && mouseX > left {
        return false;
      }
      if !(mouseY < top) && mouseY > bottom {
        return false;
      }
      var itemsTop := y - l.border - l.boxHeight - 3.0 * l.spacer;
      var dist := itemsTop - mouseY;
      if dist < 0.0 {
        return false;
      }
      var ind := (dist / (l.boxHeight + 2.0 * l.spacer)).Floor;
      filterItemIndex := ind;
      return true;
    }
  }
}
