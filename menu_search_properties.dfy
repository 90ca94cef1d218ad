/**
 * What the pop-up menu's operations promise, proved about the functions
 * that define them in MenuSearch (and so about the widget's methods,
 * which are proved to follow those functions).
 */
module MenuSearchProperties {
  import opened TextMatch
  import opened MenuSearch

  // ---------------------------------------------------------------------
  // The object invariant

  /** A character the popup can have typed: a letter of either case, or a space. */
  predicate IsTypedChar(c: char) {
    c in Alphabet || c in AlphabetLower
  }

  /**
   * What holds of every popup reachable from `Initial` by key events and
   * clicks: the text size has not fallen below its floor, the selection
   * is not negative, the typed text holds typed characters only, and the
   * filtered list is the search result for the typed text. The selection
   * is NOT bounded by the filtered list's length.
   */
  predicate Valid(p: Popup) {
    p.textSize >= MinTextSize &&
    p.filterItemIndex >= 0 &&
    (forall k :: 0 <= k < |p.inputString| ==> IsTypedChar(p.inputString[k])) &&
    p.filterItems == SearchResult(p.items, p.inputString)
  }

  /** The sizes the widget actually measures with: nothing negative, a positive spacer. */
  predicate ValidLayout(l: Layout) {
    l.boxHeight >= 0.0 && l.width >= 0.0 && l.height >= 0.0 && l.border >= 0.0 && l.spacer > 0.0
  }

  // ---------------------------------------------------------------------
  // Searching

  /**
   * The positions of the entries that `Keeps` accepts: strictly
   * increasing, and holding a position exactly when its entry matches.
   */
  function KeptIndices(items: seq<string>, q: string): (r: seq<nat>)
    ensures forall k :: 0 <= k < |r| ==> r[k] < |items|
    ensures forall k, m :: 0 <= k < m < |r| ==> r[k] < r[m]
    ensures forall i :: 0 <= i < |items| ==> (i in r <==> Keeps(items[i], q))
    decreases |items|
  {
    if items == [] then []
    else
      var n := |items| - 1;
      var front := KeptIndices(items[..n], q);
      assert forall i :: 0 <= i < n ==> items[..n][i] == items[i];
      front + (if Keeps(items[n], q) then [n] else [])
  }

  /**
   * The filtered list is exactly the entries at the kept positions, in
   * that order; with KeptIndices' contract, it holds the matching entries
   * in their original order, each position at most once.
   */
  lemma {:induction false} FilterMatchingExactly(items: seq<string>, q: string)
    ensures |KeptIndices(items, q)| == |FilterMatching(items, q)|
    ensures forall k :: 0 <= k < |KeptIndices(items, q)| ==>
      FilterMatching(items, q)[k] == items[KeptIndices(items, q)[k]]
    decreases |items|
  {
    if items != [] {
      var n := |items| - 1;
      FilterMatchingExactly(items[..n], q);
      var idx, r := KeptIndices(items, q), FilterMatching(items, q);
      var idx', r' := KeptIndices(items[..n], q), FilterMatching(items[..n], q);
      assert |idx| == |r|;
      forall k | 0 <= k < |idx| ensures r[k] == items[idx[k]] {
        if k < |idx'| {
          assert r[k] == r'[k] && idx[k] == idx'[k];
        }
      }
    }
  }

  /** An entry appears in the filtered list exactly when it is a menu entry that matches. */
  lemma FilterMembership(items: seq<string>, q: string, s: string)
    ensures s in FilterMatching(items, q) <==> s in items && Keeps(s, q)
  {
    FilterMatchingExactly(items, q);
    var r, idx := FilterMatching(items, q), KeptIndices(items, q);
    if s in items && Keeps(s, q) {
      var i :| 0 <= i < |items| && items[i] == s;
      assert i in idx;
      var k :| 0 <= k < |idx| && idx[k] == i;
      assert r[k] == s;
    }
  }

  /** An entry that merely contains the query (not at its start) is not found. */
  lemma SearchIgnoresInfixMatch()
    ensures SearchResult(["cube"], "ub") == []
  {
    assert !("ub" <= "cube");
    assert !IsSubstring("cube", "ub");
  }

  /** An entry that lies inside the typed text is found, though it does not start with it. */
  lemma SearchFindsEntryInsideQuery()
    ensures SearchResult(["plane", "cube"], "Cubes") == ["cube"]
  {
    assert Lower("Cubes") == "cubes";
    assert "cubes"[0..4] == "cube";
    assert !("cubes" <= "plane");
    assert !IsSubstring("plane", "cubes");
  }

  // ---------------------------------------------------------------------
  // Typing keys

  /** Each typing key's lower-case partner, at the same position, is its lower-casing. */
  lemma AlphabetLowerIsLower(c: char)
    requires c in Alphabet
    ensures AlphabetLower[IndexOf(Alphabet, c)] == LowerChar(c)
  {
    AlphabetsPaired();
  }

  /** Every character a typing key can add is a typed character. */
  lemma TypedCharIsTyped(kind: string, shift: bool)
    requires IsTypingKey(kind)
    ensures IsTypedChar(TypedChar(kind, shift))
  {
    var i := IndexOf(Alphabet, kind[0]);
    assert |AlphabetLower| == |Alphabet|;
  }

  // ---------------------------------------------------------------------
  // One lemma per kind of key event

  /**
   * DEL and BACK_SPACE remove exactly the last typed character and search
   * again; on empty text they change nothing.
   */
  lemma DeleteRemovesLastChar(p: Popup, e: Event)
    requires e.press && (e.kind == Del || e.kind == BackSpace)
    ensures var r := InputEvent(p, e);
      if p.inputString == [] then r == p
      else
        r.inputString + [p.inputString[|p.inputString| - 1]] == p.inputString &&
        r.filterItems == SearchResult(p.items, r.inputString) &&
        r.filterItemIndex == p.filterItemIndex && r.textSize == p.textSize
  {
    var r := InputEvent(p, e);
    if p.inputString != [] {
      var n := |p.inputString|;
      assert r.inputString == p.inputString[..n - 1];
      assert p.inputString[..n - 1] + [p.inputString[n - 1]] == p.inputString;
    }
  }

  /**
   * A typing key adds one character while the text is shorter than
   * max_str_len: the key itself under shift, else its lower-casing. At
   * the limit it changes nothing.
   */
  lemma TypingKeyAppends(p: Popup, e: Event)
    requires e.press && IsTypingKey(e.kind)
    ensures var r := InputEvent(p, e);
      if |p.inputString| < p.maxStrLen then
        r.inputString == p.inputString + [if e.shift then e.kind[0] else LowerChar(e.kind[0])] &&
        r.filterItems == SearchResult(p.items, r.inputString) &&
        r.filterItemIndex == p.filterItemIndex && r.textSize == p.textSize
      else r == p
  {
    assert e.kind !in Actions && e.kind != Space;
    AlphabetLowerIsLower(e.kind[0]);
  }

  /** SPACE adds a space and searches again, with no length limit. */
  lemma SpaceAppendsUnbounded(p: Popup, e: Event)
    requires e.press && e.kind == Space
    ensures var r := InputEvent(p, e);
      r.inputString == p.inputString + " " &&
      |r.inputString| == |p.inputString| + 1 &&
      r.filterItems == SearchResult(p.items, r.inputString) &&
      r.filterItemIndex == p.filterItemIndex && r.textSize == p.textSize
  {
    assert !IsTypingKey(e.kind);
  }

  /**
   * DOWN_ARROW moves the selection down only while it is above the last
   * filtered entry, so a selection inside the list stays inside it.
   */
  lemma DownArrowStep(p: Popup, e: Event)
    requires e.press && e.kind == DownArrow
    ensures var r := InputEvent(p, e);
      r == p.(filterItemIndex := r.filterItemIndex) &&
      (r.filterItemIndex == p.filterItemIndex + 1 <==> p.filterItemIndex < |p.filterItems| - 1) &&
      (r.filterItemIndex != p.filterItemIndex + 1 ==> r.filterItemIndex == p.filterItemIndex) &&
      (0 <= p.filterItemIndex < |p.filterItems| ==> 0 <= r.filterItemIndex < |p.filterItems|)
  {
    assert !IsTypingKey(e.kind);
  }

  /** UP_ARROW moves the selection up only while it is above 0, so it never turns negative. */
  lemma UpArrowStep(p: Popup, e: Event)
    requires e.press && e.kind == UpArrow
    ensures var r := InputEvent(p, e);
      r == p.(filterItemIndex := r.filterItemIndex) &&
      (r.filterItemIndex == p.filterItemIndex - 1 <==> p.filterItemIndex > 0) &&
      (r.filterItemIndex != p.filterItemIndex - 1 ==> r.filterItemIndex == p.filterItemIndex) &&
      (p.filterItemIndex >= 0 ==> r.filterItemIndex >= 0)
  {
    assert !IsTypingKey(e.kind);
  }

  /** NUMPAD_PLUS grows the text by one; NUMPAD_MINUS shrinks it by one, never below the floor. */
  lemma TextSizeKeys(p: Popup, e: Event)
    requires e.press && (e.kind == NumpadPlus || e.kind == NumpadMinus)
    ensures var r := InputEvent(p, e);
      r == p.(textSize := r.textSize) &&
      (e.kind == NumpadPlus ==> r.textSize == p.textSize + 1) &&
      (e.kind == NumpadMinus ==>
        r.textSize == if p.textSize > MinTextSize then p.textSize - 1 else p.textSize)
  {
    assert !IsTypingKey(e.kind);
  }

  /** No event takes the text size from the floor or above to below it. */
  lemma TextSizeFloor(p: Popup, e: Event)
    requires p.textSize >= MinTextSize
    ensures InputEvent(p, e).textSize >= MinTextSize
  {
    if e.press && e.kind in Actions {
      assert ActionKey(p, e.kind).textSize >= MinTextSize;
    }
  }

  /** A key that is neither an action, a typing key nor SPACE changes nothing. */
  lemma OtherKeysIgnored(p: Popup, e: Event)
    requires e.kind !in Actions && !IsTypingKey(e.kind) && e.kind != Space
    ensures InputEvent(p, e) == p
  {
  }

  // ---------------------------------------------------------------------
  // The invariant is kept

  lemma InitialValid(x: real, y: real, items: seq<string>)
    ensures Valid(Initial(x, y, items))
  {
  }

  /** Appending a typed character to a valid popup and searching gives a valid popup. */
  lemma TypedValid(p: Popup, c: char)
    requires Valid(p) && IsTypedChar(c)
    ensures Valid(Typed(p, c))
  {
    var s := p.inputString + [c];
    assert forall k :: 0 <= k < |s| ==> IsTypedChar(s[k]) by {
      forall k | 0 <= k < |s| ensures IsTypedChar(s[k]) {
        if k < |p.inputString| {
          assert s[k] == p.inputString[k];
        }
      }
    }
  }

  lemma ActionKeyValid(p: Popup, kind: string)
    requires Valid(p)
    ensures Valid(ActionKey(p, kind))
  {
    if kind in {Del, BackSpace} && |p.inputString| > 0 {
      var s := p.inputString[..|p.inputString| - 1];
      assert forall k :: 0 <= k < |s| ==> s[k] == p.inputString[k];
    }
  }

  /** Every key event keeps the invariant. */
  lemma InputEventPreservesValid(p: Popup, e: Event)
    requires Valid(p)
    ensures Valid(InputEvent(p, e))
  {
    var p1 := if e.kind in Actions && e.press then ActionKey(p, e.kind) else p;
    if e.kind in Actions && e.press {
      ActionKeyValid(p, e.kind);
    }
    assert Valid(p1);
    var p2 :=
      if IsTypingKey(e.kind) && |p1.inputString| < p1.maxStrLen && e.press then
        Typed(p1, TypedChar(e.kind, e.shift))
      else p1;
    if IsTypingKey(e.kind) && |p1.inputString| < p1.maxStrLen && e.press {
      TypedCharIsTyped(e.kind, e.shift);
      TypedValid(p1, TypedChar(e.kind, e.shift));
    }
    assert Valid(p2);
    if e.kind == Space && e.press {
      TypedValid(p2, ' ');
    }
  }

  /** A click keeps the invariant: a picked row is never negative. */
  lemma PickPreservesValid(p: Popup, l: Layout, mouseX: real, mouseY: real)
    requires Valid(p) && RowHeight(l) > 0.0
    ensures Valid(PickEffect(p, l, mouseX, mouseY))
  {
  }

  // ---------------------------------------------------------------------
  // Mouse picking

  /** Multiplying by a positive number keeps a strict order. */
  lemma MulStrictMono(a: real, b: real, h: real)
    requires a < b && h > 0.0
    ensures a * h < b * h
  {
  }

  /** Dividing a product by one of its positive factors gives the other. */
  lemma MulDivCancel(a: real, h: real)
    requires h > 0.0
    ensures (a * h) / h == a
    ensures a >= 0.0 ==> a * h >= 0.0
  {
  }

  /** The floor of d / h counts the whole bands of height h that fit into d. */
  lemma FloorBand(d: real, h: real)
    requires h > 0.0
    ensures (d / h).Floor as real * h <= d
    ensures d < ((d / h).Floor as real + 1.0) * h
  {
    var q := d / h;
    var f := q.Floor as real;
    assert q * h == d;
    assert f <= q < f + 1.0;
    if f < q {
      MulStrictMono(f, q, h);
    }
    MulStrictMono(q, f + 1.0, h);
    assert d < (f + 1.0) * h;
  }

  /** The picked row is the one whose band, counted down from the list top, holds the click. */
  lemma PickSelectsRowUnderCursor(x: real, y: real, l: Layout, mouseX: real, mouseY: real)
    requires RowHeight(l) > 0.0
    requires Pick(x, y, l, mouseX, mouseY).Some?
    ensures var i, h := Pick(x, y, l, mouseX, mouseY).value as real, RowHeight(l);
      ItemsTop(y, l) - (i + 1.0) * h < mouseY <= ItemsTop(y, l) - i * h
  {
    var d := ItemsTop(y, l) - mouseY;
    assert Pick(x, y, l, mouseX, mouseY).value == (d / RowHeight(l)).Floor;
    FloorBand(d, RowHeight(l));
  }

  /**
   * Which clicks select a row. Because of how the bounds tests group, a
   * click left of the menu or below its bottom edge still selects a row;
   * only a click at or past the right edge, or above the first row, does not.
   */
  lemma PickCharacterization(x: real, y: real, l: Layout, mouseX: real, mouseY: real)
    requires ValidLayout(l)
    ensures Pick(x, y, l, mouseX, mouseY).Some? <==>
      (mouseX < x + l.width / 2.0 || mouseX <= x - l.width / 2.0) && mouseY <= ItemsTop(y, l)
  {
  }

  /** The selection is not clamped: a click n rows below the list top selects row n, for any n. */
  lemma PickNotClamped(x: real, y: real, l: Layout, n: nat)
    requires ValidLayout(l)
    ensures Pick(x, y, l, x, ItemsTop(y, l) - (n as real) * RowHeight(l)) == Some(n as int)
  {
    var h := RowHeight(l);
    var d := n as real * h;
    MulDivCancel(n as real, h);
    var mouseY := ItemsTop(y, l) - d;
    assert ItemsTop(y, l) - mouseY == d;
    assert (d / h).Floor == n;
  }
}
