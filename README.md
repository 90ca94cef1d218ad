# Searchable pop-up menu and brush-side selection, modelled in Dafny

This project models the self-contained logic of two viewport widgets of a
retopology add-on for a 3D application:

- `MenuSearchPopup`, a pop-up menu with a search box. Typing filters the
  menu entries, arrow keys move the highlighted row, numpad plus and minus
  change the text size, and a click selects the row under the cursor.
- The side selection of `SketchBrush` when a brush resize starts. The cursor
  is warped to the left or right edge of the brush circle, and a
  "reversed" flag is raised when the preferred side is off-screen.

Files and modules:

- `text_match.dfy` (module `TextMatch`): lower-casing, and the substring
  test `item in query`, proved equal to "occurs as a contiguous slice".
- `menu_search_popup.dfy` (module `MenuSearch`): the widget state as a value
  `Popup`, and each operation as a function on it. `Searched` is
  `search_items`. `InputEvent` (with `ActionKey`) is `modal_input_event`.
  `Pick` and `PickEffect` are `pick_mouse`. The class `MenuSearchPopup` has
  the widget's fields and updates them in place. Its `SearchItems` method
  resets the list and appends in a loop, as the widget does. Each method
  is proved to produce the state its function describes.
  `ActionKeyEvent` is the action-key block of `modal_input_event`, lifted
  into its own method. `ItemsTop` (the top of the first list row,
  common_classes.py:153) is a helper of `Pick`, and `IsTypingKey` (the test
  `letter in alphabet`, common_classes.py:125) a helper of `InputEvent`;
  neither has a contract of its own.
- `menu_search_properties.dfy` (module `MenuSearchProperties`): what those
  functions promise. It gives an exact characterisation of the filtered
  list and one lemma per kind of key. It defines an object invariant
  `Valid` and proves that key events and clicks keep it. It also proves
  hit-test lemmas.
- `sketch_brush.dfy` (module `SketchBrush`): the warp-side selection of
  `brush_pix_size_init` as a pure function. It also models the side factor
  and the undamped radius change of `brush_pix_size_interact`, and proves
  that, starting from an unreversed brush, the radius change is zero at the
  warped cursor and nowhere else. The reversed flag starts lowered
  (common_classes.py:260) and cancel lowers it again (line 365); confirm
  lowers it only when a new radius was set (lines 350-353), so a resize
  confirmed before any drag leaves it raised. With the flag already raised
  the warp does not land on the neutral point. `PreferredX` and
  `PreferredFits` (the sums at lines 316 and 321 and the tests at lines 317
  and 322) are helpers of `BrushPixSizeInit` with no contract of their own.

Design points:

- The selection index is not bounded by the filtered list's length.
  `search_items` never resets it, and `pick_mouse` does not clamp it
  (`PickNotClamped`). `Valid` therefore promises only that it is not negative.
- An entry is kept when it starts with the lower-cased query, or when the
  entry itself lies inside the query. The containment is the reverse of a
  usual infix search. `SearchIgnoresInfixMatch` and
  `SearchFindsEntryInsideQuery` exhibit both sides.
- The bounds tests of `pick_mouse` are modelled as written.
  `not a < b and c > d` groups as `(not a < b) and (c > d)`, so a click left
  of the menu or below it still selects a row (`PickCharacterization`).
- SPACE appends with no length check, so the text can grow beyond
  `max_str_len` (`SpaceAppendsUnbounded`).

## Model

| member | source | states |
|---|---|---|
| `TextMatch.LowerChar` | common_classes.py:88 | the result is never an upper-case letter; the k-th upper-case letter maps to the k-th lower-case letter; every other character is unchanged |
| `TextMatch.Lower` | common_classes.py:88 | lower-casing keeps the length and lower-cases every position |
| `TextMatch.Contains` | common_classes.py:92 | the test `item in query` is true exactly when the item occurs in the query as a contiguous slice (the empty item always does) |
| `MenuSearch.Initial` | common_classes.py:48-57 | a new popup has empty text, an empty filtered list, selection 0, and the given entries and anchor |
| `MenuSearch.Keeps` | common_classes.py:88-93 | an entry is kept exactly when it starts with the lower-cased text, or occurs in it as a contiguous slice |
| `MenuSearch.FilterMatching` | common_classes.py:87-94 | the filtered list is no longer than the entries; every kept entry matches and is a menu entry |
| `MenuSearch.SearchResult` | common_classes.py:82-94 | empty text gives an empty list; otherwise every listed entry is a menu entry that matches the lower-cased text |
| `MenuSearch.Searched` | common_classes.py:82-94 | search_items rebuilds only the filtered list, as the search result for the current text |
| `MenuSearch.IndexOf` | common_classes.py:130 | the alphabet lookup returns the first position holding the key's character |
| `MenuSearch.AlphabetsPaired` | common_classes.py:100-101 | the two alphabet tables agree position by position up to lower-casing |
| `MenuSearch.TypedChar` | common_classes.py:125-131 | a typing key appends the key itself under shift, and otherwise its lower-casing |
| `MenuSearch.Typed` | common_classes.py:127-137 | appending a character and searching again extends the text by that character, makes the filtered list the search result for the new text, and changes nothing else |
| `MenuSearch.ActionKey` | common_classes.py:104-123 | an action key keeps the anchor, the entries and max_str_len; only DEL and BACK_SPACE change the text, and only by dropping its last character, after which the list is searched again; only the arrows move the selection; only the numpad keys change the text size |
| `MenuSearch.InputEvent` | common_classes.py:96-137 | a key event never changes the anchor, the entries or max_str_len; an event that is not a press changes nothing |
| `MenuSearch.Pick` | common_classes.py:139-161 | a selected row index is never negative, and a click above the first row selects nothing |
| `MenuSearch.RowHeight` | common_classes.py:159 | with the widget's positive spacer and non-negative box height, the row height is at least two spacers, so never zero |
| `MenuSearch.PickEffect` | common_classes.py:159-160 | a click changes only the selection, and only to a non-negative row |
| `MenuSearch.MenuSearchPopup.constructor` | common_classes.py:41-57 | the new object's fields are the initial popup state |
| `MenuSearch.MenuSearchPopup.SearchItems` | common_classes.py:82-94 | the loop that clears and refills filter_items leaves the object in the `Searched` state |
| `MenuSearch.MenuSearchPopup.ModalInputEvent` | common_classes.py:96-137 | handling an event in place leaves the object in the `InputEvent` state |
| `MenuSearch.MenuSearchPopup.ActionKeyEvent` | common_classes.py:104-123 | the action-key block, run in place, leaves the object in the `ActionKey` state |
| `MenuSearch.MenuSearchPopup.PickMouse` | common_classes.py:139-161 | the click handler returns true exactly when a row is picked, and leaves the object in the `PickEffect` state |
| `MenuSearchProperties.KeptIndices` | common_classes.py:87-94 | the kept positions strictly increase, and a position is kept exactly when its entry matches |
| `MenuSearchProperties.FilterMatchingExactly` | common_classes.py:87-94 | the filtered list is exactly the entries at the kept positions, in order, so it holds the matching entries in their original order with each entry added at most once |
| `MenuSearchProperties.FilterMembership` | common_classes.py:87-94 | a string is in the filtered list exactly when it is a menu entry that matches |
| `MenuSearchProperties.SearchIgnoresInfixMatch` | common_classes.py:88-93 | an entry that merely contains the query, not at its start, is not found |
| `MenuSearchProperties.SearchFindsEntryInsideQuery` | common_classes.py:92-93 | an entry lying inside the typed text is found even though it does not start with it, and typed upper case is lowered first |
| `MenuSearchProperties.AlphabetLowerIsLower` | common_classes.py:130-131 | the partner found through the alphabet index is the key's lower-casing |
| `MenuSearchProperties.TypedCharIsTyped` | common_classes.py:125-131 | any character a typing key appends is a letter or a space |
| `MenuSearchProperties.DeleteRemovesLastChar` | common_classes.py:105-108 | a pressed DEL or BACK_SPACE removes exactly the last character and searches again; on empty text it changes nothing |
| `MenuSearchProperties.TypingKeyAppends` | common_classes.py:125-133 | a pressed typing key appends one character only below max_str_len: the key under shift, else its lower-casing; at the limit nothing changes |
| `MenuSearchProperties.SpaceAppendsUnbounded` | common_classes.py:135-137 | a pressed SPACE appends a space and searches again at any length |
| `MenuSearchProperties.DownArrowStep` | common_classes.py:110-112 | DOWN_ARROW adds 1 to the selection exactly when it is below the last filtered position, changes nothing else, and keeps an in-list selection in the list |
| `MenuSearchProperties.UpArrowStep` | common_classes.py:114-116 | UP_ARROW subtracts 1 from the selection exactly when it is above 0, changes nothing else, and never makes it negative |
| `MenuSearchProperties.TextSizeKeys` | common_classes.py:118-123 | NUMPAD_PLUS adds 1 to the text size; NUMPAD_MINUS subtracts 1 only above 12; nothing else changes |
| `MenuSearchProperties.TextSizeFloor` | common_classes.py:118-123 | no event takes a text size of at least 12 below 12 |
| `MenuSearchProperties.OtherKeysIgnored` | common_classes.py:104-137 | a key that is not an action, a typing key or SPACE changes nothing |
| `MenuSearchProperties.InitialValid` | common_classes.py:48-57 | a new popup satisfies the invariant |
| `MenuSearchProperties.TypedValid` | common_classes.py:125-137 | appending a typed character and searching keeps the invariant |
| `MenuSearchProperties.ActionKeyValid` | common_classes.py:104-123 | every action key keeps the invariant |
| `MenuSearchProperties.InputEventPreservesValid` | common_classes.py:96-137 | every key event keeps the invariant: size at least 12, selection not negative, only typed characters, filtered list equal to the search result |
| `MenuSearchProperties.PickPreservesValid` | common_classes.py:153-160 | a click keeps the invariant |
| `MenuSearchProperties.PickSelectsRowUnderCursor` | common_classes.py:153-159 | the picked row i is the one whose band, i to i+1 row heights below the list top, holds the click |
| `MenuSearchProperties.PickCharacterization` | common_classes.py:141-157 | with non-negative sizes, a click selects a row exactly when it is left of the right edge (or at or left of the left edge) and not above the first row |
| `MenuSearchProperties.PickNotClamped` | common_classes.py:159-160 | a click n rows below the list top selects row n, for every n, whatever the list length |
| `SketchBrush.BrushPixSizeInit` | common_classes.py:313-324 | the warp point is the preferred side when it fits in the region, else the other side; the flag ends raised exactly when it was raised or the preferred side did not fit |
| `SketchBrush.SideFactor` | common_classes.py:334 | the side factor is +1 exactly when right-handedness and the reversed flag differ, and -1 otherwise |
| `SketchBrush.RadDiff` | common_classes.py:334-340 | the undamped radius change is non-negative exactly when the cursor is at least one radius out from the start, on the handle's side |
| `SketchBrush.WarpIsNeutral` | common_classes.py:313-340 | starting unreversed, the side factor points at the side the cursor was warped to; the radius change there is zero, and a further `dx` out it is exactly `dx` (a tenth in precise mode) |
| `SketchBrush.WarpIsOnlyNeutralPoint` | common_classes.py:313-340 | starting unreversed, the radius change is zero exactly at the warped cursor |
| `SketchBrush.WarpStaysInRegion` | common_classes.py:315-324 | when the centre is inside the region and the circle is no wider than the region, the warp point is inside the region |

## Left out

- Drawing: both `draw` methods and every `blf`, `bgl` and drawing-helper call (common_classes.py:163-236, 373-388). This is immediate-mode rendering through the host's graphics API.
- The draw-time override: `MenuSearchPopup.draw` overwrites `filter_items` with all entries when the text is exactly `all` (common_classes.py:186-188). The invariant `Valid`, which ties the filtered list to the search result, holds of every state reached from `Initial` by key events and clicks alone; once `draw` has run on the text `all`, it can stop holding (when some entry does not match `all`) until the next search.
- Font metrics in `__init__` and `draw` (common_classes.py:66-80, 171-184, 192-195). Box height, width and height come from the host's font measurement, so `pick_mouse` takes them, with the border (10) and spacer (5), as a `Layout` value. `text_dpi`, `max_filter_items` and `output` are used only there and are not fields of the model.
- `MenuSearch.Pick`: requires a positive row height (`box_height + 2 * spacer`). This excludes no layout the widget builds: the spacer is the constant 5 and the box height is the largest measured text height, starting from 0 (common_classes.py:63, 66-78), so the row height is at least 10 (`MenuSearch.RowHeight`). Coordinates are exact reals, so floating-point rounding is not modelled.
- `TextMatch.Lower`: only ASCII letters are mapped, where the widget's `lower()` maps all of Unicode. `InputEventPreservesValid` proves that the typed text only ever holds ASCII letters and spaces, so the two agree on every reachable query.
- `MenuSearch.InputEvent`: the event is modelled by its `type`, `press` and `shift` entries only. A malformed event dictionary (a missing key) is not modelled.
- `SketchBrush.RadDiff`: the exponential damping of a negative radius change (common_classes.py:341-342) is transcendental floating-point arithmetic and is not modelled. The precise-mode factor 0.1 is an exact real.
- The cursor warps (common_classes.py:329, 360, 366). They are window-system side effects; `BrushPixSizeInit` returns the warp x-coordinate instead.
- The rest of `SketchBrush`: `__init__`, `update_mouse_move_hover`, `make_circles`, `get_brush_world_size`, `brush_pix_size_confirm`, `brush_pix_size_cancel` and `brush_pix_size_pressure` (common_classes.py:239-311, 349-371). They set fields, build circle points with helpers in `common_utilities`, which is not part of this model, warp the cursor, or ray-cast through the host. The pressure handler is unimplemented. The radius-change lemmas rely on `__init__` and `update_mouse_move_hover` always setting `init_x` together with `x` (lines 248-252, 266-270), so both are the brush centre in the model.
- The reversed flag across resizes: the model does not track `new_rad`, so it does not capture that a resize confirmed before any drag leaves `screen_hand_reverse` raised (lines 350-353), after which the next warp misses the neutral point; `WarpIsNeutral` and `WarpIsOnlyNeutralPoint` assume an unreversed start.
