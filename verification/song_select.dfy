/** The song select screen's menus (scenes/song_select.py): the
    difficulty cursor with its ura switch, the difficulty-sort menu and the
    modifier selector. */
module SongSelect {
  import opened Common

  // ---------------------------------------------------------------------
  // The difficulty cursor.

  /** A song's courses as `sorted(course_data)` gives them: distinct,
      non-negative course numbers in ascending order. */
  predicate Courses(diffs: seq<int>) {
    (forall i, j :: 0 <= i < j < |diffs| ==> diffs[i] < diffs[j]) &&
    (forall i :: 0 <= i < |diffs| ==> 0 <= diffs[i])
  }

  /** The cursor over a song's difficulties: a course number, or one of the
      three option slots left of the first course (-1 neiro, -2 modifiers,
      -3 back); whether the ura (back side) of oni is shown; and the count
      of right presses made on oni/ura towards the hidden switch. */
  datatype Cursor = Cursor(difficulty: int, isUra: bool, uraToggle: int)

  /** Where the cursor may rest outside ura mode: an option slot or one of
      the song's courses. */
  predicate OnSlot(c: Cursor, diffs: seq<int>) {
    -3 <= c.difficulty <= -1 || c.difficulty in diffs
  }

  /** `_toggle_ura_mode`: flip ura, mirror the difficulty as 7 - d and
      reset the press count. */
  function ToggleUra(c: Cursor): (r: Cursor)
    ensures r.isUra != c.isUra && r.uraToggle == 0
    ensures c.difficulty == 3 ==> r.difficulty == 4
    ensures c.difficulty == 4 ==> r.difficulty == 3
  {
    Cursor(7 - c.difficulty, !c.isUra, 0)
  }

  /** Toggling twice gives back the cursor with its press count cleared. */
  lemma ToggleUraTwice(c: Cursor)
    ensures ToggleUra(ToggleUra(c)) == c.(uraToggle := 0)
  {
  }

  /** The TAB key: the switch, offered only on oni or ura. */
  function Tab(c: Cursor): (r: Cursor)
    ensures c.difficulty in {3, 4} ==> r.isUra != c.isUra && r.difficulty in {3, 4} && r.difficulty != c.difficulty
    ensures c.difficulty !in {3, 4} ==> r == c
  {
    if c.difficulty in {3, 4} then ToggleUra(c) else c
  }

  /** Two TAB presses restore the cursor (once its press count is clear). */
  lemma TabTwice(c: Cursor)
    requires c.uraToggle == 0
    ensures Tab(Tab(c)) == c
  {
  }

  /** `_navigate_difficulty_left`. None stands for the Python error: a
      `diffs[-3]` with two courses, `min` of no courses. */
  function NavigateLeft(c: Cursor, diffs: seq<int>): (r: Option<Cursor>)
    requires Courses(diffs)
    ensures r.Some? ==> r.value.isUra == c.isUra && r.value.uraToggle == c.uraToggle
    ensures c.difficulty == -3 ==> r == Some(c)
    ensures c.difficulty in {-1, -2} ==> r == Some(c.(difficulty := c.difficulty - 1))
    ensures |diffs| > 0 && c.difficulty == diffs[0] && !(c.isUra && c.difficulty == 4) ==>
              r == Some(c.(difficulty := -1))
    ensures forall i :: 0 < i < |diffs| && diffs[i] == c.difficulty && !(c.isUra && c.difficulty == 4) ==>
              r == Some(c.(difficulty := diffs[i - 1]))
    ensures c.difficulty >= 0 && c.difficulty !in diffs && !(c.isUra && c.difficulty == 4) ==>
              r == if |diffs| == 0 then None else Some(c.(difficulty := diffs[0]))
    ensures c.isUra && c.difficulty == 4 ==>
              r == if |diffs| == 1 then Some(c.(difficulty := -1))
                   else if |diffs| >= 3 then Some(c.(difficulty := diffs[|diffs| - 3]))
                   else None
  {
    var d := c.difficulty;
    if c.isUra && d == 4 then
      if |diffs| == 1 then Some(c.(difficulty := -1))
      else if |diffs| >= 3 then Some(c.(difficulty := diffs[|diffs| - 3]))
      else None
    else if d == -1 || d == -2 then Some(c.(difficulty := d - 1))
    else if d == -3 then Some(c)
    else if d !in diffs then
      if |diffs| == 0 then None else Some(c.(difficulty := diffs[0]))
    else if d == diffs[0] then Some(c.(difficulty := -1))
    else Some(c.(difficulty := diffs[IndexOf(diffs, d) - 1]))
  }

  /** A right press: the new cursor and whether it switched ura (the
      screen then plays the switch animation). */
  datatype Move = Move(cursor: Cursor, toggled: bool)

  /** Oni and ura are both present, so right presses on them count towards
      the switch. */
  predicate HasBothOni(diffs: seq<int>) {
    3 in diffs && 4 in diffs
  }

  /** `_navigate_difficulty_right`. In ura mode the cursor first jumps from
      2 to 4. None stands for the Python error: `min`/`max` of no courses,
      or `diffs.index` of a difficulty the song lacks. */
  function NavigateRight(c: Cursor, diffs: seq<int>): (r: Option<Move>)
    requires Courses(diffs)
    ensures c.difficulty in {-2, -3} ==> r == Some(Move(c.(difficulty := c.difficulty + 1), false))
    ensures c.difficulty == -1 ==> r == if |diffs| == 0 then None else Some(Move(c.(difficulty := diffs[0]), false))
    ensures forall i :: 0 <= i < |diffs| - 1 && diffs[i] == c.difficulty && !(c.isUra && c.difficulty == 2) &&
                        !(c.difficulty in {3, 4} && HasBothOni(diffs)) ==>
              r == Some(Move(c.(difficulty := diffs[i + 1]), false))
    ensures (|diffs| > 0 && c.difficulty == diffs[|diffs| - 1] && !(c.isUra && c.difficulty == 2) &&
             !(c.difficulty in {3, 4} && HasBothOni(diffs))) ==>
              r == Some(Move(c, false))
    ensures c.difficulty in {3, 4} && HasBothOni(diffs) && 0 <= c.uraToggle < 9 ==>
              r == Some(Move(c.(uraToggle := c.uraToggle + 1), false))
    ensures c.difficulty in {3, 4} && HasBothOni(diffs) && c.uraToggle == 9 ==>
              r == Some(Move(ToggleUra(c), true))
    ensures r.Some? && r.value.toggled ==> r.value.cursor.isUra != c.isUra
    ensures r.Some? && !r.value.toggled ==> r.value.cursor.isUra == c.isUra
  {
    var d := if c.isUra && c.difficulty == 2 then 4 else c.difficulty;
    if d in {3, 4} && HasBothOni(diffs) then
      var t := (c.uraToggle + 1) % 10;
      if t == 0 then Some(Move(ToggleUra(c.(difficulty := d)), true))
      else Some(Move(c.(difficulty := d, uraToggle := t), false))
    else if d == -1 then
      if |diffs| == 0 then None else Some(Move(c.(difficulty := diffs[0]), false))
    else if d == -2 || d == -3 then Some(Move(c.(difficulty := d + 1), false))
    else if |diffs| == 0 then None
    else if d < diffs[|diffs| - 1] then
      if d in diffs then Some(Move(c.(difficulty := diffs[IndexOf(diffs, d) + 1]), false)) else None
    else Some(Move(c.(difficulty := d), false))
  }

  /** Outside ura mode, a song with courses never makes the cursor fail and
      it stays on an option slot or a course. */
  lemma NavigateKeepsSlot(c: Cursor, diffs: seq<int>)
    requires Courses(diffs) && |diffs| > 0 && !c.isUra && OnSlot(c, diffs)
    ensures NavigateLeft(c, diffs).Some? && OnSlot(NavigateLeft(c, diffs).value, diffs)
    ensures NavigateRight(c, diffs).Some? && OnSlot(NavigateRight(c, diffs).value.cursor, diffs)
  {
    if c.difficulty >= 0 {
      var i := IndexOf(diffs, c.difficulty);
      if i > 0 {
        assert NavigateLeft(c, diffs) == Some(c.(difficulty := diffs[i - 1]));
      }
      if i < |diffs| - 1 && !(c.difficulty in {3, 4} && HasBothOni(diffs)) {
        assert NavigateRight(c, diffs) == Some(Move(c.(difficulty := diffs[i + 1]), false));
      }
      if i == |diffs| - 1 && !(c.difficulty in {3, 4} && HasBothOni(diffs)) {
        assert NavigateRight(c, diffs) == Some(Move(c, false));
      }
    }
  }

  /** Outside ura mode a right press undoes a left press, unless the left
      press lands on oni or ura of a song with both (where right counts
      towards the switch instead of moving) or the cursor was already on the
      leftmost slot. */
  lemma RightUndoesLeft(c: Cursor, diffs: seq<int>)
    requires Courses(diffs) && |diffs| > 0 && !c.isUra && OnSlot(c, diffs) && c.difficulty != -3
    requires NavigateLeft(c, diffs).Some?
    requires !(NavigateLeft(c, diffs).value.difficulty in {3, 4} && HasBothOni(diffs))
    ensures NavigateRight(NavigateLeft(c, diffs).value, diffs) == Some(Move(c, false))
  {
    if c.difficulty >= 0 {
      var i := IndexOf(diffs, c.difficulty);
      if i > 0 {
        var l := c.(difficulty := diffs[i - 1]);
        assert NavigateLeft(c, diffs) == Some(l);
        assert NavigateRight(l, diffs) == Some(Move(l.(difficulty := diffs[i]), false));
      }
    }
  }

  /** The cursor after `n` right presses. */
  function RightPresses(c: Cursor, diffs: seq<int>, n: nat): (r: Option<Cursor>)
    requires Courses(diffs)
  {
    if n == 0 then Some(c)
    else match RightPresses(c, diffs, n - 1)
      case None => None
      case Some(p) =>
        match NavigateRight(p, diffs)
        case None => None
        case Some(m) => Some(m.cursor)
  }

  /** On oni or ura of a song with both, right presses only count: the
      cursor stays put while the count stays below ten. */
  lemma {:induction false} RightPressesCount(c: Cursor, diffs: seq<int>, n: nat)
    requires Courses(diffs) && HasBothOni(diffs) && c.difficulty in {3, 4}
    requires 0 <= c.uraToggle && c.uraToggle + n <= 9
    ensures RightPresses(c, diffs, n) == Some(c.(uraToggle := c.uraToggle + n))
  {
    if n > 0 {
      RightPressesCount(c, diffs, n - 1);
      var p := c.(uraToggle := c.uraToggle + n - 1);
      RightCounts(p, diffs);
      RightPressesStep(c, diffs, n, p);
      assert p.(uraToggle := p.uraToggle + 1) == c.(uraToggle := c.uraToggle + n);
    }
  }

  lemma RightPressesStep(c: Cursor, diffs: seq<int>, n: nat, p: Cursor)
    requires Courses(diffs) && n > 0
    requires RightPresses(c, diffs, n - 1) == Some(p) && NavigateRight(p, diffs).Some?
    ensures RightPresses(c, diffs, n) == Some(NavigateRight(p, diffs).value.cursor)
  {
  }

  /** A right press on oni or ura of a song with both only counts. */
  lemma RightCounts(c: Cursor, diffs: seq<int>)
    requires Courses(diffs) && HasBothOni(diffs) && c.difficulty in {3, 4}
    requires 0 <= c.uraToggle < 9
    ensures NavigateRight(c, diffs) == Some(Move(c.(uraToggle := c.uraToggle + 1), false))
  {
    assert (c.uraToggle + 1) % 10 == c.uraToggle + 1;
    assert c.(difficulty := c.difficulty) == c;
  }

  /** The hidden switch: ten right presses on oni or ura switch ura, and
      fewer do not. */
  lemma TenPressesSwitchUra(c: Cursor, diffs: seq<int>)
    requires Courses(diffs) && HasBothOni(diffs) && c.difficulty in {3, 4} && c.uraToggle == 0
    ensures forall n: nat :: n < 10 ==> RightPresses(c, diffs, n) == Some(c.(uraToggle := n))
    ensures RightPresses(c, diffs, 10) == Some(ToggleUra(c))
  {
    forall n: nat | n < 10
      ensures RightPresses(c, diffs, n) == Some(c.(uraToggle := n))
    {
      RightPressesCount(c, diffs, n);
    }
    RightPressesCount(c, diffs, 9);
  }

  /** What a don press on the difficulty row does. */
  datatype DonChoice = Cancel | ModifierMenu | NeiroMenu | ConfirmSong

  function DonPressed(c: Cursor): (r: DonChoice)
    ensures r == Cancel <==> c.difficulty == -3
    ensures r == ModifierMenu <==> c.difficulty == -2
    ensures r == NeiroMenu <==> c.difficulty == -1
  {
    if c.difficulty == -3 then Cancel
    else if c.difficulty == -2 then ModifierMenu
    else if c.difficulty == -1 then NeiroMenu
    else ConfirmSong
  }

  /** Outside ura mode a song is confirmed exactly when the cursor is on
      one of its courses. */
  lemma ConfirmOnlyOnCourse(c: Cursor, diffs: seq<int>)
    requires Courses(diffs) && OnSlot(c, diffs)
    ensures DonPressed(c) == ConfirmSong <==> c.difficulty in diffs
  {
  }

  // ---------------------------------------------------------------------
  // The difficulty-sort menu (`DiffSortSelect`).

  /** The highest level each of the first four difficulties offers. */
  const Limits: seq<int> := [5, 7, 8, 10]

  const SortBoxCount: int := 6

  /** The menu's state: the box (-1 back, 0..3 a difficulty, 4 random, 5
      full combos), the level, whether the level row and the confirmation
      row are open, and the confirmation cursor. */
  datatype SortMenu = SortMenu(box: int, level: int, inLevelSelect: bool, confirmation: bool, confirmIndex: int)

  const SortMenuStart: SortMenu := SortMenu(-1, 1, false, false, 1)

  predicate ValidMenu(m: SortMenu) {
    -1 <= m.box <= SortBoxCount - 1 && 0 <= m.confirmIndex <= 2 && 1 <= m.level <= 10 &&
    (m.confirmation ==> m.inLevelSelect) &&
    (m.inLevelSelect ==> 0 <= m.box <= 3 && m.level <= Limits[m.box])
  }

  lemma SortMenuStartValid()
    ensures ValidMenu(SortMenuStart)
  {
  }

  /** `input_left`: one step back on whichever row is open, stopping at its
      first entry. */
  function InputLeft(m: SortMenu): (r: SortMenu)
    requires ValidMenu(m)
    ensures ValidMenu(r)
    ensures r.inLevelSelect == m.inLevelSelect && r.confirmation == m.confirmation
    ensures m.confirmation ==> r == m.(confirmIndex := Max(m.confirmIndex - 1, 0))
    ensures !m.confirmation && m.inLevelSelect ==> r == m.(level := Max(m.level - 1, 1))
    ensures !m.inLevelSelect ==> r == m.(box := Max(m.box - 1, -1))
  {
    if m.confirmation then m.(confirmIndex := Max(m.confirmIndex - 1, 0))
    else if m.inLevelSelect then m.(level := Max(m.level - 1, 1))
    else m.(box := Max(m.box - 1, -1))
  }

  /** `input_right`: one step on, stopping at the row's last entry (the
      level stops at the box's limit). */
  function InputRight(m: SortMenu): (r: SortMenu)
    requires ValidMenu(m)
    ensures ValidMenu(r)
    ensures r.inLevelSelect == m.inLevelSelect && r.confirmation == m.confirmation
    ensures m.confirmation ==> r == m.(confirmIndex := Min(m.confirmIndex + 1, 2))
    ensures !m.confirmation && m.inLevelSelect ==> r == m.(level := Min(m.level + 1, Limits[m.box]))
    ensures !m.inLevelSelect ==> r == m.(box := Min(m.box + 1, SortBoxCount - 1))
  {
    if m.confirmation then m.(confirmIndex := Min(m.confirmIndex + 1, 2))
    else if m.inLevelSelect then m.(level := Min(m.level + 1, Limits[m.box]))
    else m.(box := Min(m.box + 1, SortBoxCount - 1))
  }

  /** Whether the open row's cursor is on its first entry. */
  predicate AtFirst(m: SortMenu) {
    if m.confirmation then m.confirmIndex == 0
    else if m.inLevelSelect then m.level == 1
    else m.box == -1
  }

  /** Whether the open row's cursor is on its last entry. */
  predicate AtLast(m: SortMenu)
    requires ValidMenu(m)
  {
    if m.confirmation then m.confirmIndex == 2
    else if m.inLevelSelect then m.level == Limits[m.box]
    else m.box == SortBoxCount - 1
  }

  /** Left and right undo each other away from the row's ends, and stop
      there. */
  lemma LeftRightUndo(m: SortMenu)
    requires ValidMenu(m)
    ensures !AtFirst(m) ==> InputRight(InputLeft(m)) == m
    ensures !AtLast(m) ==> InputLeft(InputRight(m)) == m
    ensures AtFirst(m) <==> InputLeft(m) == m
    ensures AtLast(m) <==> InputRight(m) == m
  {
  }

  /** A sort the menu can hand back: a difficulty 0..3 with a level up to
      its limit, or random ura (4) with a level from {1, 5..10}. */
  predicate ValidSort(diff: int, level: int) {
    (0 <= diff <= 3 && 1 <= level <= Limits[diff]) || (diff == 4 && level in UraLevels)
  }

  /** The levels a random ura sort picks from. */
  const UraLevels: seq<int> := [1, 5, 6, 7, 8, 9, 10]

  /** `get_random_sort`, with the draws as parameters: `diff` is
      `randint(0, 4)` and `pick` selects among the equally likely levels
      (the `pick`-th, wrapping). */
  function RandomSort(diff: int, pick: nat): (r: (int, int))
    requires 0 <= diff <= 4
    ensures r.0 == diff && ValidSort(r.0, r.1)
  {
    if diff <= 3 then (diff, 1 + pick % Limits[diff])
    else (diff, UraLevels[pick % |UraLevels|])
  }

  /** Every valid sort is some draw's result. */
  lemma RandomSortCovers(diff: int, level: int)
    requires ValidSort(diff, level)
    ensures exists pick: nat :: RandomSort(diff, pick) == (diff, level)
  {
    if diff <= 3 {
      assert RandomSort(diff, level - 1) == (diff, level);
    } else {
      var k :| 0 <= k < |UraLevels| && UraLevels[k] == level;
      assert RandomSort(diff, k) == (diff, level);
    }
  }

  /** `input_select`, with the random draws as parameters: the new state
      and the sort handed back, if any. */
  function InputSelect(m: SortMenu, diffDraw: int, pick: nat): (r: (SortMenu, Option<(int, int)>))
    requires ValidMenu(m) && 0 <= diffDraw <= 4
    ensures ValidMenu(r.0)
    ensures r.1.Some? ==> r.0 == m
    ensures r.1.Some? ==> r.1.value in {(-1, -1), (0, -1)} || ValidSort(r.1.value.0, r.1.value.1)
    ensures m.confirmation && m.confirmIndex == 0 ==> r == (m.(confirmation := false), None)
    ensures m.confirmation && m.confirmIndex == 1 ==> r == (m, Some((m.box, m.level)))
    ensures m.confirmation && m.confirmIndex == 2 ==> r == (m.(confirmation := false, inLevelSelect := false), None)
    ensures !m.confirmation && m.inLevelSelect ==> r == (m.(confirmation := true, confirmIndex := 1), None)
    ensures !m.inLevelSelect && m.box == -1 ==> r == (m, Some((-1, -1)))
    ensures !m.inLevelSelect && m.box == 5 ==> r == (m, Some((0, -1)))
    ensures !m.inLevelSelect && m.box == 4 ==> r == (m, Some(RandomSort(diffDraw, pick)))
    ensures !m.inLevelSelect && 0 <= m.box <= 3 ==>
              r == (m.(inLevelSelect := true, level := Min(m.level, Limits[m.box])), None)
  {
    if m.confirmation && m.confirmIndex == 0 then (m.(confirmation := false), None)
    else if m.confirmation && m.confirmIndex == 1 then (m, Some((m.box, m.level)))
    else if m.confirmation && m.confirmIndex == 2 then (m.(confirmation := false, inLevelSelect := false), None)
    else if !m.confirmation && m.inLevelSelect then (m.(confirmation := true, confirmIndex := 1), None)
    else if m.box == -1 then (m, Some((-1, -1)))
    else if m.box == 5 then (m, Some((0, -1)))
    else if m.box == 4 then (m, Some(RandomSort(diffDraw, pick)))
    else (m.(inLevelSelect := true, level := Min(m.level, Limits[m.box])), None)
  }

  /** Three selects on a difficulty box choose it: the first opens the
      level row (clamping the level to the box's limit), the second the
      confirmation on "yes", the third hands back the box and level. */
  lemma ThreeSelectsChoose(m: SortMenu, diffDraw: int, pick: nat)
    requires ValidMenu(m) && !m.inLevelSelect && 0 <= m.box <= 3 && 0 <= diffDraw <= 4
    ensures var m1 := InputSelect(m, diffDraw, pick).0;
            var m2 := InputSelect(m1, diffDraw, pick).0;
            InputSelect(m2, diffDraw, pick).1 == Some((m.box, Min(m.level, Limits[m.box])))
  {
  }

  // ---------------------------------------------------------------------
  // The modifier selector.

  /** The play modifiers, in the order the selector visits them. */
  datatype Modifiers = Modifiers(auto: bool, speed: real, display: bool, inverse: bool, random: int)

  const DefaultModifiers: Modifiers := Modifiers(false, 1.0, false, false, 0)

  /** How many modifiers the selector steps through. */
  const ModCount: nat := 5

  /** The selector's position and whether it has been confirmed. */
  datatype ModMenu = ModMenu(index: nat, confirmed: bool)

  predicate ValidModMenu(s: ModMenu) {
    s.index <= ModCount && (s.confirmed <==> s.index == ModCount)
  }

  /** `confirm`: move to the next modifier, confirming after the last;
      nothing once confirmed. */
  function Confirm(s: ModMenu): (r: ModMenu)
    requires ValidModMenu(s)
    ensures ValidModMenu(r)
    ensures s.confirmed ==> r == s
    ensures !s.confirmed ==> r.index == s.index + 1
  {
    if s.confirmed then s
    else ModMenu(s.index + 1, s.index + 1 == ModCount)
  }

  function Confirms(s: ModMenu, n: nat): (r: ModMenu)
    requires ValidModMenu(s)
    ensures ValidModMenu(r)
  {
    if n == 0 then s else Confirm(Confirms(s, n - 1))
  }

  /** From the start, `n` confirms reach modifier `n`, and the selector is
      confirmed exactly from the fifth on, where it stays. */
  lemma {:induction false} ConfirmsLatch(n: nat)
    ensures Confirms(ModMenu(0, false), n).index == Min(n, ModCount)
    ensures Confirms(ModMenu(0, false), n).confirmed <==> n >= ModCount
  {
    if n > 0 {
      ConfirmsLatch(n - 1);
    }
  }

  /** The speed step as written: `max(0.1, v * 10 - 1) / 10`. The floor is
      applied to ten times the speed, so it holds at 0.01, not 0.1. */
  function SpeedLeftAsWritten(v: real): (r: real)
    ensures r >= 0.01
    ensures v >= 0.11 ==> r == v - 0.1
  {
    MaxReal(0.1, v * 10.0 - 1.0) / 10.0
  }

  /** From the slowest speed on the 0.1 grid, a left press goes to 0.01,
      and a right press from there lands on 0.11, off the grid the other
      steps keep to. */
  lemma SpeedLeftLeavesGrid()
    ensures SpeedLeftAsWritten(0.1) == 0.01
    ensures SpeedRight(SpeedLeftAsWritten(0.1)) == 0.11
  {
  }

  /** The speed step with the floor at 0.1 (one tenth of `max(1, v * 10 -
      1)`). */
  function SpeedLeft(v: real): (r: real)
    ensures r >= 0.1
    ensures v >= 0.2 ==> r == v - 0.1
    ensures v < 0.2 ==> r == 0.1
  {
    MaxReal(1.0, v * 10.0 - 1.0) / 10.0
  }

  /** `(v * 10 + 1) / 10`: 0.1 faster. */
  function SpeedRight(v: real): (r: real)
    ensures r == v + 0.1
  {
    (v * 10.0 + 1.0) / 10.0
  }

  /** With the floor at 0.1 the speed stays on the 0.1 grid, left stops at
      0.1, and left undoes right. */
  lemma SpeedOnGrid(k: int)
    requires k >= 1
    ensures SpeedLeft(k as real / 10.0) == Max(1, k - 1) as real / 10.0
    ensures SpeedRight(k as real / 10.0) == (k + 1) as real / 10.0
    ensures SpeedLeft(SpeedRight(k as real / 10.0)) == k as real / 10.0
  {
  }

  /** `left` with the slower speed given: on a boolean modifier flip it,
      on speed take `slower`, on random step down to 0; nothing once
      confirmed. */
  function ModLeftWith(s: ModMenu, m: Modifiers, slower: real): (r: Modifiers)
    requires ValidModMenu(s)
    ensures s.confirmed ==> r == m
    ensures !s.confirmed && s.index in {0, 2, 3} ==> ModRight(s, r) == m
    ensures !s.confirmed && s.index == 4 ==> r == m.(random := Max(0, m.random - 1))
    ensures 0 <= m.random <= 2 ==> 0 <= r.random <= 2
  {
    if s.confirmed then m
    else if s.index == 0 then m.(auto := !m.auto)
    else if s.index == 1 then m.(speed := slower)
    else if s.index == 2 then m.(display := !m.display)
    else if s.index == 3 then m.(inverse := !m.inverse)
    else m.(random := Max(0, m.random - 1))
  }

  /** `left` as written: the speed steps down with the floor at 0.01. */
  function ModLeft(s: ModMenu, m: Modifiers): (r: Modifiers)
    requires ValidModMenu(s)
    ensures s.confirmed ==> r == m
    ensures !s.confirmed && s.index == 1 && m.speed >= 0.11 ==> r == m.(speed := m.speed - 0.1)
    ensures !s.confirmed && s.index == 1 && m.speed < 0.11 ==> r == m.(speed := 0.01)
    ensures m.speed >= 0.01 ==> r.speed >= 0.01
  {
    ModLeftWith(s, m, SpeedLeftAsWritten(m.speed))
  }

  /** `left` with the floor at 0.1: the speed never drops below the
      slowest speed on the 0.1 grid. */
  function ModLeftCorrected(s: ModMenu, m: Modifiers): (r: Modifiers)
    requires ValidModMenu(s)
    ensures s.confirmed ==> r == m
    ensures !s.confirmed && s.index == 1 && m.speed >= 0.2 ==> r == m.(speed := m.speed - 0.1)
    ensures !s.confirmed && s.index == 1 && m.speed < 0.2 ==> r == m.(speed := 0.1)
    ensures m.speed >= 0.1 ==> r.speed >= 0.1
  {
    ModLeftWith(s, m, SpeedLeft(m.speed))
  }

  /** At the slowest grid speed the left press as written leaves the grid,
      and the corrected one stays put. */
  lemma ModLeftAtSlowest(s: ModMenu, m: Modifiers)
    requires ValidModMenu(s) && !s.confirmed && s.index == 1 && m.speed == 0.1
    ensures ModLeft(s, m).speed == 0.01
    ensures ModLeftCorrected(s, m) == m
  {
  }

  /** `right`: on a boolean modifier flip it, on speed speed up by 0.1, on
      random step round 0, 1, 2; nothing once confirmed. */
  function ModRight(s: ModMenu, m: Modifiers): (r: Modifiers)
    requires ValidModMenu(s)
    ensures s.confirmed ==> r == m
    ensures !s.confirmed && s.index == 1 ==> r == m.(speed := m.speed + 0.1)
    ensures !s.confirmed && s.index == 4 ==> r.random == (m.random + 1) % 3
    ensures m.speed >= 0.1 ==> r.speed >= 0.1
    ensures 0 <= m.random <= 2 ==> 0 <= r.random <= 2
  {
    if s.confirmed then m
    else if s.index == 0 then m.(auto := !m.auto)
    else if s.index == 1 then m.(speed := SpeedRight(m.speed))
    else if s.index == 2 then m.(display := !m.display)
    else if s.index == 3 then m.(inverse := !m.inverse)
    else m.(random := (m.random + 1) % 3)
  }

  /** Each press changes only the modifier under the cursor. */
  predicate SameExcept(m: Modifiers, n: Modifiers, index: nat) {
    (index != 0 ==> m.auto == n.auto) && (index != 1 ==> m.speed == n.speed) &&
    (index != 2 ==> m.display == n.display) && (index != 3 ==> m.inverse == n.inverse) &&
    (index != 4 ==> m.random == n.random)
  }

  lemma PressChangesOne(s: ModMenu, m: Modifiers)
    requires ValidModMenu(s)
    ensures SameExcept(m, ModLeft(s, m), s.index)
    ensures SameExcept(m, ModLeftCorrected(s, m), s.index)
    ensures SameExcept(m, ModRight(s, m), s.index)
  {
  }

  /** Random cycles: three right presses come back round, and left stops
      at 0. */
  lemma RandomCycles(s: ModMenu, m: Modifiers)
    requires ValidModMenu(s) && !s.confirmed && s.index == 4 && 0 <= m.random <= 2
    ensures ModRight(s, ModRight(s, ModRight(s, m))) == m
    ensures m.random > 0 ==> ModRight(s, ModLeft(s, m)) == m
    ensures m.random == 0 <==> ModLeft(s, m) == m
  {
  }
}
