/** The entry screen (scenes/entry.py): choosing a side to enter on, the
    mode boxes each entered player moves between, and the way back to
    side select for a second player. */
module Entry {
  import opened Common

  datatype PlayerNum = P1 | P2

  /** The drum keys pressed in one frame, per player. */
  datatype Keys = Keys(lDon1: bool, rDon1: bool, lDon2: bool, rDon2: bool,
                       lKat1: bool, rKat1: bool, lKat2: bool, rKat2: bool)

  function Don(k: Keys, p: PlayerNum): bool {
    if p == P1 then k.lDon1 || k.rDon1 else k.lDon2 || k.rDon2
  }

  function LeftKat(k: Keys, p: PlayerNum): bool {
    if p == P1 then k.lKat1 else k.lKat2
  }

  function RightKat(k: Keys, p: PlayerNum): bool {
    if p == P1 then k.rKat1 else k.rKat2
  }

  /** The keys with no player given answer to either player. */
  predicate AnyDon(k: Keys) { Don(k, P1) || Don(k, P2) }

  predicate AnyLeftKat(k: Keys) { k.lKat1 || k.lKat2 }

  predicate AnyRightKat(k: Keys) { k.rKat1 || k.rKat2 }

  /** The argument of the key queries (`is_l_don_pressed` and the other
      three in libs/utils.py): the player as the string they compare
      with, or a `PlayerNum` member, an int that equals none of those
      strings. */
  datatype QueryArg = AsText(text: string) | AsNum(num: PlayerNum)

  /** One key query as written, given whether that key is pressed for
      player 1 and for player 2: "0" asks both players' keys, "1" and "2"
      one player's, and any other argument, a `PlayerNum` included,
      answers False. */
  function QueryAsWritten(arg: QueryArg, pressed1: bool, pressed2: bool): (r: bool)
    ensures r ==> arg.AsText?
    ensures arg == AsText("0") ==> r == (pressed1 || pressed2)
    ensures arg == AsText("1") ==> r == pressed1
    ensures arg == AsText("2") ==> r == pressed2
  {
    match arg
    case AsNum(_) => false
    case AsText(t) => if t == "0" then pressed1 || pressed2 else if t == "1" then pressed1 else if t == "2" then pressed2 else false
  }

  /** The string a player's number is compared as. */
  function PlayerText(p: PlayerNum): string {
    if p == P1 then "1" else "2"
  }

  /** The queries answer for the player asked once the player is passed as
      its string: the don query is `Don`, the kat queries `LeftKat` and
      `RightKat`, which is what the mode-select model below uses. */
  lemma QueryWithTextAnswers(k: Keys, p: PlayerNum)
    ensures QueryAsWritten(AsText(PlayerText(p)), k.lDon1, k.lDon2) || QueryAsWritten(AsText(PlayerText(p)), k.rDon1, k.rDon2)
            <==> Don(k, p)
    ensures QueryAsWritten(AsText(PlayerText(p)), k.lKat1, k.lKat2) == LeftKat(k, p)
    ensures QueryAsWritten(AsText(PlayerText(p)), k.rKat1, k.rKat2) == RightKat(k, p)
  {
  }

  /** The queries with no player given answer to either player. */
  lemma QueryDefaultAnswersAny(k: Keys)
    ensures QueryAsWritten(AsText("0"), k.lDon1, k.lDon2) || QueryAsWritten(AsText("0"), k.rDon1, k.rDon2) <==> AnyDon(k)
    ensures QueryAsWritten(AsText("0"), k.lKat1, k.lKat2) == AnyLeftKat(k)
    ensures QueryAsWritten(AsText("0"), k.rKat1, k.rKat2) == AnyRightKat(k)
  {
  }

  // ---------------------------------------------------------------------
  // The mode boxes (`BoxManager`).

  /** Play, practice and settings. */
  const BoxCount: int := 3

  const Locations: seq<string> := ["SONG_SELECT", "PRACTICE_SELECT", "SETTINGS"]

  const Locations2P: seq<string> := ["SONG_SELECT_2P", "PRACTICE_SELECT", "SETTINGS"]

  /** A box's `move` animation as the moves test it: not started, started
      and still running, or started and finished. The clock that finishes
      a slide is outside the model, so a frame receives the slides as they
      stand. */
  datatype Slide = NotStarted | Sliding | Finished

  /** `Box.move_left` / `Box.move_right`: start the slide unless it was
      started before. */
  function StartSlide(m: Slide): Slide {
    if m == NotStarted then Sliding else m
  }

  /** The highlighted box, whether one has been chosen (the fade-out has
      started), and each box's slide. */
  datatype Boxes = Boxes(index: int, selected: bool, slides: seq<Slide>)

  predicate ValidBoxes(b: Boxes) {
    0 <= b.index < BoxCount && |b.slides| == BoxCount
  }

  /** The boxes of a freshly built `BoxManager`: the first highlighted, and
      every box after the first already sliding into place, since the
      constructor calls `move_right` on each of them. */
  const FreshBoxes: Boxes := Boxes(0, false, [NotStarted, Sliding, Sliding])

  /** A move from the highlighted box to box `i`: both boxes start their
      slides. */
  function MoveTo(b: Boxes, i: int): (r: Boxes)
    requires ValidBoxes(b) && 0 <= i < BoxCount
  {
    b.(index := i, slides := b.slides[b.index := StartSlide(b.slides[b.index])][i := StartSlide(b.slides[i])])
  }

  /** `move_left`: one box left, stopping at the first; ignored while the
      highlighted box is still sliding. A move starts the slides of the box
      left and of the box reached. */
  function MoveLeft(b: Boxes): (r: Boxes)
    requires ValidBoxes(b)
    ensures ValidBoxes(r) && r.selected == b.selected
    ensures b.slides[b.index] == Sliding ==> r == b
    ensures b.slides[b.index] != Sliding ==> r.index == Max(0, b.index - 1)
    ensures r.index == b.index ==> r == b
    ensures r.index != b.index ==> r.slides[r.index] != NotStarted && r.slides[b.index] != NotStarted
    ensures forall j :: 0 <= j < BoxCount && j != r.index && j != b.index ==> r.slides[j] == b.slides[j]
  {
    if b.slides[b.index] == Sliding || b.index == 0 then b else MoveTo(b, b.index - 1)
  }

  /** `move_right`: one box right, stopping at the last; otherwise as
      `move_left`. */
  function MoveRight(b: Boxes): (r: Boxes)
    requires ValidBoxes(b)
    ensures ValidBoxes(r) && r.selected == b.selected
    ensures b.slides[b.index] == Sliding ==> r == b
    ensures b.slides[b.index] != Sliding ==> r.index == Min(BoxCount - 1, b.index + 1)
    ensures r.index == b.index ==> r == b
    ensures r.index != b.index ==> r.slides[r.index] != NotStarted && r.slides[b.index] != NotStarted
    ensures forall j :: 0 <= j < BoxCount && j != r.index && j != b.index ==> r.slides[j] == b.slides[j]
  {
    if b.slides[b.index] == Sliding || b.index == BoxCount - 1 then b else MoveTo(b, b.index + 1)
  }

  /** Once both boxes have finished a slide, left and right undo each
      other away from the ends; a box that is not sliding stops a move
      only at the end. */
  lemma MovesUndo(b: Boxes)
    requires ValidBoxes(b)
    ensures b.index > 0 && b.slides[b.index] == Finished && b.slides[b.index - 1] == Finished ==>
              MoveRight(MoveLeft(b)) == b
    ensures b.index < BoxCount - 1 && b.slides[b.index] == Finished && b.slides[b.index + 1] == Finished ==>
              MoveLeft(MoveRight(b)) == b
    ensures b.slides[b.index] != Sliding ==> (b.index == 0 <==> MoveLeft(b) == b)
    ensures b.slides[b.index] != Sliding ==> (b.index == BoxCount - 1 <==> MoveRight(b) == b)
  {
    if b.index > 0 && b.slides[b.index] == Finished && b.slides[b.index - 1] == Finished {
      assert b.slides[b.index := Finished][b.index - 1 := Finished] == b.slides;
    }
    if b.index < BoxCount - 1 && b.slides[b.index] == Finished && b.slides[b.index + 1] == Finished {
      assert b.slides[b.index := Finished][b.index + 1 := Finished] == b.slides;
    }
  }

  /** A move onto a box whose slide has not finished (never started, or
      still running) leaves that box sliding, so a second move in the same
      frame is ignored. */
  lemma SecondMoveBlocked(b: Boxes)
    requires ValidBoxes(b)
    ensures b.index > 0 && b.slides[b.index] != Sliding && b.slides[b.index - 1] != Finished ==>
              MoveRight(MoveLeft(b)) == MoveLeft(b) && MoveLeft(b).index == b.index - 1
    ensures b.index < BoxCount - 1 && b.slides[b.index] != Sliding && b.slides[b.index + 1] != Finished ==>
              MoveLeft(MoveRight(b)) == MoveRight(b) && MoveRight(b).index == b.index + 1
  {
  }

  /** `selected_box`: the screen the highlighted box leads to; with two
      players the play box leads to the two-player song select. */
  function SelectedLocation(b: Boxes, is2p: bool): (r: string)
    requires ValidBoxes(b)
    ensures r in (if is2p then Locations2P else Locations)
    ensures r == "SETTINGS" <==> b.index == 2
    ensures r == "PRACTICE_SELECT" <==> b.index == 1
    ensures r == (if is2p then "SONG_SELECT_2P" else "SONG_SELECT") <==> b.index == 0
  {
    if is2p then Locations2P[b.index] else Locations[b.index]
  }

  /** `EntryPlayer.handle_input` given what the queries answer: nothing
      once a box is chosen; otherwise don chooses the highlighted box and
      the kats move the highlight. */
  function PlayerInputWith(b: Boxes, don: bool, left: bool, right: bool): (r: Boxes)
    requires ValidBoxes(b)
    ensures ValidBoxes(r)
    ensures b.selected ==> r == b
    ensures r.selected <==> b.selected || don
    ensures -1 <= r.index - b.index <= 1
    ensures !left && !right ==> r.index == b.index
  {
    if b.selected then b
    else
      var b1 := if don then b.(selected := true) else b;
      var b2 := if left then MoveLeft(b1) else b1;
      if right then MoveRight(b2) else b2
  }

  /** As written the player's `PlayerNum` goes to the queries, which then
      answer False, so a player's presses never change the boxes. */
  function PlayerInputAsWritten(b: Boxes, k: Keys, p: PlayerNum): (r: Boxes)
    requires ValidBoxes(b)
    ensures r == b
  {
    var don := QueryAsWritten(AsNum(p), k.lDon1, k.lDon2) || QueryAsWritten(AsNum(p), k.rDon1, k.rDon2);
    PlayerInputWith(b, don, QueryAsWritten(AsNum(p), k.lKat1, k.lKat2), QueryAsWritten(AsNum(p), k.rKat1, k.rKat2))
  }

  /** The player's input with the queries answering for player `p`. */
  function PlayerInput(b: Boxes, k: Keys, p: PlayerNum): (r: Boxes)
    requires ValidBoxes(b)
    ensures ValidBoxes(r)
    ensures b.selected ==> r == b
    ensures r.selected <==> b.selected || Don(k, p)
    ensures -1 <= r.index - b.index <= 1
    ensures !LeftKat(k, p) && !RightKat(k, p) ==> r.index == b.index
  {
    PlayerInputWith(b, Don(k, p), LeftKat(k, p), RightKat(k, p))
  }

  /** Both kats in one frame on the middle box. The middle box is reached
      from the fresh boxes by a right kat, which starts the first box's
      slide. While that slide runs, the left kat moves the highlight onto a
      sliding box and the right kat is ignored, so the frame ends on the
      first box; once the slides have finished, the right kat moves the
      highlight back and the frame ends on the middle box. */
  lemma BothKatsMoveOnce()
    ensures MoveRight(FreshBoxes) == Boxes(1, false, [Sliding, Sliding, Sliding])
    ensures PlayerInputWith(Boxes(1, false, [Sliding, Finished, Finished]), false, true, true).index == 0
    ensures PlayerInputWith(Boxes(1, false, [Finished, Finished, Finished]), false, true, true).index == 1
  {
  }

  // ---------------------------------------------------------------------
  // The screen.

  datatype Phase = SelectSide | SelectMode

  /** The screen's state: the phase, the side the cursor is on (0 player 1,
      1 back to the title, 2 player 2), the entered players in order,
      the current player number, whether two players have entered, and the
      mode boxes. */
  datatype Screen = Screen(phase: Phase, side: int, first: Option<PlayerNum>, second: Option<PlayerNum>,
                           playerNum: PlayerNum, is2p: bool, boxes: Boxes)

  const ScreenStart: Screen := Screen(SelectSide, 1, None, None, P1, false, FreshBoxes)

  /** The screen's invariant: the side and box in range, two players only
      after one, never the same number twice, and in side select with a
      player entered the cursor kept off that player's side. */
  predicate ValidScreen(s: Screen) {
    0 <= s.side <= 2 && ValidBoxes(s.boxes) &&
    (s.phase == SelectMode ==> s.first.Some?) &&
    (s.second.Some? ==> s.first.Some? && s.second.value != s.first.value) &&
    (s.is2p <==> s.second.Some?) &&
    (s.phase == SelectSide && s.first == Some(P1) ==> s.side in {1, 2}) &&
    (s.phase == SelectSide && s.first == Some(P2) ==> s.side in {0, 1})
  }

  lemma ScreenStartValid()
    ensures ValidScreen(ScreenStart)
  {
  }

  /** A frame's result: the screen, or the way back to the title. */
  datatype Step = Step(screen: Screen, toTitle: bool)

  /** The side the left kat moves to: a player already entered fixes the
      cursor next to their own side. */
  function SideLeft(first: Option<PlayerNum>, side: int): (r: int)
    requires 0 <= side <= 2
    ensures 0 <= r <= 2
    ensures first == Some(P1) ==> r == 1
    ensures first == Some(P2) ==> r == 0
    ensures first.None? ==> r == Max(0, side - 1)
  {
    if first == Some(P1) then 1 else if first == Some(P2) then 0 else Max(0, side - 1)
  }

  function SideRight(first: Option<PlayerNum>, side: int): (r: int)
    requires 0 <= side <= 2
    ensures 0 <= r <= 2
    ensures first == Some(P1) ==> r == 2
    ensures first == Some(P2) ==> r == 1
    ensures first.None? ==> r == Min(2, side + 1)
  {
    if first == Some(P1) then 2 else if first == Some(P2) then 1 else Min(2, side + 1)
  }

  /** A don on side 0 or 2 enters a player: the first entrant is that
      side's player, a second entrant makes the game two-player and the
      player number returns to P1. */
  function Enter(s: Screen): (r: Screen)
    requires s.side != 1
  {
    var num := if s.side == 0 then P1 else P2;
    if s.first.Some? then s.(second := Some(num), playerNum := P1, is2p := true, phase := SelectMode)
    else s.(first := Some(num), playerNum := num, is2p := false, phase := SelectMode)
  }

  /** `handle_input` in side select: a don on the middle side goes back to
      the title; a don elsewhere enters a player and opens mode select; the
      kats then move the side cursor (in the same frame). */
  function SideInput(s: Screen, k: Keys): (r: Step)
    requires ValidScreen(s) && s.phase == SelectSide
    ensures r.toTitle <==> AnyDon(k) && s.side == 1
    ensures r.toTitle ==> r.screen == s
    ensures !AnyDon(k) ==> r.screen.phase == SelectSide && r.screen.first == s.first && r.screen.second == s.second
    ensures AnyDon(k) && s.side != 1 ==> r.screen.phase == SelectMode
    ensures AnyDon(k) && s.side != 1 && s.first.None? ==>
              r.screen.first == Some(if s.side == 0 then P1 else P2) && r.screen.playerNum == r.screen.first.value && !r.screen.is2p
    ensures AnyDon(k) && s.side != 1 && s.first.Some? ==>
              r.screen.first == s.first && r.screen.second.Some? && r.screen.second.value != s.first.value &&
              r.screen.playerNum == P1 && r.screen.is2p
    ensures 0 <= r.screen.side <= 2
  {
    if AnyDon(k) && s.side == 1 then Step(s, true)
    else
      var s1 := if AnyDon(k) then Enter(s) else s;
      var s2 := if AnyLeftKat(k) then s1.(side := SideLeft(s1.first, s1.side)) else s1;
      var s3 := if AnyRightKat(k) then s2.(side := SideRight(s2.first, s2.side)) else s2;
      Step(s3, false)
  }

  /** The test that sends mode select back to side select, as written:
      `players[0] is P1 and l_don(P2) or r_don(P2)`, then the same with the
      players swapped, with queries that answer for the player asked.
      Python's `and` binds tighter than `or`, so a right don alone passes
      the test whoever has entered. */
  predicate BackToSideAsWritten(first: Option<PlayerNum>, k: Keys) {
    (first == Some(P1) && k.lDon2) || k.rDon2 || (first == Some(P2) && k.lDon1) || k.rDon1
  }

  /** The test as meant: the other player's don, once one player has
      entered. */
  predicate BackToSide(first: Option<PlayerNum>, k: Keys) {
    (first == Some(P1) && Don(k, P2)) || (first == Some(P2) && Don(k, P1))
  }

  /** `handle_input` in mode select with a given test for the way back:
      each entered player's input goes to the boxes in turn, then the test
      may reopen side select with the cursor on the middle. */
  function ModeInputWith(s: Screen, k: Keys, back: bool): (r: Screen)
    requires ValidScreen(s) && s.phase == SelectMode
    ensures ValidBoxes(r.boxes)
    ensures s.boxes.selected ==> r.boxes == s.boxes
    ensures r.boxes.selected <==> s.boxes.selected || Don(k, s.first.value) || (s.second.Some? && Don(k, s.second.value))
    ensures back ==> r.phase == SelectSide && r.side == 1
    ensures !back ==> r.phase == SelectMode && r.side == s.side
    ensures r.first == s.first && r.second == s.second && r.is2p == s.is2p && r.playerNum == s.playerNum
  {
    var b1 := PlayerInput(s.boxes, k, s.first.value);
    var b2 := if s.second.Some? then PlayerInput(b1, k, s.second.value) else b1;
    if back then s.(boxes := b2, phase := SelectSide, side := 1) else s.(boxes := b2)
  }

  /** `handle_input` in mode select as written: the players' inputs and
      both back tests go through queries given a `PlayerNum`, all of
      which answer False, so no press has any effect. */
  function ModeSelectAsWritten(s: Screen, k: Keys): (r: Screen)
    requires ValidScreen(s) && s.phase == SelectMode
    ensures r == s
  {
    var b1 := PlayerInputAsWritten(s.boxes, k, s.first.value);
    var b2 := if s.second.Some? then PlayerInputAsWritten(b1, k, s.second.value) else b1;
    var back := (s.first == Some(P1) && QueryAsWritten(AsNum(P2), k.lDon1, k.lDon2)) || QueryAsWritten(AsNum(P2), k.rDon1, k.rDon2)
             || (s.first == Some(P2) && QueryAsWritten(AsNum(P1), k.lDon1, k.lDon2)) || QueryAsWritten(AsNum(P1), k.rDon1, k.rDon2);
    if back then s.(boxes := b2, phase := SelectSide, side := 1) else s.(boxes := b2)
  }

  /** A lone first player pressing their own don in mode select: as written
      the box is not chosen, where with the queries answering for the
      player it is. */
  lemma OwnDonIgnored()
    ensures var s := Screen(SelectMode, 0, Some(P1), None, P1, false, FreshBoxes);
            var k := Keys(true, false, false, false, false, false, false, false);
            !ModeSelectAsWritten(s, k).boxes.selected && ModeInput(s, k).boxes.selected
  {
  }

  /** Mode select with the queries answering for the player asked but the
      back test read with Python's precedence. */
  function ModeInputPrecedence(s: Screen, k: Keys): (r: Screen)
    requires ValidScreen(s) && s.phase == SelectMode
    ensures r.phase == SelectSide <==> BackToSideAsWritten(s.first, k)
  {
    ModeInputWith(s, k, BackToSideAsWritten(s.first, k))
  }

  /** Once the queries answer, a lone first player choosing a box with the
      right don also reopens side select with the same press. */
  lemma OwnDonLeavesModeSelect()
    ensures var s := Screen(SelectMode, 0, Some(P1), None, P1, false, FreshBoxes);
            var k := Keys(false, true, false, false, false, false, false, false);
            var r := ModeInputPrecedence(s, k);
            r.boxes.selected && r.phase == SelectSide
  {
  }

  function ModeInput(s: Screen, k: Keys): (r: Screen)
    requires ValidScreen(s) && s.phase == SelectMode
    ensures r.phase == SelectSide <==> BackToSide(s.first, k)
  {
    ModeInputWith(s, k, BackToSide(s.first, k))
  }

  /** With the test as meant, a player's own presses never leave mode
      select: only the other player's don does. */
  lemma OwnDonStaysInModeSelect(s: Screen, k: Keys)
    requires ValidScreen(s) && s.phase == SelectMode
    requires !Don(k, if s.first.value == P1 then P2 else P1)
    ensures ModeInput(s, k).phase == SelectMode
  {
  }

  /** One frame of `handle_input`, with the key queries answering for the
      player asked and the back test as meant. */
  function Frame(s: Screen, k: Keys): (r: Step)
    requires ValidScreen(s)
    ensures !r.toTitle ==> ValidScreen(r.screen)
    ensures r.toTitle ==> s.phase == SelectSide && s.side == 1 && AnyDon(k)
  {
    if s.phase == SelectSide then
      var r := SideInput(s, k);
      SideInputValid(s, k);
      r
    else Step(ModeInput(s, k), false)
  }

  /** Side input keeps the invariant: a second entrant can only take the
      side the first left free. */
  lemma SideInputValid(s: Screen, k: Keys)
    requires ValidScreen(s) && s.phase == SelectSide
    ensures !SideInput(s, k).toTitle ==> ValidScreen(SideInput(s, k).screen)
  {
  }

  /** Once a box is chosen, frames in mode select leave the boxes alone. */
  lemma ChosenBoxStays(s: Screen, k: Keys)
    requires ValidScreen(s) && s.phase == SelectMode && s.boxes.selected
    ensures Frame(s, k).screen.boxes == s.boxes
  {
  }
}
