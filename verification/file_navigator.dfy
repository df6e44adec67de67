/** The song-select file navigator (libs/file_navigator.py): wrap-around
    selection, the offsets and positions of the boxes round the selected
    one, folder crowns, the difficulty-sort statistics, the recent and
    favourite song lists and `box.def` folder descriptions. */
module FileNavigator {
  import opened Common
  import Text

  // ---------------------------------------------------------------------
  // Selection.

  /** `navigate_left`: one item back, from the first round to the last;
      nothing happens without items. */
  function NavigateLeft(selected: int, count: nat): (r: int)
    ensures count == 0 ==> r == selected
    ensures count > 0 ==> 0 <= r < count
    ensures 0 < selected <= count ==> r == selected - 1
    ensures count > 0 && selected == 0 ==> r == count - 1
  {
    if count > 0 then ModCases(selected - 1, count); (selected - 1) % count else selected
  }

  /** `navigate_right`: one item on, from the last round to the first. */
  function NavigateRight(selected: int, count: nat): (r: int)
    ensures count == 0 ==> r == selected
    ensures count > 0 ==> 0 <= r < count
    ensures -1 <= selected < count - 1 ==> r == selected + 1
    ensures count > 0 && selected == count - 1 ==> r == 0
  {
    if count > 0 then ModCases(selected + 1, count); (selected + 1) % count else selected
  }

  /** Left and right undo each other on every selected index. */
  lemma NavigateInverse(selected: int, count: nat)
    requires 0 <= selected < count
    ensures NavigateLeft(NavigateRight(selected, count), count) == selected
    ensures NavigateRight(NavigateLeft(selected, count), count) == selected
  {
  }

  // ---------------------------------------------------------------------
  // Box offsets and positions.

  /** The offset of box `i` from the selected one, taken the short way round
      the ring of `count` boxes. */
  function BoxOffset(i: int, selected: int, count: nat): (offset: int)
    requires 0 <= i < count && 0 <= selected < count
    ensures offset == i - selected || offset == i - selected - count || offset == i - selected + count
    ensures (-(count as int)) / 2 <= offset <= count / 2
    ensures offset == 0 <==> i == selected
  {
    var offset := i - selected;
    if offset > count / 2 then offset - count
    else if offset < (-(count as int)) / 2 then offset + count
    else offset
  }

  /** The layout constants: spacing between boxes, the gap the selected box
      opens, and the extra shift of the boxes to its right and left. */
  datatype Layout = Layout(baseSpacing: real, centerOffset: real, sideOffsetL: real, sideOffsetR: real)

  /** The song-select layout and the dan-select one, at a screen scale. */
  function LayoutFor(inDanSelect: bool, scale: real): (l: Layout)
    ensures scale > 0.0 ==> l.baseSpacing > 0.0 && l.centerOffset > 0.0 && l.sideOffsetL >= 0.0 && l.sideOffsetR >= 0.0
  {
    if inDanSelect then Layout(150.0 * scale, 150.0 * scale, 200.0 * scale, 500.0 * scale)
    else Layout(100.0 * scale, 150.0 * scale, 0.0 * scale, 300.0 * scale)
  }

  function BoxCenter(scale: real): real { 594.0 * scale }

  /** The target position of a box at `offset`: the selected box sits on
      the centre, the others are spaced from a point left of it, and those
      to the right and left move apart by the side offsets. */
  function BoxPosition(offset: int, l: Layout, center: real): (p: real)
    requires l.baseSpacing > 0.0
    ensures offset == 0 ==> p == center
    ensures offset > 0 ==> p == center - l.centerOffset + l.baseSpacing * offset as real + l.sideOffsetR
    ensures offset < 0 ==> p == center - l.centerOffset + l.baseSpacing * offset as real - l.sideOffsetL
  {
    var position := (center - l.centerOffset) + l.baseSpacing * offset as real;
    SpacingSign(l.baseSpacing, offset);
    if position == center - l.centerOffset then position + l.centerOffset
    else if position > center - l.centerOffset then position + l.sideOffsetR
    else position - l.sideOffsetL
  }

  lemma SpacingSign(spacing: real, offset: int)
    requires spacing > 0.0
    ensures offset == 0 <==> spacing * offset as real == 0.0
    ensures offset > 0 <==> spacing * offset as real > 0.0
  {
    if offset > 0 {
      assert spacing * offset as real >= spacing * 1.0;
    } else if offset < 0 {
      assert spacing * offset as real <= spacing * -1.0;
    }
  }

  lemma SpacingMonotone(spacing: real, a: int, b: int)
    requires spacing > 0.0 && a < b
    ensures spacing * a as real + spacing <= spacing * b as real
  {
    assert spacing * b as real - spacing * a as real == spacing * (b - a) as real;
    SpacingAtLeastOne(spacing, b - a);
  }

  /** A whole number of spacings, at least one, is at least one spacing. */
  lemma SpacingAtLeastOne(spacing: real, n: int)
    requires spacing > 0.0 && n >= 1
    ensures spacing * n as real >= spacing
  {
    assert spacing * n as real == spacing * (n - 1) as real + spacing;
    assert spacing * (n - 1) as real >= 0.0;
  }

  /** Boxes further right are placed further right, when the side offsets
      are not negative and a box next to the selected one clears the gap
      the selected box opens (true of both layouts). */
  lemma PositionsOrdered(a: int, b: int, l: Layout, center: real)
    requires l.baseSpacing > 0.0 && l.centerOffset >= 0.0 && l.sideOffsetL >= 0.0 && l.sideOffsetR >= 0.0
    requires l.baseSpacing + l.sideOffsetR > l.centerOffset
    requires a < b
    ensures BoxPosition(a, l, center) < BoxPosition(b, l, center)
  {
    if 0 < a || b < 0 {
      OrderedOnOneSide(a, b, l, center);
    } else if a == 0 {
      OrderedRightOfCentre(b, l, center);
    } else if b == 0 {
      OrderedLeftOfCentre(a, l, center);
    } else {
      OrderedAcrossCentre(a, b, l, center);
    }
  }

  /** Two boxes on the same side of the selected one are a whole number
      of spacings apart. */
  lemma OrderedOnOneSide(a: int, b: int, l: Layout, center: real)
    requires l.baseSpacing > 0.0
    requires 0 < a < b || a < b < 0
    ensures BoxPosition(a, l, center) < BoxPosition(b, l, center)
  {
    SpacingMonotone(l.baseSpacing, a, b);
  }

  lemma OrderedRightOfCentre(b: int, l: Layout, center: real)
    requires l.baseSpacing > 0.0 && l.sideOffsetR >= 0.0
    requires l.baseSpacing + l.sideOffsetR > l.centerOffset
    requires 0 < b
    ensures BoxPosition(0, l, center) < BoxPosition(b, l, center)
  {
    SpacingAtLeastOne(l.baseSpacing, b);
    assert BoxPosition(b, l, center) >= center - l.centerOffset + l.baseSpacing + l.sideOffsetR;
  }

  lemma OrderedLeftOfCentre(a: int, l: Layout, center: real)
    requires l.baseSpacing > 0.0 && l.centerOffset >= 0.0 && l.sideOffsetL >= 0.0
    requires a < 0
    ensures BoxPosition(a, l, center) < BoxPosition(0, l, center)
  {
    SpacingAtLeastOne(l.baseSpacing, -a);
    assert l.baseSpacing * a as real == -(l.baseSpacing * (-a) as real);
    assert BoxPosition(a, l, center) <= center - l.centerOffset - l.baseSpacing - l.sideOffsetL;
  }

  lemma OrderedAcrossCentre(a: int, b: int, l: Layout, center: real)
    requires l.baseSpacing > 0.0 && l.centerOffset >= 0.0 && l.sideOffsetL >= 0.0 && l.sideOffsetR >= 0.0
    requires a < 0 < b
    ensures BoxPosition(a, l, center) < BoxPosition(b, l, center)
  {
    SpacingAtLeastOne(l.baseSpacing, -a);
    assert l.baseSpacing * a as real == -(l.baseSpacing * (-a) as real);
    SpacingAtLeastOne(l.baseSpacing, b);
  }

  /** Both layouts meet the conditions of `PositionsOrdered`. */
  lemma LayoutsOrdered(inDanSelect: bool, scale: real)
    requires scale > 0.0
    ensures var l := LayoutFor(inDanSelect, scale);
            l.baseSpacing > 0.0 && l.centerOffset >= 0.0 && l.sideOffsetL >= 0.0 && l.sideOffsetR >= 0.0
            && l.baseSpacing + l.sideOffsetR > l.centerOffset
  {
  }

  /** A box's drawn position (None until first placed: Python's `inf`) and
      the target it moves to. */
  datatype BoxPlace = BoxPlace(position: Option<real>, target: real)

  /** `calculate_box_positions` for one box: a box not yet placed jumps to
      its target; a placed one only gets the new target. */
  function PlaceBox(b: BoxPlace, i: int, selected: int, count: nat, l: Layout, center: real): (r: BoxPlace)
    requires 0 <= i < count && 0 <= selected < count && l.baseSpacing > 0.0
    ensures r.target == BoxPosition(BoxOffset(i, selected, count), l, center)
    ensures b.position.None? ==> r.position == Some(r.target)
    ensures b.position.Some? ==> r.position == b.position
    ensures i == selected ==> r.target == center
  {
    var p := BoxPosition(BoxOffset(i, selected, count), l, center);
    if b.position.None? then BoxPlace(Some(p), p) else b.(target := p)
  }

  // ---------------------------------------------------------------------
  // Scores, folder crowns and the difficulty-sort statistics.

  const CrownNone: int := 0
  const CrownClear: int := 1
  const CrownFc: int := 2
  const CrownDfc: int := 3

  /** A stored score row, in the column order `get_scores` selects. */
  datatype ScoreRow = ScoreRow(score: int, good: int, ok: int, bad: int, drumroll: int, clear: int)

  /** `row[i]` for the six columns. */
  function Column(row: ScoreRow, i: int): int
    requires 0 <= i < 6
  {
    match i
    case 0 => row.score
    case 1 => row.good
    case 2 => row.ok
    case 3 => row.bad
    case 4 => row.drumroll
    case _ => row.clear
  }

  datatype FolderCrown = FolderDfc | FolderFc | FolderClear

  /** Whether every song of a folder has a score whose crown column
      satisfies `p`. */
  predicate AllCrowns(scores: seq<Option<ScoreRow>>, p: int -> bool) {
    forall i :: 0 <= i < |scores| ==> scores[i].Some? && p(Column(scores[i].value, 5))
  }

  /** `_calculate_directory_crowns` for one difficulty: DFC when every song
      is a DFC, FC when every song is exactly an FC, clear when every song
      is at least cleared, none otherwise (also when a song has no score). */
  function FolderCrownOf(scores: seq<Option<ScoreRow>>): (r: Option<FolderCrown>)
    ensures r == Some(FolderDfc) <==> AllCrowns(scores, c => c == CrownDfc)
    ensures r == Some(FolderFc) <==> !AllCrowns(scores, c => c == CrownDfc) && AllCrowns(scores, c => c == CrownFc)
    ensures r.Some? ==> forall i :: 0 <= i < |scores| ==> scores[i].Some? && scores[i].value.clear >= CrownClear
    ensures r.None? ==> exists i :: 0 <= i < |scores| && (scores[i].None? || scores[i].value.clear < CrownClear)
  {
    if AllCrowns(scores, c => c == CrownDfc) then Some(FolderDfc)
    else if AllCrowns(scores, c => c == CrownFc) then Some(FolderFc)
    else if AllCrowns(scores, c => c >= CrownClear) then Some(FolderClear)
    else None
  }

  /** A folder holding one DFC song and one FC song shows only a clear
      crown: the FC test asks for every song to be exactly FC. */
  lemma MixedFullCombosShowClear(a: ScoreRow, b: ScoreRow)
    requires a.clear == CrownDfc && b.clear == CrownFc
    ensures FolderCrownOf([Some(a), Some(b)]) == Some(FolderClear)
  {
    var s := [Some(a), Some(b)];
    assert !AllCrowns(s, c => c == CrownDfc) by { assert Column(s[1].value, 5) == CrownFc; }
    assert !AllCrowns(s, c => c == CrownFc) by { assert Column(s[0].value, 5) == CrownDfc; }
  }

  /** The folder crowns ranked: none, clear, FC, DFC. */
  function FolderRank(c: Option<FolderCrown>): nat {
    match c
    case None => 0
    case Some(FolderClear) => 1
    case Some(FolderFc) => 2
    case Some(FolderDfc) => 3
  }

  /** One song's crown on the same scale; a song without a score ranks
      with an uncleared one. */
  function SongRank(score: Option<ScoreRow>): nat {
    if score.None? then 0
    else
      var c := Column(score.value, 5);
      if c == CrownDfc then 3 else if c == CrownFc then 2 else if c >= CrownClear then 1 else 0
  }

  /** A folder's crown is never better than any of its songs' crowns. */
  lemma FolderCrownAtMostSong(scores: seq<Option<ScoreRow>>, i: nat)
    requires i < |scores|
    ensures FolderRank(FolderCrownOf(scores)) <= SongRank(scores[i])
  {
  }

  /** Adding a song to a folder never raises its crown. */
  lemma AddingSongNeverRaises(scores: seq<Option<ScoreRow>>, x: Option<ScoreRow>)
    ensures FolderRank(FolderCrownOf(scores + [x])) <= FolderRank(FolderCrownOf(scores))
  {
    var t := scores + [x];
    assert forall i :: 0 <= i < |scores| ==> t[i] == scores[i];
    var r := FolderCrownOf(scores);
    if r == Some(FolderFc) {
      assert !AllCrowns(t, c => c == CrownDfc) by {
        if |scores| > 0 {
          assert Column(t[0].value, 5) == CrownFc;
        }
      }
    } else if r == Some(FolderClear) {
      var i :| 0 <= i < |scores| && Column(scores[i].value, 5) != CrownDfc;
      var j :| 0 <= j < |scores| && Column(scores[j].value, 5) != CrownFc;
      assert !AllCrowns(t, c => c == CrownDfc) by { assert t[i] == scores[i]; }
      assert !AllCrowns(t, c => c == CrownFc) by { assert t[j] == scores[j]; }
    } else if r.None? {
      var i :| 0 <= i < |scores| && (scores[i].None? || scores[i].value.clear < CrownClear);
      assert t[i] == scores[i];
    }
  }

  /** One (course, level) bucket of the statistics: songs, full combos,
      clears. */
  datatype Stat = Stat(count: nat, fullCombos: nat, cleared: nat)

  predicate StatBounded(s: Stat) {
    s.fullCombos <= s.count && s.cleared <= s.count
  }

  /** The song's flags as the statistics read them: from column 4 of the
      row, which holds the drumroll count, where the folder crowns read the
      crown from column 5. */
  function StatFlags(row: Option<ScoreRow>): (r: (bool, bool))
    ensures row.None? ==> r == (false, false)
    ensures row.Some? ==> r == (row.value.drumroll == CrownFc, row.value.drumroll >= CrownClear)
  {
    match row
    case None => (false, false)
    case Some(sc) => (Column(sc, 4) == CrownFc, Column(sc, 4) >= CrownClear)
  }

  /** The flags follow the drumroll column, not the crown: a DFC play
      without drumroll hits counts as neither cleared nor a full combo. */
  lemma StatsReadDrumroll(row: ScoreRow)
    requires row.clear == CrownDfc && row.drumroll == 0
    ensures StatFlags(Some(row)) == (false, false)
  {
  }

  /** Adding a song to its bucket: a new bucket starts at one song with
      both flags; afterwards a full combo counts only as a full combo and
      anything else cleared as a clear. */
  function AddToStat(bucket: Option<Stat>, fullCombo: bool, cleared: bool): (r: Stat)
    ensures bucket.None? ==> r == Stat(1, if fullCombo then 1 else 0, if cleared then 1 else 0)
    ensures bucket.Some? ==> r.count == bucket.value.count + 1
    ensures bucket.Some? ==> r.fullCombos + r.cleared <= bucket.value.fullCombos + bucket.value.cleared + 1
    ensures bucket.Some? && StatBounded(bucket.value) ==> StatBounded(r)
  {
    match bucket
    case None => Stat(1, if fullCombo then 1 else 0, if cleared then 1 else 0)
    case Some(s) =>
      if fullCombo then Stat(s.count + 1, s.fullCombos + 1, s.cleared)
      else if cleared then Stat(s.count + 1, s.fullCombos, s.cleared + 1)
      else Stat(s.count + 1, s.fullCombos, s.cleared)
  }

  /** One course of one song: its course, level and stored row. */
  datatype CourseScore = CourseScore(course: int, level: int, row: Option<ScoreRow>)

  predicate AllBounded(stats: map<(int, int), Stat>) {
    forall k :: k in stats ==> StatBounded(stats[k])
  }

  /** The statistics after a run of courses, in load order. */
  function Statistics(stats: map<(int, int), Stat>, courses: seq<CourseScore>): (r: map<(int, int), Stat>)
    requires AllBounded(stats)
    ensures AllBounded(r)
    ensures stats.Keys <= r.Keys
    decreases |courses|
  {
    if |courses| == 0 then stats
    else
      var c := courses[0];
      var key := (c.course, c.level);
      var flags := StatFlags(c.row);
      var bucket := if key in stats then Some(stats[key]) else None;
      Statistics(stats[key := AddToStat(bucket, flags.0, flags.1)], courses[1..])
  }

  /** Every bucket counts exactly the courses with its course and level. */
  function CountKey(courses: seq<CourseScore>, key: (int, int)): nat {
    if |courses| == 0 then 0
    else (if (courses[0].course, courses[0].level) == key then 1 else 0) + CountKey(courses[1..], key)
  }

  lemma {:induction false} StatisticsCounts(stats: map<(int, int), Stat>, courses: seq<CourseScore>, key: (int, int))
    requires AllBounded(stats)
    ensures key in Statistics(stats, courses) <==> key in stats || CountKey(courses, key) > 0
    ensures key in Statistics(stats, courses) ==>
              Statistics(stats, courses)[key].count == (if key in stats then stats[key].count else 0) + CountKey(courses, key)
    decreases |courses|
  {
    if |courses| > 0 {
      var c := courses[0];
      var k := (c.course, c.level);
      var flags := StatFlags(c.row);
      var bucket := if k in stats then Some(stats[k]) else None;
      StatisticsCounts(stats[k := AddToStat(bucket, flags.0, flags.1)], courses[1..], key);
    }
  }

  // ---------------------------------------------------------------------
  // The recent list.

  const RecentLimit: nat := 25

  /** `add_recent`: the new entry first, older entries of the same song
      (those starting with its hash and a bar) dropped, 25 entries kept. */
  function AddRecent(entries: seq<string>, hash: string, entry: string): (r: seq<string>)
    requires Text.StartsWith(entry, hash + "|")
    ensures 1 <= |r| <= RecentLimit && r[0] == entry
    ensures forall i :: 1 <= i < |r| ==> r[i] in entries && !Text.StartsWith(r[i], hash + "|")
    ensures |entries| < RecentLimit ==> forall e :: e in entries && !Text.StartsWith(e, hash + "|") ==> e in r
    ensures |r| == Min(RecentLimit, 1 + |Others(entries, hash + "|")|)
    ensures r[1..] == Others(entries, hash + "|")[..|r| - 1]
  {
    var kept := Others(entries, hash + "|");
    [entry] + kept[..Min(RecentLimit - 1, |kept|)]
  }

  /** The entries not starting with `prefix`, in order. */
  function Others(entries: seq<string>, prefix: string): (r: seq<string>)
    ensures |r| <= |entries|
    ensures forall e :: e in r <==> e in entries && !Text.StartsWith(e, prefix)
    ensures forall e :: multiset(r)[e] == if Text.StartsWith(e, prefix) then 0 else multiset(entries)[e]
  {
    if |entries| == 0 then []
    else
      var rest := Others(entries[1..], prefix);
      assert entries == [entries[0]] + entries[1..];
      if Text.StartsWith(entries[0], prefix) then rest else [entries[0]] + rest
  }

  /** The kept entries keep their order: the others of two stretches of
      entries are the others of the first followed by those of the
      second. */
  lemma {:induction false} OthersDistributes(a: seq<string>, b: seq<string>, prefix: string)
    ensures Others(a + b, prefix) == Others(a, prefix) + Others(b, prefix)
    decreases |a|
  {
    if |a| == 0 {
      assert a + b == b;
    } else {
      assert (a + b)[0] == a[0];
      assert (a + b)[1..] == a[1..] + b;
      OthersDistributes(a[1..], b, prefix);
    }
  }

  lemma {:induction false} OthersTwice(entries: seq<string>, prefix: string)
    ensures Others(Others(entries, prefix), prefix) == Others(entries, prefix)
  {
    if |entries| > 0 {
      OthersTwice(entries[1..], prefix);
    }
  }

  /** Playing the same song twice leaves the list as playing it once. */
  lemma AddRecentIdempotent(entries: seq<string>, hash: string, entry: string)
    requires Text.StartsWith(entry, hash + "|")
    ensures AddRecent(AddRecent(entries, hash, entry), hash, entry) == AddRecent(entries, hash, entry)
  {
    var p := hash + "|";
    var kept := Others(entries, p);
    var n := Min(RecentLimit - 1, |kept|);
    var once := AddRecent(entries, hash, entry);
    assert once == [entry] + kept[..n];
    assert Others(once, p) == Others(kept[..n], p) by {
      assert once[0] == entry && once[1..] == kept[..n];
    }
    OthersPrefix(kept, p, n);
    assert kept[..n][..Min(RecentLimit - 1, n)] == kept[..n];
  }

  /** Filtering a prefix of an already filtered list keeps it whole. */
  lemma OthersPrefix(kept: seq<string>, prefix: string, n: nat)
    requires n <= |kept| && forall e :: e in kept ==> !Text.StartsWith(e, prefix)
    ensures Others(kept[..n], prefix) == kept[..n]
  {
    var s := kept[..n];
    forall i | 0 <= i < |s| ensures !Text.StartsWith(s[i], prefix) {
      assert s[i] == kept[i] && kept[i] in kept;
    }
    OthersKeepsAll(s, prefix);
  }

  /** A list with no entry to filter out is kept whole. */
  lemma {:induction false} OthersKeepsAll(s: seq<string>, prefix: string)
    requires forall i :: 0 <= i < |s| ==> !Text.StartsWith(s[i], prefix)
    ensures Others(s, prefix) == s
    decreases |s|
  {
    if |s| > 0 {
      assert !Text.StartsWith(s[0], prefix);
      assert forall i :: 0 <= i < |s[1..]| ==> s[1..][i] == s[i + 1];
      OthersKeepsAll(s[1..], prefix);
      assert s == [s[0]] + s[1..];
    }
  }

  // ---------------------------------------------------------------------
  // The favourites list.

  /** What `add_favorite` does to the favourites file. */
  datatype FavoriteWrite = NoWrite | Rewrite(lines: seq<string>) | Append(entry: string)

  /** The song a favourites line is about. */
  datatype Song = Song(hash: string, title: string, subtitle: string)

  /** A favourites line: `hash|title|subtitle`; None for any other number
      of fields, where unpacking raises. */
  function ParseFavorite(line: string): (r: Option<Song>)
    ensures r.Some? ==> |Text.Split(line, '|')| == 3
  {
    var fields := Text.Split(line, '|');
    if |fields| == 3 then Some(Song(fields[0], fields[1], fields[2])) else None
  }

  function FavoriteEntry(s: Song): string {
    s.hash + ['|'] + (s.title + ['|'] + s.subtitle)
  }

  /** A line is about the song when the hash matches, or both titles do. */
  predicate SameSong(a: Song, b: Song) {
    a.hash == b.hash || (a.title == b.title && a.subtitle == b.subtitle)
  }

  /** The scan over the file's lines (already stripped), front to back:
      None when a non-empty line does not have three fields; `found` when
      a line is about the song; `kept` the other non-empty lines. With
      `stopAtSong` the scan ends at the first line about the song, as
      `add_favorite` returns there outside the favourites folder, so the
      lines after it are never split. */
  datatype Scan = Scan(found: bool, kept: seq<string>)

  function ScanFavorites(lines: seq<string>, song: Song, stopAtSong: bool): (r: Option<Scan>)
    ensures r.Some? ==> forall l :: l in r.value.kept ==> l in lines && l != "" && ParseFavorite(l).Some? && !SameSong(ParseFavorite(l).value, song)
    ensures r.Some? && !r.value.found ==> forall l :: l in lines && l != "" ==> l in r.value.kept
    decreases |lines|
  {
    if |lines| == 0 then Some(Scan(false, []))
    else
      var line := lines[0];
      if line == "" then ScanFavorites(lines[1..], song, stopAtSong)
      else
        match ParseFavorite(line)
        case None => None
        case Some(s) =>
          if SameSong(s, song) && stopAtSong then Some(Scan(true, []))
          else
            match ScanFavorites(lines[1..], song, stopAtSong)
            case None => None
            case Some(rest) =>
              if SameSong(s, song) then Some(Scan(true, rest.kept))
              else Some(Scan(rest.found, [line] + rest.kept))
  }

  /** Every line before `i` is blank or has three fields. */
  predicate ReadableBefore(lines: seq<string>, i: nat)
    requires i <= |lines|
  {
    forall j :: 0 <= j < i ==> lines[j] == "" || ParseFavorite(lines[j]).Some?
  }

  /** Line `i` is a well-formed line about the song. */
  predicate ListsSong(lines: seq<string>, i: nat, song: Song)
    requires i < |lines|
  {
    lines[i] != "" && ParseFavorite(lines[i]).Some? && SameSong(ParseFavorite(lines[i]).value, song)
  }

  /** `add_favorite`: outside the favourites folder a listed song is
      refused without writing and an unlisted one appended; inside it the
      file is rewritten without the song. None where a malformed line
      raises. */
  function AddFavorite(lines: seq<string>, song: Song, inFavorites: bool): (r: Option<(bool, FavoriteWrite)>)
    ensures r.None? <==> ScanFavorites(lines, song, !inFavorites).None?
    ensures r.Some? && !inFavorites && ScanFavorites(lines, song, true).value.found ==> r.value == (false, NoWrite)
    ensures r.Some? && !inFavorites && !ScanFavorites(lines, song, true).value.found ==> r.value == (true, Append(FavoriteEntry(song)))
    ensures r.Some? && inFavorites ==> r.value == (true, Rewrite(ScanFavorites(lines, song, false).value.kept))
  {
    match ScanFavorites(lines, song, !inFavorites)
    case None => None
    case Some(scan) =>
      if scan.found && !inFavorites then Some((false, NoWrite))
      else if inFavorites then Some((true, Rewrite(scan.kept)))
      else Some((true, Append(FavoriteEntry(song))))
  }

  /** Outside the favourites folder the first line about the song refuses
      the add, whatever follows it, malformed lines included. */
  lemma {:induction false} RefusedAtFirstListed(lines: seq<string>, song: Song, i: nat)
    requires i < |lines| && ReadableBefore(lines, i) && ListsSong(lines, i, song)
    ensures ScanFavorites(lines, song, true).Some? && ScanFavorites(lines, song, true).value.found
    ensures AddFavorite(lines, song, false) == Some((false, NoWrite))
    decreases i
  {
    if i > 0 {
      assert ReadableBefore(lines[1..], i - 1) by {
        forall j | 0 <= j < i - 1 ensures lines[1..][j] == "" || ParseFavorite(lines[1..][j]).Some? {
          assert lines[1..][j] == lines[j + 1];
        }
      }
      assert lines[1..][i - 1] == lines[i];
      RefusedAtFirstListed(lines[1..], song, i - 1);
      if lines[0] != "" {
        assert ParseFavorite(lines[0]).Some?;
      }
    }
  }

  /** The song's own entry ahead of a malformed line: outside the
      favourites folder the add returns False, where the scan inside it
      reaches the malformed line and raises. */
  lemma RefusedBeforeMalformed(song: Song, bad: string)
    requires '|' !in song.hash && '|' !in song.title && '|' !in song.subtitle
    requires bad != "" && '|' !in bad
    ensures AddFavorite([FavoriteEntry(song), bad], song, false) == Some((false, NoWrite))
    ensures AddFavorite([FavoriteEntry(song), bad], song, true).None?
  {
    var lines := [FavoriteEntry(song), bad];
    FavoriteEntryParses(song);
    RefusedAtFirstListed(lines, song, 0);
    Text.SplitWithoutSep(bad, '|');
    assert lines[1..] == [bad];
    assert ScanFavorites([bad], song, false).None?;
  }

  /** The entry `add_favorite` writes reads back as the same song. */
  lemma FavoriteEntryParses(song: Song)
    requires '|' !in song.hash && '|' !in song.title && '|' !in song.subtitle
    ensures ParseFavorite(FavoriteEntry(song)) == Some(song)
  {
    Text.SplitThree(song.hash, song.title, song.subtitle, '|');
  }

  /** A line about the song makes the scan find it, wherever it is. */
  lemma {:induction false} ScanFindsListed(lines: seq<string>, song: Song, stopAtSong: bool, i: nat)
    requires i < |lines| && ListsSong(lines, i, song)
    requires ScanFavorites(lines, song, stopAtSong).Some?
    ensures ScanFavorites(lines, song, stopAtSong).value.found
    decreases i
  {
    if i > 0 && !(lines[0] != "" && SameSong(ParseFavorite(lines[0]).value, song)) {
      assert lines[1..][i - 1] == lines[i];
      ScanFindsListed(lines[1..], song, stopAtSong, i - 1);
    }
  }

  /** After a song is appended, adding it again outside the favourites
      folder is refused. */
  lemma AddFavoriteTwiceRefused(lines: seq<string>, song: Song)
    requires '|' !in song.hash && '|' !in song.title && '|' !in song.subtitle
    requires AddFavorite(lines, song, false) == Some((true, Append(FavoriteEntry(song))))
    ensures AddFavorite(lines + [FavoriteEntry(song)], song, false) == Some((false, NoWrite))
  {
    var after := lines + [FavoriteEntry(song)];
    FavoriteEntryParses(song);
    ScanAppend(lines, FavoriteEntry(song), song);
    assert after[|lines|] == FavoriteEntry(song);
    ScanFindsListed(after, song, true, |lines|);
  }

  /** Appending a well-formed line keeps a scan that got to the end
      succeeding. */
  lemma {:induction false} ScanAppend(lines: seq<string>, line: string, song: Song)
    requires ScanFavorites(lines, song, true).Some? && !ScanFavorites(lines, song, true).value.found
    requires line != "" && ParseFavorite(line).Some?
    ensures ScanFavorites(lines + [line], song, true).Some?
    decreases |lines|
  {
    if |lines| == 0 {
      assert lines + [line] == [line];
    } else {
      assert (lines + [line])[1..] == lines[1..] + [line];
      ScanAppend(lines[1..], line, song);
    }
  }

  // ---------------------------------------------------------------------
  // box.def.

  const DefaultIndex: int := 9

  /** `GENRE_MAP`, then `GENRE_MAP_2`, else the default box texture. */
  function GenreIndex(genre: string): (r: int)
    ensures r == DefaultIndex <==> genre !in GenreMap() && genre !in GenreMap2()
    ensures genre in GenreMap() ==> r == GenreMap()[genre]
    ensures genre !in GenreMap() && genre in GenreMap2() ==> r == GenreMap2()[genre]
  {
    var first := if genre in GenreMap() then GenreMap()[genre] else DefaultIndex;
    if first == DefaultIndex then (if genre in GenreMap2() then GenreMap2()[genre] else DefaultIndex) else first
  }

  function GenreMap(): (m: map<string, int>)
    ensures forall g :: g in m ==> m[g] != DefaultIndex
  {
    map["J-POP" := 1, "アニメ" := 2, "VOCALOID" := 3, "どうよう" := 4, "バラエティー" := 5,
        "クラシック" := 6, "ゲームミュージック" := 7, "ナムコオリジナル" := 8, "RECOMMENDED" := 10,
        "FAVORITE" := 11, "RECENT" := 12, "段位道場" := 13, "DIFFICULTY" := 14]
  }

  function GenreMap2(): (m: map<string, int>)
    ensures forall g :: g in m ==> m[g] != DefaultIndex
  {
    map["ボーカロイド" := 3, "バラエティ" := 5]
  }

  datatype BoxDef = BoxDef(name: string, textureIndex: int, genre: string, collection: Option<string>)

  /** `line.split(":", 1)[1]`: the text after the first colon; None where
      there is none and indexing raises. */
  function AfterFirstColon(line: string): (r: Option<string>)
    ensures r.None? <==> ':' !in line
    ensures r.Some? ==> exists i :: 0 <= i < |line| && line[i] == ':' && ':' !in line[..i] && r.value == line[i + 1..]
  {
    match Text.Find(line, ':')
    case None => None
    case Some(i) => Some(line[i + 1..])
  }

  /** What one stripped `box.def` line sets; None where a `#COLLECTION`
      line without a colon raises. */
  function ApplyLine(b: BoxDef, line: string, japanese: bool): (r: Option<BoxDef>)
    ensures !Text.StartsWith(line, "#GENRE:") && r.Some? ==> r.value.textureIndex == b.textureIndex && r.value.genre == b.genre
    ensures Text.StartsWith(line, "#GENRE:") ==> r.Some? && r.value.textureIndex == GenreIndex(r.value.genre)
    ensures r.None? ==> Text.StartsWith(line, "#COLLECTION") && ':' !in line
  {
    if Text.StartsWith(line, "#GENRE:") then
      var genre := Text.Strip(line[7..]);
      Some(b.(genre := genre, textureIndex := GenreIndex(genre)))
    else if Text.StartsWith(line, "#TITLE:") then Some(b.(name := Text.Strip(line[7..])))
    else if Text.StartsWith(line, "#TITLEJA:") then
      if japanese then Some(b.(name := Text.Strip(line[9..]))) else Some(b)
    else if Text.StartsWith(line, "#COLLECTION") then
      match AfterFirstColon(line)
      case None => None
      case Some(v) => Some(b.(collection := Some(Text.Strip(v))))
    else Some(b)
  }

  /** The fallback at the end of each line: an empty name becomes the
      genre, or the folder's name when there is no genre. */
  function NameFallback(b: BoxDef, dirName: string): (r: BoxDef)
    ensures b.name != "" ==> r == b
    ensures b.name == "" ==> r == b.(name := if b.genre != "" then b.genre else dirName)
    ensures dirName != "" ==> r.name != ""
  {
    if b.name == "" then b.(name := if b.genre != "" then b.genre else dirName) else b
  }

  predicate HasGenreLine(lines: seq<string>) {
    exists i :: 0 <= i < |lines| && Text.StartsWith(Text.Strip(lines[i]), "#GENRE:")
  }

  /** `parse_box_def` over the file's lines: the folder name by default,
      the default texture, no collection; a failing line keeps what was
      read before it. */
  function ParseBoxDef(lines: seq<string>, dirName: string, japanese: bool): (r: BoxDef)
    ensures dirName != "" ==> r.name != ""
    ensures !HasGenreLine(lines) ==> r.textureIndex == DefaultIndex
  {
    ParseFrom(BoxDef(dirName, DefaultIndex, "", None), lines, dirName, japanese)
  }

  function ParseFrom(b: BoxDef, lines: seq<string>, dirName: string, japanese: bool): (r: BoxDef)
    requires dirName != "" ==> b.name != ""
    ensures dirName != "" ==> r.name != ""
    ensures !HasGenreLine(lines) ==> r.textureIndex == b.textureIndex
    decreases |lines|
  {
    if |lines| == 0 then b
    else
      assert !HasGenreLine(lines) ==> !HasGenreLine(lines[1..]) && !Text.StartsWith(Text.Strip(lines[0]), "#GENRE:") by {
        if !HasGenreLine(lines) {
          forall i | 0 <= i < |lines| - 1 ensures !Text.StartsWith(Text.Strip(lines[1..][i]), "#GENRE:") {
            assert lines[1..][i] == lines[i + 1];
          }
        }
      }
      match ApplyLine(b, Text.Strip(lines[0]), japanese)
      case None => b
      case Some(n) => ParseFrom(NameFallback(n, dirName), lines[1..], dirName, japanese)
  }

  /** One line of the parse: a line that raises ends it, any other is
      applied, the name fallback runs, and the parse goes on. */
  lemma ParseFromStep(b: BoxDef, lines: seq<string>, dirName: string, japanese: bool)
    requires (dirName != "" ==> b.name != "") && |lines| > 0
    ensures ApplyLine(b, Text.Strip(lines[0]), japanese).None? ==> ParseFrom(b, lines, dirName, japanese) == b
    ensures ApplyLine(b, Text.Strip(lines[0]), japanese).Some? ==>
              (ParseFrom(b, lines, dirName, japanese)
               == ParseFrom(NameFallback(ApplyLine(b, Text.Strip(lines[0]), japanese).value, dirName), lines[1..], dirName, japanese))
  {
  }

  lemma ApplyGenreLine(b: BoxDef, line: string, japanese: bool)
    requires Text.StartsWith(line, "#GENRE:")
    ensures ApplyLine(b, line, japanese) == Some(b.(genre := Text.Strip(line[7..]), textureIndex := GenreIndex(Text.Strip(line[7..]))))
  {
  }

  lemma ApplyTitleLine(b: BoxDef, line: string, japanese: bool)
    requires Text.StartsWith(line, "#TITLE:")
    ensures ApplyLine(b, line, japanese) == Some(b.(name := Text.Strip(line[7..])))
  {
    assert line[1] == 'T';
  }

  lemma ApplyCollectionLine(b: BoxDef, line: string, japanese: bool)
    requires Text.StartsWith(line, "#COLLECTION")
    ensures ':' !in line ==> ApplyLine(b, line, japanese).None?
    ensures ':' in line ==> ApplyLine(b, line, japanese) == Some(b.(collection := Some(Text.Strip(AfterFirstColon(line).value))))
  {
    assert line[..11] == "#COLLECTION";
    assert line[1] == 'C' by { assert line[..11][1] == line[1]; }
    assert !Text.StartsWith(line, "#GENRE:") by { assert line[..7][1] == line[1]; }
    assert !Text.StartsWith(line, "#TITLE:") by { assert line[..7][1] == line[1]; }
    assert !Text.StartsWith(line, "#TITLEJA:") by { assert line[..9][1] == line[1]; }
  }

  /** A lone genre line sets the genre and its box texture and keeps the
      folder's name. */
  lemma GenreLineSetsTexture(line: string, dirName: string, japanese: bool)
    requires dirName != "" && Text.StartsWith(Text.Strip(line), "#GENRE:")
    ensures var genre := Text.Strip(Text.Strip(line)[7..]);
            ParseBoxDef([line], dirName, japanese) == BoxDef(dirName, GenreIndex(genre), genre, None)
  {
    var b0 := BoxDef(dirName, DefaultIndex, "", None);
    ApplyGenreLine(b0, Text.Strip(line), japanese);
    ParseFromStep(b0, [line], dirName, japanese);
  }

  /** A lone title line names the box, falling back to the folder's name
      when the title is empty, and keeps the default texture. */
  lemma TitleLineNames(line: string, dirName: string, japanese: bool)
    requires dirName != "" && Text.StartsWith(Text.Strip(line), "#TITLE:")
    ensures var title := Text.Strip(Text.Strip(line)[7..]);
            ParseBoxDef([line], dirName, japanese) == BoxDef(if title != "" then title else dirName, DefaultIndex, "", None)
  {
    var b0 := BoxDef(dirName, DefaultIndex, "", None);
    ApplyTitleLine(b0, Text.Strip(line), japanese);
    ParseFromStep(b0, [line], dirName, japanese);
  }

  /** A title line then a genre line: both take effect. */
  lemma TitleThenGenre(title: string, genre: string, dirName: string, japanese: bool)
    requires dirName != "" && Text.StartsWith(Text.Strip(title), "#TITLE:") && Text.StartsWith(Text.Strip(genre), "#GENRE:")
    ensures var t := Text.Strip(Text.Strip(title)[7..]);
            var g := Text.Strip(Text.Strip(genre)[7..]);
            ParseBoxDef([title, genre], dirName, japanese) == BoxDef(if t != "" then t else dirName, GenreIndex(g), g, None)
  {
    var t := Text.Strip(Text.Strip(title)[7..]);
    var b0 := BoxDef(dirName, DefaultIndex, "", None);
    ApplyTitleLine(b0, Text.Strip(title), japanese);
    ParseFromStep(b0, [title, genre], dirName, japanese);
    var b1 := NameFallback(b0.(name := t), dirName);
    assert b1 == BoxDef(if t != "" then t else dirName, DefaultIndex, "", None);
    assert [title, genre][1..] == [genre];
    ApplyGenreLine(b1, Text.Strip(genre), japanese);
    ParseFromStep(b1, [genre], dirName, japanese);
  }

  /** A collection line with a colon sets the collection to the text after
      it. */
  lemma CollectionLineSets(line: string, dirName: string, japanese: bool)
    requires dirName != "" && Text.StartsWith(Text.Strip(line), "#COLLECTION") && ':' in Text.Strip(line)
    ensures ParseBoxDef([line], dirName, japanese)
         == BoxDef(dirName, DefaultIndex, "", Some(Text.Strip(AfterFirstColon(Text.Strip(line)).value)))
  {
    var b0 := BoxDef(dirName, DefaultIndex, "", None);
    ApplyCollectionLine(b0, Text.Strip(line), japanese);
    ParseFromStep(b0, [line], dirName, japanese);
  }

  /** A collection line without a colon raises, which ends the parse: the
      lines after it, a genre line included, are not read. */
  lemma ColonlessCollectionStops(line: string, genre: string, dirName: string, japanese: bool)
    requires dirName != "" && Text.StartsWith(Text.Strip(line), "#COLLECTION") && ':' !in Text.Strip(line)
    ensures ParseBoxDef([line, genre], dirName, japanese) == BoxDef(dirName, DefaultIndex, "", None)
  {
    var b0 := BoxDef(dirName, DefaultIndex, "", None);
    ApplyCollectionLine(b0, Text.Strip(line), japanese);
    ParseFromStep(b0, [line, genre], dirName, japanese);
  }
}
