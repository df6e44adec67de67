/** Practice mode (scenes/practice/game.py): the gogo-time markers drawn
    over the chart, scrubbing through the bars while paused, the bar a
    pause snaps to, and the note queues a resume starts from. */
module Practice {
  import opened Common
  import Tja
  import Game

  // ---------------------------------------------------------------------
  // Gogo-time markers.

  /** Note `i` begins a gogo-time stretch: it is in gogo time and is either
      the first note or follows one that is not. */
  predicate StartsGogo(notes: seq<Tja.Note>, i: int)
    requires 0 <= i < |notes|
  {
    notes[i].gogo && (i == 0 || !notes[i - 1].gogo)
  }

  predicate Increasing(ix: seq<int>) {
    forall a, b :: 0 <= a < b < |ix| ==> ix[a] < ix[b]
  }

  /** An increasing sequence of values in [lo, hi) has at most hi - lo
      elements. */
  lemma {:induction false} IncreasingBound(ix: seq<int>, lo: int, hi: int)
    requires Increasing(ix) && forall k :: 0 <= k < |ix| ==> lo <= ix[k] < hi
    ensures |ix| <= hi - lo || |ix| == 0
    decreases |ix|
  {
    if |ix| > 0 {
      var rest := ix[1..];
      assert forall k :: 0 <= k < |rest| ==> ix[0] + 1 <= rest[k] < hi by {
        forall k | 0 <= k < |rest| ensures ix[0] + 1 <= rest[k] < hi {
          assert rest[k] == ix[k + 1];
        }
      }
      IncreasingBound(rest, ix[0] + 1, hi);
    }
  }

  /** The positions of the notes that begin a gogo-time stretch, in order. */
  function GogoStarts(notes: seq<Tja.Note>): (ix: seq<int>)
    ensures Increasing(ix)
    ensures forall k :: 0 <= k < |ix| ==> 0 <= ix[k] < |notes| && StartsGogo(notes, ix[k])
    ensures forall i :: 0 <= i < |notes| && StartsGogo(notes, i) ==> i in ix
  {
    if |notes| == 0 then []
    else
      var n := |notes| - 1;
      var before := GogoStarts(notes[..n]);
      StartsGogoLift(notes, before);
      if StartsGogo(notes, n) then before + [n] else before
  }

  /** The stretch beginnings found among all notes but the last are
      stretch beginnings of all the notes, and all of those before the
      last. */
  lemma StartsGogoLift(notes: seq<Tja.Note>, before: seq<int>)
    requires |notes| > 0
    requires forall k :: 0 <= k < |before| ==> 0 <= before[k] < |notes| - 1 && StartsGogo(notes[..|notes| - 1], before[k])
    requires forall i :: 0 <= i < |notes| - 1 && StartsGogo(notes[..|notes| - 1], i) ==> i in before
    ensures forall k :: 0 <= k < |before| ==> StartsGogo(notes, before[k])
    ensures forall i :: 0 <= i < |notes| - 1 && StartsGogo(notes, i) ==> i in before
  {
    var n := |notes| - 1;
    forall k | 0 <= k < |before| ensures StartsGogo(notes, before[k]) {
      assert StartsGogo(notes[..n], before[k]);
    }
    forall i | 0 <= i < n && StartsGogo(notes, i) ensures i in before {
      assert StartsGogo(notes[..n], i);
    }
  }

  /** The marker times: the hit times of the stretch-beginning notes. */
  function GogoMarkers(notes: seq<Tja.Note>): (r: seq<real>)
  {
    var ix := GogoStarts(notes);
    seq(|ix|, k requires 0 <= k < |ix| => notes[ix[k]].hitMs)
  }

  /** `get_gogotime_markers`: one pass over the notes, recording a hit time
      whenever gogo time switches on. */
  method GetGogoTimeMarkers(notes: seq<Tja.Note>) returns (markers: seq<real>)
    ensures markers == GogoMarkers(notes)
  {
    markers := [];
    var i := 0;
    while i < |notes|
      invariant 0 <= i <= |notes|
      invariant markers == GogoMarkers(notes[..i])
    {
      GogoMarkersStep(notes, i);
      if i == 0 && notes[i].gogo {
        markers := markers + [notes[i].hitMs];
      } else if i > 0 && notes[i].gogo {
        if !notes[i - 1].gogo {
          markers := markers + [notes[i].hitMs];
        }
      }
      i := i + 1;
    }
    assert notes[..i] == notes;
  }

  /** One more note adds its hit time to the markers exactly when it
      begins a gogo-time stretch. */
  lemma GogoMarkersStep(notes: seq<Tja.Note>, i: int)
    requires 0 <= i < |notes|
    ensures GogoMarkers(notes[..i + 1]) == GogoMarkers(notes[..i]) + (if StartsGogo(notes, i) then [notes[i].hitMs] else [])
  {
    var p := notes[..i + 1];
    assert p[..i] == notes[..i];
    assert StartsGogo(p, i) == StartsGogo(notes, i);
    var before := GogoStarts(notes[..i]);
    var ix := GogoStarts(p);
    assert ix == before + (if StartsGogo(notes, i) then [i] else []);
    forall k | 0 <= k < |before| ensures p[ix[k]].hitMs == notes[..i][before[k]].hitMs {
      assert ix[k] == before[k];
    }
  }

  /** A chart played in gogo time throughout has a single marker, at its
      first note. */
  lemma {:induction false} AllGogoOneMarker(notes: seq<Tja.Note>)
    requires |notes| > 0 && forall i :: 0 <= i < |notes| ==> notes[i].gogo
    ensures GogoMarkers(notes) == [notes[0].hitMs]
  {
    var ix := GogoStarts(notes);
    assert StartsGogo(notes, 0);
    assert 0 in ix;
    forall k | 0 <= k < |ix| ensures ix[k] == 0 {
      assert StartsGogo(notes, ix[k]);
    }
    IncreasingBound(ix, 0, 1);
  }

  // ---------------------------------------------------------------------
  // Scrubbing through bars.

  /** Python's `seq[i]` for `-len(seq) <= i < len(seq)`. */
  function PyAt<T>(s: seq<T>, i: int): T
    requires -|s| <= i < |s|
  {
    if i >= 0 then s[i] else s[|s| + i]
  }

  /** The left key: one bar back, from the first bar (or from the -1 a pause
      near the start leaves) round to the last. */
  function ScrubLeft(index: int, count: nat): (r: int)
    requires count > 0 && -1 <= index < count
    ensures 0 <= r < count
    ensures 0 < index ==> r == index - 1
    ensures index <= 0 ==> r == count - 1
  {
    if index > 0 then index - 1 else count - 1
  }

  /** The right key: one bar on, from the last round to the first. */
  function ScrubRight(index: int, count: nat): (r: int)
    requires count > 0 && -1 <= index < count
    ensures 0 <= r < count
    ensures index < count - 1 ==> r == index + 1
    ensures index == count - 1 ==> r == 0
  {
    (index + 1) % count
  }

  /** Left and right undo each other on every bar index. */
  lemma ScrubInverse(index: int, count: nat)
    requires 0 <= index < count
    ensures ScrubLeft(ScrubRight(index, count), count) == index
    ensures ScrubRight(ScrubLeft(index, count), count) == index
  {
  }

  /** From the -1 left by a pause at the start, right reaches the first bar
      and left the last. */
  lemma ScrubFromBeforeStart(count: nat)
    requires count > 0
    ensures ScrubRight(-1, count) == 0 && ScrubLeft(-1, count) == count - 1
  {
  }

  // ---------------------------------------------------------------------
  // Pausing.

  /** How far bar `i`, measured from the first bar, is from the song time. */
  function BarDistance(bars: seq<Tja.Note>, i: int, currentMs: real): real
    requires 0 <= i < |bars|
  {
    Game.Abs(bars[i].hitMs - bars[0].hitMs - currentMs)
  }

  /** The first bar at the least distance from the song time. */
  predicate Nearest(bars: seq<Tja.Note>, k: int, currentMs: real)
    requires 0 <= k < |bars|
  {
    && (forall j :: 0 <= j < |bars| ==> BarDistance(bars, k, currentMs) <= BarDistance(bars, j, currentMs))
    && (forall j :: 0 <= j < k ==> BarDistance(bars, j, currentMs) > BarDistance(bars, k, currentMs))
  }

  /** The scan in `pause_song`: a bar replaces the best so far only when it
      is strictly nearer, so ties keep the earlier bar. */
  method NearestBar(bars: seq<Tja.Note>, currentMs: real) returns (nearest: int)
    requires |bars| > 0
    ensures 0 <= nearest < |bars| && Nearest(bars, nearest, currentMs)
  {
    nearest := 0;
    var minDistance := BarDistance(bars, 0, currentMs);
    var i := 1;
    while i < |bars|
      invariant 1 <= i <= |bars| && 0 <= nearest < i
      invariant minDistance == BarDistance(bars, nearest, currentMs)
      invariant forall j :: 0 <= j < i ==> minDistance <= BarDistance(bars, j, currentMs)
      invariant forall j :: 0 <= j < nearest ==> BarDistance(bars, j, currentMs) > minDistance
    {
      var distance := BarDistance(bars, i, currentMs);
      if distance < minDistance {
        minDistance := distance;
        nearest := i;
      }
      i := i + 1;
    }
  }

  /** The scrub position a pause leaves: the bar before the nearest one,
      which is -1 when the nearest is the first bar. */
  datatype Paused = Paused(scrobbleIndex: int, scrobbleTime: real)

  method PauseSong(bars: seq<Tja.Note>, currentMs: real) returns (p: Paused)
    requires |bars| > 0
    ensures -1 <= p.scrobbleIndex < |bars| - 1
    ensures Nearest(bars, p.scrobbleIndex + 1, currentMs)
    ensures p.scrobbleTime == PyAt(bars, p.scrobbleIndex).hitMs
    ensures p.scrobbleIndex == -1 ==> p.scrobbleTime == bars[|bars| - 1].hitMs
  {
    var nearest := NearestBar(bars, currentMs);
    p := Paused(nearest - 1, PyAt(bars, nearest - 1).hitMs);
  }

  // ---------------------------------------------------------------------
  // Resuming.

  /** The bar play resumes at, and the one before it where the music
      restarts; neither goes below the first bar. */
  function ResumeBars(scrobbleIndex: int): (r: (nat, nat))
    ensures r.0 == Max(0, scrobbleIndex) && r.1 == Max(0, scrobbleIndex - 1)
    ensures r.1 <= r.0 && (scrobbleIndex > 0 ==> r.1 == r.0 - 1)
  {
    (if scrobbleIndex > 0 then scrobbleIndex else 0, if scrobbleIndex > 1 then scrobbleIndex - 1 else 0)
  }

  /** The notes of a queue still to be played: those after `t`, in order. */
  function After(notes: seq<Tja.Note>, t: real): (r: seq<Tja.Note>)
    ensures |r| <= |notes|
    ensures forall x :: x in r <==> x in notes && x.hitMs > t
    ensures forall x :: multiset(r)[x] == if x.hitMs > t then multiset(notes)[x] else 0
    ensures forall i :: 0 <= i < |r| ==> r[i].hitMs > t
  {
    if |notes| == 0 then []
    else
      var rest := After(notes[..|notes| - 1], t);
      var last := notes[|notes| - 1];
      assert notes == notes[..|notes| - 1] + [last];
      if last.hitMs > t then rest + [last] else rest
  }

  /** The kept notes keep their order: the queue of two stretches of notes
      is the queue of the first followed by that of the second. */
  lemma {:induction false} AfterDistributes(a: seq<Tja.Note>, b: seq<Tja.Note>, t: real)
    ensures After(a + b, t) == After(a, t) + After(b, t)
    decreases |b|
  {
    if |b| == 0 {
      assert a + b == a;
    } else {
      var init := b[..|b| - 1];
      assert (a + b)[..|a + b| - 1] == a + init;
      assert (a + b)[|a + b| - 1] == b[|b| - 1];
      AfterDistributes(a, init, t);
    }
  }

  /** A queue with nothing after `t` keeps nothing. */
  lemma {:induction false} AfterNone(notes: seq<Tja.Note>, t: real)
    requires forall i :: 0 <= i < |notes| ==> notes[i].hitMs <= t
    ensures After(notes, t) == []
  {
    if |notes| > 0 {
      AfterNone(notes[..|notes| - 1], t);
    }
  }

  /** On a sorted queue whose last note is not after `t`, nothing is. */
  lemma AfterSortedNone(notes: seq<Tja.Note>, t: real)
    requires Tja.SortedByHit(notes) && |notes| > 0 && notes[|notes| - 1].hitMs <= t
    ensures After(notes, t) == []
  {
    assert forall i :: 0 <= i < |notes| ==> notes[i].hitMs <= t by {
      forall i | 0 <= i < |notes| ensures notes[i].hitMs <= t {
        assert notes[i].hitMs <= notes[|notes| - 1].hitMs;
      }
    }
    AfterNone(notes, t);
  }

  /** On a queue sorted by hit time, the kept notes are a suffix of it: the
      notes from position `k` on. */
  lemma {:induction false} AfterSortedIsSuffix(notes: seq<Tja.Note>, t: real) returns (k: nat)
    requires Tja.SortedByHit(notes)
    ensures k <= |notes| && After(notes, t) == notes[k..]
  {
    if |notes| == 0 {
      k := 0;
    } else if notes[|notes| - 1].hitMs > t {
      var init := notes[..|notes| - 1];
      SortedInit(notes);
      k := AfterSortedIsSuffix(init, t);
      AfterKeepsLast(notes, t);
      SuffixSnoc(notes, k);
    } else {
      AfterSortedNone(notes, t);
      k := |notes|;
    }
  }

  lemma AfterKeepsLast(notes: seq<Tja.Note>, t: real)
    requires |notes| > 0 && notes[|notes| - 1].hitMs > t
    ensures After(notes, t) == After(notes[..|notes| - 1], t) + [notes[|notes| - 1]]
  {
  }

  lemma SortedInit(notes: seq<Tja.Note>)
    requires Tja.SortedByHit(notes) && |notes| > 0
    ensures Tja.SortedByHit(notes[..|notes| - 1])
  {
  }

  lemma SuffixSnoc<T>(s: seq<T>, k: nat)
    requires k < |s|
    ensures s[k..] == s[..|s| - 1][k..] + [s[|s| - 1]]
  {
  }

  /** `0 < note.type < 5`: the notes counted towards `total_notes`. */
  function CountJudged(notes: seq<Tja.Note>): (n: nat)
    ensures n <= |notes|
    ensures n == 0 <==> forall i :: 0 <= i < |notes| ==> !(0 < notes[i].noteType < 5)
  {
    if |notes| == 0 then 0
    else
      var rest := CountJudged(notes[..|notes| - 1]);
      var last := notes[|notes| - 1];
      assert forall i :: 0 <= i < |notes| - 1 ==> notes[..|notes| - 1][i] == notes[i];
      rest + (if 0 < last.noteType < 5 then 1 else 0)
  }

  datatype Resumed = Resumed(queues: Game.Queues, totalNotes: nat, resumeTime: real, startTime: real)

  /** The resume half of `pause_song`: the queues of the reloaded chart keep
      the notes after the resume bar, and `total_notes` counts the judged
      notes of the whole reloaded chart. */
  function Resume(bars: seq<Tja.Note>, scrobbleIndex: int, startDelay: real, loaded: Game.Queues, playNotes: seq<Tja.Note>): (r: Resumed)
    requires |bars| > 0 && -1 <= scrobbleIndex < |bars|
    ensures scrobbleIndex <= 0 ==> r.resumeTime == startDelay && r.startTime == 0.0
    ensures scrobbleIndex > 0 ==> r.resumeTime == bars[scrobbleIndex].hitMs - bars[0].hitMs + startDelay
    ensures scrobbleIndex > 0 ==> r.startTime == bars[scrobbleIndex - 1].hitMs - bars[0].hitMs
    ensures forall x :: x in r.queues.dons <==> x in loaded.dons && x.hitMs > r.resumeTime
    ensures forall x :: x in r.queues.kats <==> x in loaded.kats && x.hitMs > r.resumeTime
    ensures forall x :: x in r.queues.others <==> x in loaded.others && x.hitMs > r.resumeTime
    ensures r.totalNotes == CountJudged(playNotes)
  {
    var (resumeBar, previousBar) := ResumeBars(scrobbleIndex);
    var resumeTime := bars[resumeBar].hitMs - bars[0].hitMs + startDelay;
    var startTime := bars[previousBar].hitMs - bars[0].hitMs;
    var q := Game.Queues(After(loaded.dons, resumeTime), After(loaded.kats, resumeTime), After(loaded.others, resumeTime));
    Resumed(q, CountJudged(playNotes), resumeTime, startTime)
  }
}
