/** The audio engine's registry of live buffers: an intrusive doubly-linked
    list threaded through the buffers' `prev`/`next` pointers, with global
    `first`/`last` pointers (libs/audio/audio.c, track_audio_buffer and
    untrack_audio_buffer).

    The heap of buffers is a map from buffer identity to its two link
    fields; an identity missing from the map has both links NULL, which is
    what `calloc` leaves in a freshly allocated buffer. The abstraction
    `Represents(r, s)` ties a registry to the sequence of buffers the mixer
    walks, and the lemmas show that tracking appends and untracking removes. */
module AudioRegistry {
  import opened Common

  type BufferId = nat

  datatype Links = Links(prev: Option<BufferId>, next: Option<BufferId>)

  const Detached: Links := Links(None, None)

  datatype Registry = Registry(first: Option<BufferId>, last: Option<BufferId>, links: map<BufferId, Links>)

  const EmptyRegistry: Registry := Registry(None, None, map[])

  /** The link fields of buffer `b`; a buffer never linked has NULL links. */
  function LinksOf(r: Registry, b: BufferId): Links {
    if b in r.links then r.links[b] else Detached
  }

  function Head(s: seq<BufferId>): Option<BufferId> {
    if |s| == 0 then None else Some(s[0])
  }

  function Last(s: seq<BufferId>): Option<BufferId> {
    if |s| == 0 then None else Some(s[|s| - 1])
  }

  /** The neighbours buffer `s[i]` must point at in a list laid out as `s`. */
  function LinksAt(s: seq<BufferId>, i: nat): Links
    requires i < |s|
  {
    Links(if i == 0 then None else Some(s[i - 1]),
          if i == |s| - 1 then None else Some(s[i + 1]))
  }

  /** `r` is a well-formed list whose traversal from `first` visits `s`;
      every buffer outside the list is detached. */
  ghost predicate Represents(r: Registry, s: seq<BufferId>) {
    && Distinct(s)
    && r.first == Head(s)
    && r.last == Last(s)
    && (forall i :: 0 <= i < |s| ==> LinksOf(r, s[i]) == LinksAt(s, i))
    && (forall b :: b !in s ==> LinksOf(r, b) == Detached)
  }

  /** track_audio_buffer: append `b` at the tail. The buffer's own `next`
      is not written; it is NULL because the buffer was just allocated. */
  function Track(r: Registry, b: BufferId): Registry
    requires r.first.Some? ==> r.last.Some?
  {
    if r.first.None? then
      r.(first := Some(b), last := Some(b))
    else
      var l := r.last.value;
      var afterNext := r.links[l := LinksOf(r, l).(next := Some(b))];
      var afterPrev := afterNext[b := (if b in afterNext then afterNext[b] else Detached).(prev := Some(l))];
      r.(last := Some(b), links := afterPrev)
  }

  /** untrack_audio_buffer: splice `b` out through its own link fields and
      reset them to NULL. Membership of `b` is not checked. */
  function Untrack(r: Registry, b: BufferId): Registry {
    var lb := LinksOf(r, b);
    var r1 :=
      if lb.prev.None? then r.(first := lb.next)
      else r.(links := r.links[lb.prev.value := LinksOf(r, lb.prev.value).(next := lb.next)]);
    var r2 :=
      if lb.next.None? then r1.(last := lb.prev)
      else r1.(links := r1.links[lb.next.value := LinksOf(r1, lb.next.value).(prev := lb.prev)]);
    r2.(links := r2.links[b := Detached])
  }

  lemma EmptyRepresentsNothing()
    ensures Represents(EmptyRegistry, [])
  {
  }

  /** Tracking a buffer that is not registered appends it to the sequence. */
  lemma TrackAppends(r: Registry, s: seq<BufferId>, b: BufferId)
    requires Represents(r, s)
    requires b !in s
    ensures r.first.Some? ==> r.last.Some?
    ensures Represents(Track(r, b), s + [b])
  {
    var t := Track(r, b);
    var s' := s + [b];
    if |s| == 0 {
      assert LinksOf(t, b) == Detached;
      assert LinksAt(s', 0) == Detached;
    } else {
      var l := s[|s| - 1];
      assert LinksOf(t, l) == LinksAt(s', |s| - 1) by {
        assert LinksOf(r, l) == LinksAt(s, |s| - 1);
      }
      assert LinksOf(t, b) == LinksAt(s', |s|);
      forall i | 0 <= i < |s'|
        ensures LinksOf(t, s'[i]) == LinksAt(s', i)
      {
        if i < |s| - 1 {
          assert LinksOf(r, s[i]) == LinksAt(s, i);
          assert s[i] != l && s[i] != b;
        }
      }
      forall x | x !in s'
        ensures LinksOf(t, x) == Detached
      {
        assert x != l && x != b;
      }
    }
  }

  /** Removing one element of a sequence without repeats leaves a sequence
      without repeats that holds every other element. */
  lemma RemoveAtDistinct(s: seq<BufferId>, k: nat)
    requires Distinct(s)
    requires k < |s|
    ensures Distinct(RemoveAt(s, k))
    ensures forall x :: x in RemoveAt(s, k) <==> x in s && x != s[k]
  {
    var s' := RemoveAt(s, k);
    assert forall i :: 0 <= i < k ==> s'[i] == s[i];
    assert forall i :: k <= i < |s'| ==> s'[i] == s[i + 1];
    forall x
      ensures x in s' <==> x in s && x != s[k]
    {
      if x in s && x != s[k] {
        var j :| 0 <= j < |s| && s[j] == x;
        assert j != k;
        if j < k {
          assert s'[j] == x;
        } else {
          assert s'[j - 1] == x;
        }
      }
    }
  }

  /** The link fields after untracking `b`, buffer by buffer, when `b`'s
      neighbours are different buffers. */
  lemma UntrackLinksOf(r: Registry, b: BufferId, x: BufferId)
    requires LinksOf(r, b).prev != Some(b) && LinksOf(r, b).next != Some(b)
    requires LinksOf(r, b).prev.Some? ==> LinksOf(r, b).prev != LinksOf(r, b).next
    ensures var lb := LinksOf(r, b);
      LinksOf(Untrack(r, b), x) ==
        if x == b then Detached
        else if lb.prev == Some(x) then LinksOf(r, x).(next := lb.next)
        else if lb.next == Some(x) then LinksOf(r, x).(prev := lb.prev)
        else LinksOf(r, x)
  {
  }

  /** The neighbours of a registered buffer are distinct from it and from
      each other. */
  lemma NeighboursDiffer(r: Registry, s: seq<BufferId>, k: nat)
    requires Represents(r, s)
    requires k < |s|
    ensures LinksOf(r, s[k]) == LinksAt(s, k)
    ensures LinksOf(r, s[k]).prev != Some(s[k]) && LinksOf(r, s[k]).next != Some(s[k])
    ensures LinksOf(r, s[k]).prev.Some? ==> LinksOf(r, s[k]).prev != LinksOf(r, s[k]).next
  {
  }

  /** One remaining buffer after untracking `s[k]`: the one at position
      `i` of the shortened sequence, found at `i0` in the original. */
  lemma UntrackRelinksAt(r: Registry, s: seq<BufferId>, k: nat, i: nat)
    requires Distinct(s)
    requires k < |s| && i < |s| - 1
    requires LinksOf(r, s[k]) == LinksAt(s, k)
    requires LinksOf(r, s[if i < k then i else i + 1]) == LinksAt(s, if i < k then i else i + 1)
    ensures LinksOf(Untrack(r, s[k]), RemoveAt(s, k)[i]) == LinksAt(RemoveAt(s, k), i)
  {
    var b := s[k];
    var s' := RemoveAt(s, k);
    var i0 := if i < k then i else i + 1;
    assert s'[i] == s[i0];
    assert LinksAt(s, k).prev != Some(b) && LinksAt(s, k).next != Some(b);
    UntrackLinksOf(r, b, s[i0]);
    if i > 0 {
      assert s'[i - 1] == s[if i - 1 < k then i - 1 else i];
    }
    if i < |s'| - 1 {
      assert s'[i + 1] == s[if i + 1 < k then i + 1 else i + 2];
    }
  }

  /** After untracking, every remaining buffer points at its new neighbours. */
  lemma UntrackRelinks(r: Registry, s: seq<BufferId>, k: nat)
    requires Represents(r, s)
    requires k < |s|
    ensures forall i :: 0 <= i < |s| - 1 ==>
      LinksOf(Untrack(r, s[k]), RemoveAt(s, k)[i]) == LinksAt(RemoveAt(s, k), i)
  {
    forall i | 0 <= i < |s| - 1
      ensures LinksOf(Untrack(r, s[k]), RemoveAt(s, k)[i]) == LinksAt(RemoveAt(s, k), i)
    {
      UntrackRelinksAt(r, s, k, i);
    }
  }

  /** After untracking, the untracked buffer and every outsider is detached. */
  lemma UntrackDetaches(r: Registry, s: seq<BufferId>, k: nat)
    requires Represents(r, s)
    requires k < |s|
    ensures forall x :: x !in RemoveAt(s, k) ==> LinksOf(Untrack(r, s[k]), x) == Detached
  {
    var b := s[k];
    NeighboursDiffer(r, s, k);
    RemoveAtDistinct(s, k);
    forall x | x !in RemoveAt(s, k)
      ensures LinksOf(Untrack(r, b), x) == Detached
    {
      UntrackLinksOf(r, b, x);
    }
  }

  /** Untracking a registered buffer removes exactly it from the sequence
      and leaves it detached. */
  lemma UntrackRemoves(r: Registry, s: seq<BufferId>, b: BufferId)
    requires Represents(r, s)
    requires b in s
    ensures Represents(Untrack(r, b), RemoveAt(s, IndexOf(s, b)))
    ensures LinksOf(Untrack(r, b), b) == Detached
  {
    var k := IndexOf(s, b);
    RemoveAtDistinct(s, k);
    UntrackRelinks(r, s, k);
    UntrackDetaches(r, s, k);
    NeighboursDiffer(r, s, k);
    UntrackEnds(r, s, k);
  }

  /** After untracking, `first` and `last` point at the ends of the
      shortened sequence. */
  lemma UntrackEnds(r: Registry, s: seq<BufferId>, k: nat)
    requires k < |s|
    requires r.first == Head(s) && r.last == Last(s)
    requires LinksOf(r, s[k]) == LinksAt(s, k)
    ensures Untrack(r, s[k]).first == Head(RemoveAt(s, k))
    ensures Untrack(r, s[k]).last == Last(RemoveAt(s, k))
  {
    var s' := RemoveAt(s, k);
    if |s'| > 0 {
      assert s'[0] == if k == 0 then s[1] else s[0];
      assert s'[|s'| - 1] == if k == |s| - 1 then s[|s| - 2] else s[|s| - 1];
    }
  }

  /** Tracking a new buffer and untracking it again gives back the same
      first/last pointers and the same registered sequence. */
  lemma TrackThenUntrack(r: Registry, s: seq<BufferId>, b: BufferId)
    requires Represents(r, s)
    requires b !in s
    ensures r.first.Some? ==> r.last.Some?
    ensures Untrack(Track(r, b), b).first == r.first
    ensures Untrack(Track(r, b), b).last == r.last
    ensures Represents(Untrack(Track(r, b), b), s)
  {
    TrackAppends(r, s, b);
    UntrackRemoves(Track(r, b), s + [b], b);
    assert IndexOf(s + [b], b) == |s| by {
      assert (s + [b])[|s|] == b;
    }
    assert RemoveAt(s + [b], |s|) == s;
  }

  /** Untracking a buffer that was never registered is not harmless: its
      NULL links make the code reset `first` and `last`, so a non-empty
      registry loses every buffer. */
  lemma UntrackDetachedEmpties(r: Registry, s: seq<BufferId>, b: BufferId)
    requires Represents(r, s)
    requires b !in s
    ensures Untrack(r, b).first == None
    ensures Untrack(r, b).last == None
  {
  }
}
