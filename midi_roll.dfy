/** The piano-roll history of the MIDI synthesizer (9/scripts/midi.js,
    `setupAnalyser`): every started voice is tracked with its start time,
    and each animation frame prunes the entries older than six seconds by
    collecting their indices and splicing them out from the last to the
    first.  Drawing is left out. */
module PianoRoll {

  /** One tracked note: `trackNote`'s record. */
  datatype Played = Played(midi: int, start: real, duration: real)

  /** How long an entry stays on the roll, in seconds. */
  const Window: real := 6.0

  predicate Expired(item: Played, now: real)
  {
    now - item.start > Window
  }

  /** The entries that survive pruning at time `now`, in order. */
  function Kept(h: seq<Played>, now: real): (k: seq<Played>)
    ensures |k| <= |h|
  {
    if |h| == 0 then []
    else (if Expired(h[0], now) then [] else [h[0]]) + Kept(h[1..], now)
  }

  lemma {:induction false} KeptAppend(a: seq<Played>, b: seq<Played>, now: real)
    ensures Kept(a + b, now) == Kept(a, now) + Kept(b, now)
    decreases |a|
  {
    if |a| == 0 {
      assert a + b == b;
    } else {
      assert (a + b)[1..] == a[1..] + b;
      KeptAppend(a[1..], b, now);
    }
  }

  lemma {:induction false} KeptNone(s: seq<Played>, now: real)
    requires forall k :: 0 <= k < |s| ==> !Expired(s[k], now)
    ensures Kept(s, now) == s
  {
    if |s| > 0 {
      KeptNone(s[1..], now);
    }
  }

  /** Pruning keeps exactly the live entries: nothing expired survives and
      every live entry does. */
  lemma {:induction false} KeptExactly(h: seq<Played>, now: real)
    ensures forall k :: 0 <= k < |Kept(h, now)| ==> !Expired(Kept(h, now)[k], now)
    ensures forall x :: x in h && !Expired(x, now) ==> x in Kept(h, now)
    ensures forall x :: x in Kept(h, now) ==> x in h
  {
    if |h| > 0 {
      KeptExactly(h[1..], now);
      assert forall x :: x in h ==> x == h[0] || x in h[1..];
    }
  }

  /** The indices below `n` of the expired entries, in increasing order:
      the `toRemove` list the frame collects. */
  function ExpiredIndices(h: seq<Played>, now: real, n: nat): (e: seq<nat>)
    requires n <= |h|
    ensures forall a :: 0 <= a < |e| ==> e[a] < n && Expired(h[e[a]], now)
    ensures forall a, b :: 0 <= a < b < |e| ==> e[a] < e[b]
    ensures forall k :: 0 <= k < n && Expired(h[k], now) ==> k in e
  {
    if n == 0 then []
    else ExpiredIndices(h, now, n - 1) + (if Expired(h[n - 1], now) then [n - 1] else [])
  }

  /** The index below which the splicing loop has not yet changed anything. */
  function Boundary(e: seq<nat>, j: nat, n: nat): nat
  {
    if j < |e| then e[j] else n
  }

  /** No entry strictly between two consecutive indices of `e` (or after
      the last one) is expired. */
  lemma Gap(h: seq<Played>, now: real, j: nat, k: nat)
    requires 0 < j <= |ExpiredIndices(h, now, |h|)|
    requires ExpiredIndices(h, now, |h|)[j - 1] < k < Boundary(ExpiredIndices(h, now, |h|), j, |h|)
    ensures !Expired(h[k], now)
  {
  }

  /** Removing an expired entry at `i`, with only live entries up to `b`,
      from a list whose part from `b` on is already pruned extends the
      pruned part down to `i`. */
  lemma SpliceShape(h: seq<Played>, now: real, i: nat, b: nat, cur: seq<Played>)
    requires i < b <= |h| && Expired(h[i], now)
    requires forall k :: i < k < b ==> !Expired(h[k], now)
    requires cur == h[..b] + Kept(h[b..], now)
    ensures i < |cur| && cur[..i] + cur[i + 1..] == h[..i] + Kept(h[i..], now)
  {
    KeptFrom(h, now, i, b);
    CutOne(h, Kept(h[b..], now), i, b, cur);
  }

  /** From an expired entry up to `b` nothing else is expired: pruning the
      suffix from `i` drops that entry and keeps the rest up to `b`. */
  lemma KeptFrom(h: seq<Played>, now: real, i: nat, b: nat)
    requires i < b <= |h| && Expired(h[i], now)
    requires forall k :: i < k < b ==> !Expired(h[k], now)
    ensures Kept(h[i..], now) == h[i + 1..b] + Kept(h[b..], now)
  {
    KeptNone(h[i + 1..b], now);
    assert h[i..] == [h[i]] + (h[i + 1..b] + h[b..]);
    KeptAppend([h[i]], h[i + 1..b] + h[b..], now);
    KeptAppend(h[i + 1..b], h[b..], now);
    assert Kept([h[i]], now) == [];
  }

  /** Cutting index `i < b` out of `h[..b] + rest`. */
  lemma CutOne(h: seq<Played>, rest: seq<Played>, i: nat, b: nat, cur: seq<Played>)
    requires i < b <= |h| && cur == h[..b] + rest
    ensures i < |cur| && cur[..i] + cur[i + 1..] == h[..i] + (h[i + 1..b] + rest)
  {
    assert cur[..i] == h[..i];
    assert cur[i + 1..] == h[i + 1..b] + rest;
  }

  /** One splice of the backwards loop: removing the next index keeps the
      list equal to an untouched prefix followed by the pruned rest. */
  lemma SpliceStep(h: seq<Played>, now: real, j: nat, cur: seq<Played>)
    requires 0 < j <= |ExpiredIndices(h, now, |h|)|
    requires Boundary(ExpiredIndices(h, now, |h|), j, |h|) <= |h|
    requires cur == h[..Boundary(ExpiredIndices(h, now, |h|), j, |h|)]
                    + Kept(h[Boundary(ExpiredIndices(h, now, |h|), j, |h|)..], now)
    ensures ExpiredIndices(h, now, |h|)[j - 1] < |cur|
    ensures var i := ExpiredIndices(h, now, |h|)[j - 1];
            cur[..i] + cur[i + 1..] == h[..i] + Kept(h[i..], now)
  {
    var e := ExpiredIndices(h, now, |h|);
    var b := Boundary(e, j, |h|);
    var i := e[j - 1];
    forall k | i < k < b
      ensures !Expired(h[k], now)
    {
      Gap(h, now, j, k);
    }
    SpliceShape(h, now, i, b, cur);
  }

  /** No entry before the first expired index is expired. */
  lemma NoneBefore(h: seq<Played>, now: real, k: nat)
    requires k < Boundary(ExpiredIndices(h, now, |h|), 0, |h|) <= |h|
    ensures !Expired(h[k], now)
  {
  }

  /** Once every index is spliced out, the list is the pruned history. */
  lemma SpliceDone(h: seq<Played>, now: real, cur: seq<Played>)
    requires Boundary(ExpiredIndices(h, now, |h|), 0, |h|) <= |h|
    requires cur == h[..Boundary(ExpiredIndices(h, now, |h|), 0, |h|)]
                    + Kept(h[Boundary(ExpiredIndices(h, now, |h|), 0, |h|)..], now)
    ensures cur == Kept(h, now)
  {
    var e := ExpiredIndices(h, now, |h|);
    var b := Boundary(e, 0, |h|);
    forall k | 0 <= k < b
      ensures !Expired(h[k], now)
    {
      NoneBefore(h, now, k);
    }
    KeptNone(h[..b], now);
    assert h == h[..b] + h[b..];
    KeptAppend(h[..b], h[b..], now);
  }

  /** The piano roll's list of tracked notes. */
  class Roll {
    var history: seq<Played>

    constructor ()
      ensures history == []
    {
      history := [];
    }

    /** `trackNote(midi)`: record a note started at `now`, with the
        default duration of half a second. */
    method Track(midi: int, now: real)
      modifies this
      ensures history == old(history) + [Played(midi, now, 0.5)]
    {
      history := history + [Played(midi, now, 0.5)];
    }

    /** The pruning step of a frame at time `now`. */
    method Prune(now: real)
      modifies this
      ensures history == Kept(old(history), now)
    {
      var h := history;
      var toRemove: seq<nat> := [];
      for idx := 0 to |h|
        invariant toRemove == ExpiredIndices(h, now, idx)
      {
        if now - h[idx].start > Window {
          toRemove := toRemove + [idx];
        }
      }
      var cur := h;
      var j := |toRemove|;
      while j > 0
        invariant 0 <= j <= |toRemove|
        invariant Boundary(toRemove, j, |h|) <= |h|
        invariant cur == h[..Boundary(toRemove, j, |h|)] + Kept(h[Boundary(toRemove, j, |h|)..], now)
      {
        SpliceStep(h, now, j, cur);
        var i := toRemove[j - 1];
        cur := cur[..i] + cur[i + 1..];
        j := j - 1;
      }
      SpliceDone(h, now, cur);
      history := cur;
    }
  }
}
