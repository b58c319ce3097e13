/**
 * The sliding window of activity timestamps: a trim keeps exactly the
 * timestamps strictly newer than a cutoff, in their original order.
 */
module SlidingWindow {

  /** The counter tick trims to the last ten seconds. */
  const WindowSeconds: real := 10.0

  /** `a` is `b` with some elements left out, the rest in their original order. */
  ghost predicate Subsequence(a: seq<real>, b: seq<real>)
    decreases |b|
  {
    if a == [] then true
    else if b == [] then false
    else (a[0] == b[0] && Subsequence(a[1..], b[1..])) || Subsequence(a, b[1..])
  }

  /** [ts for ts in timestamps if ts > cutoff]. */
  function KeepNewer(ts: seq<real>, cutoff: real): (r: seq<real>)
    ensures |r| <= |ts|
    ensures forall i :: 0 <= i < |r| ==> r[i] > cutoff
    ensures forall t :: multiset(r)[t] == if t > cutoff then multiset(ts)[t] else 0
    ensures Subsequence(r, ts)
    decreases |ts|
  {
    if ts == [] then []
    else
      var rest := KeepNewer(ts[1..], cutoff);
      assert ts == [ts[0]] + ts[1..];
      if ts[0] > cutoff then [ts[0]] + rest else rest
  }

  /** How many pulses the window holds after trimming at `now`. */
  function CountInWindow(ts: seq<real>, now: real): nat {
    |KeepNewer(ts, now - WindowSeconds)|
  }

  /** Trimming a window and then appending one more timestamp. */
  lemma {:induction false} KeepNewerAppend(ts: seq<real>, t: real, cutoff: real)
    ensures KeepNewer(ts + [t], cutoff) == KeepNewer(ts, cutoff) + (if t > cutoff then [t] else [])
    decreases |ts|
  {
    if ts == [] {
      assert [] + [t] == [t];
      assert [t][1..] == [];
    } else {
      assert (ts + [t])[1..] == ts[1..] + [t];
      KeepNewerAppend(ts[1..], t, cutoff);
    }
  }

  /** A window whose every timestamp is newer than the cutoff is left as it is. */
  lemma {:induction false} KeepNewerOfNewer(ts: seq<real>, cutoff: real)
    requires forall i :: 0 <= i < |ts| ==> ts[i] > cutoff
    ensures KeepNewer(ts, cutoff) == ts
    decreases |ts|
  {
    if ts != [] {
      KeepNewerOfNewer(ts[1..], cutoff);
      assert ts == [ts[0]] + ts[1..];
    }
  }

  /** Trimming twice at the same cutoff is the same as trimming once. */
  lemma KeepNewerIdempotent(ts: seq<real>, cutoff: real)
    ensures KeepNewer(KeepNewer(ts, cutoff), cutoff) == KeepNewer(ts, cutoff)
  {
    KeepNewerOfNewer(KeepNewer(ts, cutoff), cutoff);
  }

  /** Two trims at increasing cutoffs are one trim at the later cutoff. */
  lemma {:induction false} KeepNewerCompose(ts: seq<real>, earlier: real, later: real)
    requires earlier <= later
    ensures KeepNewer(KeepNewer(ts, earlier), later) == KeepNewer(ts, later)
    decreases |ts|
  {
    if ts != [] {
      KeepNewerCompose(ts[1..], earlier, later);
      var rest := KeepNewer(ts[1..], earlier);
      if ts[0] > earlier {
        assert KeepNewer(ts, earlier) == [ts[0]] + rest;
        assert ([ts[0]] + rest)[1..] == rest;
      }
    }
  }

  /** The list comprehension of `remove_old_timestamps`, one timestamp at a time. */
  method FilterNewer(ts: seq<real>, cutoff: real) returns (kept: seq<real>)
    ensures kept == KeepNewer(ts, cutoff)
  {
    kept := [];
    var i := 0;
    while i < |ts|
      invariant 0 <= i <= |ts|
      invariant kept == KeepNewer(ts[..i], cutoff)
    {
      KeepNewerAppend(ts[..i], ts[i], cutoff);
      assert ts[..i + 1] == ts[..i] + [ts[i]];
      if ts[i] > cutoff {
        kept := kept + [ts[i]];
      }
      i := i + 1;
    }
    assert ts[..i] == ts;
  }
}
