/**
 * The notification feed between the monitor and its overlay clients: each
 * state change is written as the decimal code followed by a newline, and a
 * state is pushed only when it differs from the one pushed before it.
 */
module Protocol {
  import opened Wrappers
  import opened Decimal

  /** f"{value}\n": the bytes one broadcast writes to each client. */
  function Frame(value: int): (bytes: string)
    ensures |bytes| >= 2 && bytes[|bytes| - 1] == '\n'
    ensures '\n' !in bytes[..|bytes| - 1]
  {
    IntToString(value) + "\n"
  }

  /** What a client's atoi() reads from one frame is the value that was sent. */
  lemma FrameReadsBack(value: int)
    ensures Atoi(Frame(value)) == value
  {
    AtoiOfIntToString(value, "\n");
  }

  /**
   * Two frames that reach a client in one read(): atoi() stops at the first
   * newline, so only the first code is acted on.
   */
  lemma CoalescedFramesReadFirst(first: int, second: int)
    ensures Atoi(Frame(first) + Frame(second)) == first
  {
    var rest := "\n" + Frame(second);
    assert rest[0] == '\n';
    assert Frame(first) + Frame(second) == IntToString(first) + rest;
    AtoiOfIntToString(first, rest);
  }

  /**
   * The values a notification loop broadcasts when it resolves the states
   * `resolved` one tick after another, starting from the remembered value
   * `prev`: a tick broadcasts exactly when its state differs from the last
   * one remembered, and every tick remembers its state.
   */
  function Broadcasts<T(==)>(prev: Option<T>, resolved: seq<T>): (sent: seq<T>)
    ensures |sent| <= |resolved|
    ensures forall i :: 0 <= i < |sent| ==> sent[i] in resolved
    decreases |resolved|
  {
    if resolved == [] then []
    else (if prev != Some(resolved[0]) then [resolved[0]] else []) + Broadcasts(Some(resolved[0]), resolved[1..])
  }

  /** `k` ticks in a row that resolve the same state. */
  function Repeat<T>(x: T, k: nat): (r: seq<T>)
    ensures |r| == k && forall i :: 0 <= i < k ==> r[i] == x
  {
    if k == 0 then [] else [x] + Repeat(x, k - 1)
  }

  /** A steady state after a change is broadcast once, however many ticks it lasts. */
  lemma {:induction false} SteadyRunBroadcastsOnce<T>(prev: Option<T>, x: T, k: nat)
    requires k >= 1 && prev != Some(x)
    ensures Broadcasts(prev, Repeat(x, k)) == [x]
  {
    SteadyRunBroadcastsNothing(x, k - 1);
    assert Repeat(x, k)[1..] == Repeat(x, k - 1);
  }

  /** Ticks that resolve the value already remembered broadcast nothing. */
  lemma {:induction false} SteadyRunBroadcastsNothing<T>(x: T, k: nat)
    ensures Broadcasts(Some(x), Repeat(x, k)) == []
  {
    if k > 0 {
      SteadyRunBroadcastsNothing(x, k - 1);
      assert Repeat(x, k)[1..] == Repeat(x, k - 1);
    }
  }

  /**
   * The feed never repeats itself: the first value sent differs from the one
   * remembered before, and no two consecutive values sent are equal.
   */
  lemma {:induction false} BroadcastsOnlyChanges<T>(prev: Option<T>, resolved: seq<T>)
    ensures var sent := Broadcasts(prev, resolved);
      (sent != [] ==> prev != Some(sent[0])) &&
      forall i :: 0 <= i < |sent| - 1 ==> sent[i] != sent[i + 1]
    decreases |resolved|
  {
    if resolved != [] {
      var rest := Broadcasts(Some(resolved[0]), resolved[1..]);
      BroadcastsOnlyChanges(Some(resolved[0]), resolved[1..]);
      if prev != Some(resolved[0]) {
        var sent := [resolved[0]] + rest;
        assert Broadcasts(prev, resolved) == sent;
        forall i | 0 <= i < |sent| - 1 ensures sent[i] != sent[i + 1] {
          if i > 0 { assert sent[i] == rest[i - 1] && sent[i + 1] == rest[i]; }
        }
      } else {
        assert Broadcasts(prev, resolved) == rest;
      }
    }
  }

  /** The first tick after a `None` start broadcasts whatever it resolves. */
  lemma FirstTickAlwaysBroadcasts<T>(x: T, rest: seq<T>)
    ensures Broadcasts(None, [x] + rest) == [x] + Broadcasts(Some(x), rest)
  {
    assert ([x] + rest)[1..] == rest;
  }

  /** The value remembered after the ticks `resolved`, starting from `prev`. */
  function Remembered<T>(prev: Option<T>, resolved: seq<T>): (r: Option<T>)
    ensures resolved != [] ==> r == Some(resolved[|resolved| - 1])
    ensures resolved == [] ==> r == prev
  {
    if resolved == [] then prev else Some(resolved[|resolved| - 1])
  }

  /**
   * The state the loop remembers is always the last one it sent, or the one
   * it started with when it has sent nothing.
   */
  lemma {:induction false} RememberedIsLastSent<T>(prev: Option<T>, resolved: seq<T>)
    ensures var sent := Broadcasts(prev, resolved);
      Remembered(prev, resolved) == if sent == [] then prev else Some(sent[|sent| - 1])
    decreases |resolved|
  {
    if resolved != [] {
      var rest := resolved[1..];
      RememberedIsLastSent(Some(resolved[0]), rest);
      assert Remembered(prev, resolved) == Remembered(Some(resolved[0]), rest);
    }
  }

  /** One more tick: it broadcasts its state exactly when that differs from the remembered one. */
  lemma {:induction false} BroadcastsAppend<T>(prev: Option<T>, resolved: seq<T>, x: T)
    ensures Broadcasts(prev, resolved + [x]) ==
      Broadcasts(prev, resolved) + (if Remembered(prev, resolved) != Some(x) then [x] else [])
    decreases |resolved|
  {
    var tail := if Remembered(prev, resolved) != Some(x) then [x] else [];
    if resolved == [] {
      assert [] + [x] == [x];
      assert [x][1..] == [];
      assert Broadcasts(prev, [x]) == tail + Broadcasts(Some(x), []);
    } else {
      var first := resolved[0];
      var r := resolved + [x];
      assert r[0] == first && r[1..] == resolved[1..] + [x];
      BroadcastsAppend(Some(first), resolved[1..], x);
      assert Remembered(Some(first), resolved[1..]) == Remembered(prev, resolved);
      var head := if prev != Some(first) then [first] else [];
      assert Broadcasts(prev, r) == head + Broadcasts(Some(first), r[1..]);
      assert Broadcasts(prev, resolved) == head + Broadcasts(Some(first), resolved[1..]);
      assert head + (Broadcasts(Some(first), resolved[1..]) + tail) ==
        (head + Broadcasts(Some(first), resolved[1..])) + tail;
    }
  }

}
