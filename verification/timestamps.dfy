/** Timestamp rebasing of the two `ReadFLVTag` loops: the first nonzero tag
    timestamp is latched as the origin (0 meaning "not latched yet"), and
    every frame's absolute timestamp is the loop's starting absolute
    timestamp plus the time elapsed since the origin, in uint32 arithmetic. */
module Timestamps {
  import opened Base

  /** `startTs` and `offsetTs` of a running loop. */
  datatype Rebaser = Rebaser(startTs: U32, offsetTs: U32)

  /** A loop starts unlatched, offset by the endpoint's last absolute time. */
  function StartRebaser(absTS: U32): Rebaser
  {
    Rebaser(0, absTS)
  }

  /** One frame: latch the origin if unset, then
      `absTS = offsetTs + (timestamp - startTs)` with both operations
      wrapping at 2^32. */
  function Rebase(r: Rebaser, ts: U32): (out: (Rebaser, U32))
    ensures out.0.offsetTs == r.offsetTs
    ensures r.startTs != 0 ==> out.0.startTs == r.startTs
    ensures r.startTs == 0 ==> out.0.startTs == ts
    ensures ts == out.0.startTs ==> out.1 == r.offsetTs
  {
    var start := if r.startTs == 0 then ts else r.startTs;
    (Rebaser(start, r.offsetTs), Wrap32(r.offsetTs + Wrap32(ts - start)))
  }

  /** The placed time differs from offset plus elapsed time by a multiple
      of 2^32, and equals it when that sum does not wrap. */
  lemma RebaseValue(r: Rebaser, ts: U32)
    ensures var out := Rebase(r, ts);
      && (out.1 - r.offsetTs - (ts - out.0.startTs)) % Mod32 == 0
      && (out.0.startTs <= ts && r.offsetTs + (ts - out.0.startTs) < Mod32 ==>
            out.1 == r.offsetTs + (ts - out.0.startTs))
  {
  }

  /** Reducing the inner difference first does not change the sum. */
  lemma Wrap32Inner(a: int, b: int)
    ensures Wrap32(a + Wrap32(b)) == Wrap32(a + b)
  {
    var q := (b - Wrap32(b)) / Mod32;
    assert b - Wrap32(b) == q * Mod32;
    assert a + b == (a + Wrap32(b)) + q * Mod32;
  }

  /** The absolute timestamps a loop assigns to a run of frames. */
  function RebaseAll(r: Rebaser, tss: seq<U32>): (out: seq<U32>)
    ensures |out| == |tss|
    decreases |tss|
  {
    if |tss| == 0 then []
    else
      var (r', a) := Rebase(r, tss[0]);
      [a] + RebaseAll(r', tss[1..])
  }

  /** The rebaser after a run of frames. */
  function RebaserAfter(r: Rebaser, tss: seq<U32>): Rebaser
    decreases |tss|
  {
    if |tss| == 0 then r else RebaserAfter(Rebase(r, tss[0]).0, tss[1..])
  }

  predicate NonDecreasing(s: seq<int>)
  {
    forall i, j :: 0 <= i <= j < |s| ==> s[i] <= s[j]
  }

  /** Once an origin is latched it never moves, and every frame is placed
      at the offset plus its distance from the origin, modulo 2^32. */
  lemma {:induction false} RebaseAllLatched(r: Rebaser, tss: seq<U32>)
    requires r.startTs != 0
    ensures forall i :: 0 <= i < |tss| ==>
      RebaseAll(r, tss)[i] == Wrap32(r.offsetTs + tss[i] - r.startTs)
    ensures RebaserAfter(r, tss) == r
    decreases |tss|
  {
    if |tss| > 0 {
      assert Rebase(r, tss[0]).0 == r;
      RebaseAllLatched(r, tss[1..]);
      Wrap32Inner(r.offsetTs, tss[0] - r.startTs);
      forall i | 1 <= i < |tss|
        ensures RebaseAll(r, tss)[i] == Wrap32(r.offsetTs + tss[i] - r.startTs)
      {
        assert RebaseAll(r, tss)[i] == RebaseAll(r, tss[1..])[i - 1];
        assert tss[1..][i - 1] == tss[i];
      }
    }
  }

  /** From a fresh loop: frames before the first nonzero timestamp (all of
      them 0) are placed at the offset; that frame latches the origin, and
      every frame from it on is placed at its distance from the origin. */
  lemma {:induction false} RebaseAllFromStart(offset: U32, tss: seq<U32>, k: nat)
    requires k < |tss| && tss[k] != 0
    requires forall j :: 0 <= j < k ==> tss[j] == 0
    ensures forall i :: 0 <= i < k ==> RebaseAll(Rebaser(0, offset), tss)[i] == offset
    ensures forall i :: k <= i < |tss| ==>
      RebaseAll(Rebaser(0, offset), tss)[i] == Wrap32(offset + tss[i] - tss[k])
    ensures RebaserAfter(Rebaser(0, offset), tss) == Rebaser(tss[k], offset)
    decreases k
  {
    var r := Rebaser(0, offset);
    var out := RebaseAll(r, tss);
    if k == 0 {
      var r' := Rebase(r, tss[0]).0;
      assert r' == Rebaser(tss[0], offset);
      RebaseAllLatched(r', tss[1..]);
      forall i | 0 <= i < |tss|
        ensures out[i] == Wrap32(offset + tss[i] - tss[0])
      {
        if i > 0 {
          assert out[i] == RebaseAll(r', tss[1..])[i - 1];
        }
      }
    } else {
      assert Rebase(r, tss[0]).0 == r;
      RebaseAllFromStart(offset, tss[1..], k - 1);
      forall i | 0 < i < |tss|
        ensures out[i] == RebaseAll(r, tss[1..])[i - 1]
      {
      }
    }
  }

  /** Shifting every element by the same amount keeps the order. */
  lemma ShiftKeepsOrder(out: seq<int>, tss: seq<int>, d: int)
    requires |out| == |tss| && NonDecreasing(tss)
    requires forall i :: 0 <= i < |tss| ==> out[i] == tss[i] + d
    ensures NonDecreasing(out)
  {
    forall i, j | 0 <= i <= j < |out|
      ensures out[i] <= out[j]
    {
      assert tss[i] <= tss[j];
    }
  }

  /** With the origin latched and no frame wrapping past 2^32, each frame
      is placed exactly its distance from the origin after the offset. */
  lemma {:induction false} RebaseAllNoWrap(r: Rebaser, tss: seq<U32>)
    requires r.startTs != 0
    requires forall i :: 0 <= i < |tss| ==> r.startTs <= tss[i] && r.offsetTs + tss[i] - r.startTs < Mod32
    ensures forall i :: 0 <= i < |tss| ==> RebaseAll(r, tss)[i] == r.offsetTs + tss[i] - r.startTs
    decreases |tss|
  {
    if |tss| > 0 {
      var (r', a) := Rebase(r, tss[0]);
      assert r' == r;
      RebaseValue(r, tss[0]);
      RebaseAllNoWrap(r, tss[1..]);
      var out := RebaseAll(r, tss);
      assert out == [a] + RebaseAll(r, tss[1..]);
      forall i | 0 < i < |tss|
        ensures out[i] == r.offsetTs + tss[i] - r.startTs
      {
        assert out[i] == RebaseAll(r, tss[1..])[i - 1];
        assert tss[i] == tss[1..][i - 1];
      }
    }
  }

  /** A relay restart: with a recorded absolute base `base` and a first raw
      timestamp `tss[0] != 0`, every emitted timestamp is
      `base + (raw - tss[0])`, and they never decrease while the raw
      timestamps do not decrease and the total stays below 2^32. */
  lemma RestartContinuity(base: U32, tss: seq<U32>)
    requires |tss| > 0 && tss[0] != 0
    requires NonDecreasing(tss)
    requires base + tss[|tss| - 1] - tss[0] < Mod32
    ensures forall i :: 0 <= i < |tss| ==>
      RebaseAll(StartRebaser(base), tss)[i] == base + tss[i] - tss[0]
    ensures NonDecreasing(RebaseAll(StartRebaser(base), tss))
  {
    var r := Rebaser(tss[0], base);
    forall i | 0 <= i < |tss|
      ensures r.startTs <= tss[i] && r.offsetTs + tss[i] - r.startTs < Mod32
    {
      assert tss[0] <= tss[i] <= tss[|tss| - 1];
    }
    RebaseAllNoWrap(r, tss);
    assert RebaseAll(StartRebaser(base), tss) == RebaseAll(r, tss);
    ShiftKeepsOrder(RebaseAll(r, tss), tss, base - tss[0]);
  }
}
