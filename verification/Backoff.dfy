/** Keeping the homeserver link up (internal/transport/matrix.go): reconnect
    delays, which are 64-bit durations, and the connected flag that is reported. */
module Backoff {
  import opened Basics
  import opened Model
  import opened Transport
  import Session
  import SessionRuns

  const SECOND := 1_000_000_000
  const DEFAULT_MIN := 2 * SECOND
  const DEFAULT_MAX := 60 * SECOND
  const TWO_62 := 0x4000_0000_0000_0000
  const TWO_63 := 0x8000_0000_0000_0000
  const TWO_64 := 0x1_0000_0000_0000_0000

  type Duration = d: int | -TWO_63 <= d < TWO_63

  /** Two's-complement overflow. */
  function Wrap(x: int): (r: Duration)
    ensures -TWO_63 <= x < TWO_63 ==> r == x
  {
    (x + TWO_63) % TWO_64 - TWO_63
  }

  datatype Bounds = Bounds(min: Duration, max: Duration)

  /** The normalisation in NewMatrix. */
  function Normalised(min: Duration, max: Duration): (b: Bounds)
    ensures 0 < b.min <= b.max
    ensures 0 < min <= max ==> b == Bounds(min, max)
    ensures 0 < min ==> b.min == min
  {
    var lo := if min <= 0 then DEFAULT_MIN else min;
    Bounds(lo, if max < lo then MaxInt(DEFAULT_MAX, lo) else max)
  }

  /** The doubling step that both retry loops share. */
  function Doubled(b: Bounds, backoff: Duration): Duration {
    MinInt(Wrap(backoff * 2), b.max)
  }

  /** The delay before the retry that follows the k-th failure in a row, from 0. */
  function Wait(b: Bounds, k: nat): Duration {
    if k == 0 then b.min else Doubled(b, Wait(b, k - 1))
  }

  function Pow2(k: nat): (p: nat)
    ensures p > 0
  {
    if k == 0 then 1 else 2 * Pow2(k - 1)
  }

  lemma {:induction false} Pow2Exceeds(k: nat)
    ensures Pow2(k) > k
  {
    if k > 0 {
      Pow2Exceeds(k - 1);
    }
  }

  lemma MulMono(a: int, x: int, y: int)
    requires 0 < a && x <= y
    ensures a * x <= a * y
  {
  }

  lemma MulTwo(a: int, x: int)
    ensures a * (2 * x) == 2 * (a * x)
  {
  }

  lemma DoubledIs(b: Bounds, p: int)
    requires 0 < p && 0 < b.max < TWO_62
    ensures Doubled(b, MinInt(p, b.max)) == MinInt(2 * p, b.max)
  {
    hide Wrap;
  }

  lemma {:induction false} WaitDoubles(b: Bounds, k: nat)
    requires 0 < b.min <= b.max < TWO_62
    ensures Wait(b, k) == MinInt(b.min * Pow2(k), b.max)
  {
    hide Doubled, MinInt;
    if k == 0 {
      MinOfBounds(b);
    } else {
      var q := Pow2(k - 1);
      WaitDoubles(b, k - 1);
      MulTwo(b.min, q);
      MulMono(b.min, 1, q);
      DoubledIs(b, b.min * q);
    }
  }

  lemma MinOfBounds(b: Bounds)
    requires b.min <= b.max
    ensures MinInt(b.min * Pow2(0), b.max) == b.min
  {
  }

  /** The delays are Min, 2 Min, 4 Min and so on up to Max exactly when Max is
      below 2^62 nanoseconds; above that the doubling overflows and a delay is
      negative, which does not wait at all. */
  lemma WaitsAsPromisedIff(b: Bounds)
    requires 0 < b.min <= b.max
    ensures (forall k: nat :: Wait(b, k) == MinInt(b.min * Pow2(k), b.max)) <==> b.max < TWO_62
  {
    if b.max < TWO_62 {
      forall k: nat
        ensures Wait(b, k) == MinInt(b.min * Pow2(k), b.max)
      {
        WaitDoubles(b, k);
      }
    } else {
      var k: nat := b.max;
      Pow2Exceeds(k);
      MulMono(Pow2(k), 1, b.min);
      Pow2Exceeds(k + 1);
      MulMono(Pow2(k + 1), 1, b.min);
      Overflows(b.max);
      assert Wait(b, k) == b.max ==> Wait(b, k + 1) < 0;
      assert MinInt(b.min * Pow2(k), b.max) == b.max && MinInt(b.min * Pow2(k + 1), b.max) == b.max;
    }
  }

  lemma Overflows(d: Duration)
    requires d >= TWO_62
    ensures Wrap(d * 2) < 0
  {
    assert d * 2 + TWO_63 == TWO_64 + (d * 2 - TWO_63);
    assert (d * 2 + TWO_63) % TWO_64 == d * 2 - TWO_63;
  }

  // ---------- the transport's bookkeeping ----------

  /** What the sync hooks and the run loop see. */
  datatype LinkEvent =
    | Synced                            // a sync response arrived
    | SyncFailed(tokenRejected: bool)   // one sync request failed
    | Returned(tokenRejected: bool)     // the whole attempt ended

  datatype View = View(
    connected: bool, sawConnected: bool, runBackoff: Duration, syncBackoff: Duration, emitted: seq<bool>)

  function Start(b: Bounds): View {
    View(false, false, b.min, b.min, [])
  }

  function SetConnected(v: View, state: bool): View {
    v.(connected := state, sawConnected := v.sawConnected || state,
       emitted := if v.connected != state then v.emitted + [state] else v.emitted)
  }

  /** The retry delay an event leads to, if it leads to a retry. */
  function Delay(b: Bounds, v: View, ev: LinkEvent): Option<Duration> {
    match ev
    case Synced => None
    case SyncFailed(rejected) => if rejected then None else Some(v.syncBackoff)
    case Returned(rejected) => if rejected then None else Some(if v.sawConnected then b.min else v.runBackoff)
  }

  function Step(b: Bounds, v: View, ev: LinkEvent): View {
    match ev
    case Synced => SetConnected(v.(syncBackoff := b.min), true)
    case SyncFailed(rejected) =>
      var v1 := SetConnected(v, false);
      if rejected then v1 else v1.(syncBackoff := Doubled(b, v1.syncBackoff))
    case Returned(rejected) =>
      var v1 := SetConnected(v, false);
      if rejected then v1
      else v1.(sawConnected := false, runBackoff := Doubled(b, if v1.sawConnected then b.min else v1.runBackoff))
  }

  class Matrix {
    const bounds: Bounds
    var connected: bool
    var sawConnected: bool
    var runBackoff: Duration
    var syncBackoff: Duration
    var emitted: seq<bool>   // what the sink accepted; until shutdown it accepts all

    ghost function Contents(): View
      reads this
    {
      View(connected, sawConnected, runBackoff, syncBackoff, emitted)
    }

    constructor (min: Duration, max: Duration)
      ensures bounds == Normalised(min, max) && Contents() == Start(bounds)
    {
      var lo, hi := min, max;
      if lo <= 0 {
        lo := DEFAULT_MIN;
      }
      if hi < lo {
        hi := MaxInt(DEFAULT_MAX, lo);
      }
      bounds := Bounds(lo, hi);
      connected, sawConnected, runBackoff, syncBackoff, emitted := false, false, lo, lo, [];
    }

    method Report(state: bool)
      modifies this
      ensures Contents() == SetConnected(old(Contents()), state)
    {
      if state {
        sawConnected := true;
      }
      var changed := connected != state;
      connected := state;
      if changed {
        emitted := emitted + [state];
      }
    }

    method OnSync()
      modifies this
      ensures Contents() == Step(bounds, old(Contents()), Synced)
    {
      syncBackoff := bounds.min;
      Report(true);
    }

    method OnFailedSync(tokenRejected: bool) returns (wait: Option<Duration>)
      modifies this
      ensures Contents() == Step(bounds, old(Contents()), SyncFailed(tokenRejected))
      ensures wait == Delay(bounds, old(Contents()), SyncFailed(tokenRejected))
    {
      Report(false);
      if tokenRejected {
        return None;
      }
      wait := Some(syncBackoff);
      syncBackoff := MinInt(Wrap(syncBackoff * 2), bounds.max);
    }

    /** One turn of run after connect came back. */
    method AfterAttempt(tokenRejected: bool) returns (wait: Option<Duration>)
      modifies this
      ensures Contents() == Step(bounds, old(Contents()), Returned(tokenRejected))
      ensures wait == Delay(bounds, old(Contents()), Returned(tokenRejected))
    {
      Report(false);
      if tokenRejected {
        return None;
      }
      if sawConnected {
        runBackoff := bounds.min;
      }
      sawConnected := false;
      wait := Some(runBackoff);
      runBackoff := MinInt(Wrap(runBackoff * 2), bounds.max);
    }
  }

  // ---------- runs ----------

  function After(b: Bounds, evs: seq<LinkEvent>): View {
    if evs == [] then Start(b) else Step(b, After(b, evs[..|evs| - 1]), evs[|evs| - 1])
  }

  /** Sync requests failed in a row since the last one that succeeded. */
  function FailedSyncs(evs: seq<LinkEvent>): nat {
    if evs == [] then 0
    else
      match evs[|evs| - 1]
      case Synced => 0
      case SyncFailed(rejected) => FailedSyncs(evs[..|evs| - 1]) + if rejected then 0 else 1
      case Returned(_) => FailedSyncs(evs[..|evs| - 1])
  }

  /** Whether some sync succeeded since the last attempt that was retried. */
  function CameUp(evs: seq<LinkEvent>): bool {
    if evs == [] then false
    else
      match evs[|evs| - 1]
      case Synced => true
      case SyncFailed(_) => CameUp(evs[..|evs| - 1])
      case Returned(rejected) => rejected && CameUp(evs[..|evs| - 1])
  }

  /** Attempts retried in a row, counting from the last one that came up. */
  function Attempts(evs: seq<LinkEvent>): nat {
    if evs == [] then 0
    else
      var before := evs[..|evs| - 1];
      if evs[|evs| - 1].Returned? && !evs[|evs| - 1].tokenRejected
      then (if CameUp(before) then 0 else Attempts(before)) + 1
      else Attempts(before)
  }

  ghost predicate Alternates(flags: seq<bool>) {
    forall i :: 0 <= i < |flags| ==> flags[i] == (i % 2 == 0)
  }

  ghost predicate Counts(b: Bounds, v: View, evs: seq<LinkEvent>) {
    && v.syncBackoff == Wait(b, FailedSyncs(evs))
    && v.runBackoff == Wait(b, Attempts(evs))
    && v.sawConnected == CameUp(evs)
  }

  ghost predicate Flagged(v: View) {
    Alternates(v.emitted) && v.connected == (|v.emitted| % 2 == 1)
  }

  lemma WaitNext(b: Bounds, k: nat)
    ensures Wait(b, k + 1) == Doubled(b, Wait(b, k)) && Wait(b, 0) == b.min
  {
    hide Doubled;
  }

  lemma StepCounts(b: Bounds, v: View, evs: seq<LinkEvent>, ev: LinkEvent)
    requires Counts(b, v, evs)
    ensures Counts(b, Step(b, v, ev), evs + [ev])
  {
    hide Doubled, Wait;
    assert (evs + [ev])[..|evs|] == evs;
    WaitNext(b, FailedSyncs(evs));
    WaitNext(b, Attempts(evs));
    WaitNext(b, 0);
  }

  lemma StepFlagged(b: Bounds, v: View, ev: LinkEvent)
    requires Flagged(v)
    ensures Flagged(Step(b, v, ev))
  {
    hide Doubled;
  }

  /** In every run both delays follow the number of failures in a row, and the
      emitted flags alternate, beginning with true and ending with the present one. */
  lemma {:induction false} RunInv(b: Bounds, evs: seq<LinkEvent>)
    ensures Counts(b, After(b, evs), evs) && Flagged(After(b, evs))
  {
    hide Doubled, Step;
    if evs != [] {
      var before, last := evs[..|evs| - 1], evs[|evs| - 1];
      assert evs == before + [last];
      RunInv(b, before);
      StepCounts(b, After(b, before), before, last);
      StepFlagged(b, After(b, before), last);
    }
  }

  /** With bounds that do not overflow, the wait after the k-th failed sync in a
      row is min(Min * 2^k, Max), and so is the wait after the k-th failed attempt;
      success starts both again from Min. */
  lemma DelaysAreExponential(b: Bounds, evs: seq<LinkEvent>)
    requires 0 < b.min <= b.max < TWO_62
    ensures var v := After(b, evs);
      && Delay(b, v, SyncFailed(false)) == Some(MinInt(b.min * Pow2(FailedSyncs(evs)), b.max))
      && Delay(b, v, Returned(false)) == Some(if CameUp(evs) then b.min else MinInt(b.min * Pow2(Attempts(evs)), b.max))
      && (forall ev :: Delay(b, v, ev).None? <==> ev.Synced? || ev.tokenRejected)
  {
    hide After, FailedSyncs, Attempts, CameUp, Wait;
    RunInv(b, evs);
    WaitDoubles(b, FailedSyncs(evs));
    WaitDoubles(b, Attempts(evs));
  }

  // ---------- the session's copy of the flag ----------

  /** The connected flags in a stream of transport events. */
  function Flags(events: seq<Event>): seq<bool> {
    if events == [] then []
    else
      var last := events[|events| - 1];
      Flags(events[..|events| - 1]) + if last.ConnectedEvent? then [last.connected] else []
  }

  function Handles(events: seq<Event>): (ops: seq<SessionRuns.Op>)
    ensures |ops| == |events|
  {
    seq(|events|, i requires 0 <= i < |events| => SessionRuns.Handle(events[i]))
  }

  lemma {:induction false} LastFlag(events: seq<Event>)
    ensures SessionRuns.LastConnected(Handles(events)) ==
      (Flags(events) != [] && Flags(events)[|Flags(events)| - 1])
  {
    if events != [] {
      var before := events[..|events| - 1];
      assert Handles(events)[..|events| - 1] == Handles(before);
      LastFlag(before);
    }
  }

  /** Once the session has handled every event the sink accepted, with messages
      anywhere between them, its flag is the transport's. */
  lemma DrainedFlagAgrees(b: Bounds, evs: seq<LinkEvent>, u: SessionRuns.Setup, events: seq<Event>)
    requires Flags(events) == After(b, evs).emitted
    ensures SessionRuns.After(u, Handles(events)).connected == After(b, evs).connected
  {
    hide After, SessionRuns.After, SessionRuns.Reflects, Flags, Handles;
    RunInv(b, evs);
    LastFlag(events);
    SessionRuns.RunReflects(u, Handles(events));
  }
}
