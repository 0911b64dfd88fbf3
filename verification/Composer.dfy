/** The windowed composers (lua/quietdm/composers/gitcommit.lua and prompt.lua):
    a generation counter decides which of the callbacks left behind by earlier
    windows still count, also when closing a window runs one of them. */
module Composer {
  import opened Basics
  import opened CommitMessage

  /** A finish callback, as its open left it behind: the generation it belongs
      to, the number of the open, and whether a cancel function came with it. */
  datatype Closure = Closure(gen: nat, open: nat, hasCancel: bool)

  /** One run of a finish callback: which one, the text it got, and, in case it
      closes its window, the callbacks that closing runs and whether it works. */
  datatype Trigger = Trigger(which: nat, text: Option<string>, during: seq<Trigger>, closes: bool)

  datatype Entry = Opened(open: nat) | Closed | Submitted(open: nat, body: string) | Cancelled(open: nat) | Dropped(open: nat)

  /** valid: the composer windows on screen; log is history. */
  datatype View = View(
    generation: nat, winid: Option<nat>, valid: set<nat>, nextWin: nat,
    closures: seq<Closure>, opens: nat, log: seq<Entry>)

  const EMPTY := View(0, None, {}, 0, [], 0, [])

  // ---------- the operations as functions ----------

  function Logged(v: View, e: Entry): View {
    v.(log := v.log + [e])
  }

  function Outcome(c: Closure, text: Option<string>): Entry {
    if text.Some? && text.value != "" then Submitted(c.open, text.value)
    else if c.hasCancel then Cancelled(c.open)
    else Dropped(c.open)
  }

  function WindowClosed(v: View, during: seq<Trigger>, closes: bool): View
    decreases during, 1
  {
    var v1 :=
      if v.winid.Some? && v.winid.value in v.valid then
        var v0 := Fired(v, during);
        if closes then v0.(valid := v0.valid - {v.winid.value}) else v0
      else v;
    v1.(winid := None)
  }

  function Finished(v: View, t: Trigger): View
    decreases t, 2
  {
    if t.which >= |v.closures| || v.closures[t.which].gen != v.generation then v
    else
      Logged(
        WindowClosed(v.(generation := v.generation + 1), t.during, t.closes),
        Outcome(v.closures[t.which], t.text))
  }

  /** The callbacks run one after the other. */
  function Fired(v: View, ts: seq<Trigger>): View
    decreases ts, 0
  {
    if ts == [] then v else Fired(Finished(v, ts[0]), ts[1..])
  }

  function Begun(v: View): View {
    v.(generation := v.generation + 1, opens := v.opens + 1, log := v.log + [Opened(v.opens)])
  }

  /** The new window, or the immediate cancel when it cannot be opened. */
  function Shown(v: View, gen: nat, open: nat, hasCancel: bool, ok: bool): View {
    if !ok then Logged(v, if hasCancel then Cancelled(open) else Dropped(open))
    else
      v.(winid := Some(v.nextWin), valid := v.valid + {v.nextWin}, nextWin := v.nextWin + 1,
         closures := v.closures + [Closure(gen, open, hasCancel)])
  }

  function OpenedView(v: View, hasCancel: bool, ok: bool, during: seq<Trigger>, closes: bool): View {
    Shown(WindowClosed(Begun(v), during, closes), v.generation + 1, v.opens, hasCancel, ok)
  }

  function ClosedView(v: View, during: seq<Trigger>, closes: bool): View {
    WindowClosed(Logged(v.(generation := v.generation + 1), Closed), during, closes)
  }

  // ---------- the object ----------

  class Composer {
    var generation: nat
    var winid: Option<nat>
    var valid: set<nat>
    var nextWin: nat
    var closures: seq<Closure>
    var opens: nat   // stands for the submit and cancel functions each open brings
    ghost var log: seq<Entry>

    ghost function Contents(): View
      reads this
    {
      View(generation, winid, valid, nextWin, closures, opens, log)
    }

    constructor ()
      ensures Contents() == EMPTY
    {
      generation, winid, valid, nextWin, closures, opens, log := 0, None, {}, 0, [], 0, [];
    }

    method CloseWindow(during: seq<Trigger>, closes: bool)
      modifies this
      ensures Contents() == WindowClosed(old(Contents()), during, closes)
      decreases during, 1
    {
      if winid.Some? && winid.value in valid {
        var w := winid.value;
        RunCallbacks(during);
        if closes {
          valid := valid - {w};
        }
      }
      winid := None;
    }

    method Finish(t: Trigger)
      modifies this
      ensures Contents() == Finished(old(Contents()), t)
      decreases t, 2
    {
      if t.which >= |closures| {
        return;
      }
      var Closure(gen, open, hasCancel) := closures[t.which];
      if gen != generation {
        return;
      }
      generation := generation + 1;
      CloseWindow(t.during, t.closes);
      if t.text.Some? && t.text.value != "" {
        log := log + [Submitted(open, t.text.value)];
      } else if hasCancel {
        log := log + [Cancelled(open)];
      } else {
        log := log + [Dropped(open)];
      }
    }

    /** gitcommit's callback: a write sends the buffer's text if it is still there. */
    method FinishCommit(which: nat, send: bool, buffer: Option<seq<string>>, during: seq<Trigger>, closes: bool)
      modifies this
      ensures var text := if send && buffer.Some? then Some(Body(buffer.value)) else None;
        Contents() == Finished(old(Contents()), Trigger(which, text, during, closes))
    {
      hide Body;
      var text := None;
      if send && buffer.Some? {
        var body := ComposeBody(buffer.value);
        text := Some(body);
      }
      Finish(Trigger(which, text, during, closes));
    }

    method RunCallbacks(ts: seq<Trigger>)
      modifies this
      ensures Contents() == Fired(old(Contents()), ts)
      decreases ts, 0
    {
      if ts != [] {
        Finish(ts[0]);
        RunCallbacks(ts[1..]);
      }
    }

    method Open(hasCancel: bool, ok: bool, during: seq<Trigger>, closes: bool)
      modifies this
      ensures Contents() == OpenedView(old(Contents()), hasCancel, ok, during, closes)
    {
      generation := generation + 1;
      var gen := generation;
      var open := opens;
      opens := opens + 1;
      log := log + [Opened(open)];
      CloseWindow(during, closes);
      if !ok {
        log := log + [if hasCancel then Cancelled(open) else Dropped(open)];
        return;
      }
      winid := Some(nextWin);
      valid := valid + {nextWin};
      nextWin := nextWin + 1;
      closures := closures + [Closure(gen, open, hasCancel)];
    }

    method Close(during: seq<Trigger>, closes: bool)
      modifies this
      ensures Contents() == ClosedView(old(Contents()), during, closes)
    {
      generation := generation + 1;
      log := log + [Closed];
      CloseWindow(during, closes);
    }
  }

  // ---------- the protocol ----------

  /** The open whose outcome is still awaited. */
  function Awaited(log: seq<Entry>): Option<nat> {
    if log == [] then None
    else if log[|log| - 1].Opened? then Some(log[|log| - 1].open)
    else None
  }

  function Opens(log: seq<Entry>): nat {
    if log == [] then 0 else Opens(log[..|log| - 1]) + if log[|log| - 1].Opened? then 1 else 0
  }

  /** Opens are numbered, and an outcome may only come for the open that is awaited. */
  predicate Allowed(before: seq<Entry>, e: Entry) {
    match e
    case Opened(k) => k == Opens(before)
    case Closed => true
    case Submitted(k, body) => Awaited(before) == Some(k) && body != ""
    case Cancelled(k) => Awaited(before) == Some(k)
    case Dropped(k) => Awaited(before) == Some(k)
  }

  predicate Legal(log: seq<Entry>) {
    log == [] || (Legal(log[..|log| - 1]) && Allowed(log[..|log| - 1], log[|log| - 1]))
  }

  predicate IsOutcome(e: Entry, k: nat) {
    (e.Submitted? || e.Cancelled? || e.Dropped?) && e.open == k
  }

  /** Only the newest callback can belong to the present generation, and it does
      exactly when its open is still awaited. */
  ghost predicate Inv(v: View) {
    && Legal(v.log) && Opens(v.log) == v.opens
    && (forall i :: 0 <= i < |v.closures| ==> v.closures[i].gen <= v.generation)
    && (forall i :: 0 <= i < |v.closures| && v.closures[i].gen == v.generation ==> Awaited(v.log) == Some(v.closures[i].open))
    && (forall i, j :: 0 <= i < j < |v.closures| ==> v.closures[i].gen < v.closures[j].gen)
    && (Awaited(v.log).Some? ==> exists i :: 0 <= i < |v.closures| && v.closures[i].gen == v.generation)
  }

  /** No callback belongs to the present generation. */
  predicate Stale(v: View) {
    forall i :: 0 <= i < |v.closures| ==> v.closures[i].gen < v.generation
  }

  /** Whatever closing a window runs, it runs in vain: the generation moved on before. */
  lemma {:induction false} FiredInVain(v: View, ts: seq<Trigger>)
    requires Stale(v)
    ensures Fired(v, ts) == v
  {
    if ts != [] {
      FiredInVain(v, ts[1..]);
    }
  }

  lemma CloseIsQuiet(v: View, during: seq<Trigger>, closes: bool)
    requires Stale(v)
    ensures WindowClosed(v, during, closes) ==
      v.(winid := None,
         valid := if closes && v.winid.Some? then v.valid - {v.winid.value} else v.valid)
  {
    FiredInVain(v, during);
  }

  lemma LegalSnoc(log: seq<Entry>, e: Entry)
    ensures Legal(log + [e]) <==> Legal(log) && Allowed(log, e)
    ensures Awaited(log + [e]) == if e.Opened? then Some(e.open) else None
    ensures Opens(log + [e]) == Opens(log) + if e.Opened? then 1 else 0
  {
    assert (log + [e])[..|log|] == log;
  }

  lemma FinishedInv(v: View, t: Trigger)
    requires Inv(v)
    ensures Inv(Finished(v, t))
  {
    hide Legal, Opens, Awaited, Outcome, WindowClosed;
    if t.which < |v.closures| && v.closures[t.which].gen == v.generation {
      var e := Outcome(v.closures[t.which], t.text);
      CloseIsQuiet(v.(generation := v.generation + 1), t.during, t.closes);
      OutcomeKind(v.closures[t.which], t.text);
      LegalSnoc(v.log, e);
    }
  }

  lemma OutcomeKind(c: Closure, text: Option<string>)
    ensures IsOutcome(Outcome(c, text), c.open)
    ensures Outcome(c, text).Submitted? ==> Outcome(c, text).body != ""
  {
  }

  lemma OpenInv(v: View, hasCancel: bool, ok: bool, during: seq<Trigger>, closes: bool)
    requires Inv(v)
    ensures Inv(OpenedView(v, hasCancel, ok, during, closes))
  {
    hide Legal, Opens, Awaited, WindowClosed;
    CloseIsQuiet(Begun(v), during, closes);
    LegalSnoc(v.log, Opened(v.opens));
    if !ok {
      LegalSnoc(v.log + [Opened(v.opens)], if hasCancel then Cancelled(v.opens) else Dropped(v.opens));
    } else {
      var w := OpenedView(v, hasCancel, ok, during, closes);
      assert w.closures[|v.closures|].gen == w.generation;
    }
  }

  lemma CloseInv(v: View, during: seq<Trigger>, closes: bool)
    requires Inv(v)
    ensures Inv(ClosedView(v, during, closes))
  {
    hide Legal, Opens, Awaited, WindowClosed;
    CloseIsQuiet(Logged(v.(generation := v.generation + 1), Closed), during, closes);
    LegalSnoc(v.log, Closed);
  }

  // ---------- runs ----------

  /** Any callback of any window, however old, may fire at any time. */
  datatype Op =
    | OpenOp(hasCancel: bool, ok: bool, during: seq<Trigger>, closes: bool)
    | CloseOp(during: seq<Trigger>, closes: bool)
    | FireOp(t: Trigger)

  function Step(v: View, op: Op): View {
    match op
    case OpenOp(hasCancel, ok, during, closes) => OpenedView(v, hasCancel, ok, during, closes)
    case CloseOp(during, closes) => ClosedView(v, during, closes)
    case FireOp(t) => Finished(v, t)
  }

  function After(ops: seq<Op>): View {
    if ops == [] then EMPTY else Step(After(ops[..|ops| - 1]), ops[|ops| - 1])
  }

  lemma {:induction false} RunInv(ops: seq<Op>)
    ensures Inv(After(ops))
  {
    hide Finished, OpenedView, ClosedView;
    if ops != [] {
      RunInv(ops[..|ops| - 1]);
      var v := After(ops[..|ops| - 1]);
      match ops[|ops| - 1]
      case OpenOp(hasCancel, ok, during, closes) => OpenInv(v, hasCancel, ok, during, closes);
      case CloseOp(during, closes) => CloseInv(v, during, closes);
      case FireOp(t) => FinishedInv(v, t);
    }
  }

  /** In every run each outcome answers the open right before it in the log: the
      composer has not been closed or opened again in between. */
  lemma OutcomesAreAwaited(ops: seq<Op>, p: nat, k: nat)
    requires p < |After(ops).log| && IsOutcome(After(ops).log[p], k)
    ensures p > 0 && After(ops).log[p - 1] == Opened(k)
  {
    RunInv(ops);
    LegalAt(After(ops).log, p, k);
  }

  lemma {:induction false} LegalAt(log: seq<Entry>, p: nat, k: nat)
    requires Legal(log) && p < |log| && IsOutcome(log[p], k)
    ensures p > 0 && log[p - 1] == Opened(k)
  {
    if p < |log| - 1 {
      LegalAt(log[..|log| - 1], p, k);
    }
  }

  lemma {:induction false} OpenedOnce(log: seq<Entry>, p: nat, k: nat)
    requires Legal(log) && p < |log| && log[p] == Opened(k)
    ensures k == Opens(log[..p]) < Opens(log)
  {
    var before := log[..|log| - 1];
    if p < |log| - 1 {
      OpenedOnce(before, p, k);
      assert before[..p] == log[..p];
    } else {
      assert log[..p] == before;
    }
  }

  lemma {:induction false} OpensGrow(log: seq<Entry>, p: nat)
    requires p <= |log|
    ensures Opens(log[..p]) <= Opens(log)
  {
    if p == |log| {
      assert log[..p] == log;
    } else {
      assert log[..|log| - 1][..p] == log[..p];
      OpensGrow(log[..|log| - 1], p);
    }
  }

  /** Each open leads to at most one submit or cancel. */
  lemma OneOutcomeEach(ops: seq<Op>, p: nat, q: nat, k: nat)
    requires p < |After(ops).log| && q < |After(ops).log|
    requires IsOutcome(After(ops).log[p], k) && IsOutcome(After(ops).log[q], k)
    ensures p == q
  {
    OutcomesAreAwaited(ops, p, k);
    OutcomesAreAwaited(ops, q, k);
    RunInv(ops);
    SameOpening(After(ops).log, p - 1, q - 1, k);
    SameOpening(After(ops).log, q - 1, p - 1, k);
  }

  lemma SameOpening(log: seq<Entry>, p: nat, q: nat, k: nat)
    requires Legal(log) && p < |log| && q < |log| && log[p] == Opened(k) && log[q] == Opened(k)
    ensures p >= q
  {
    OpenedOnce(log, q, k);
    if p < q {
      LegalPrefix(log, q);
      assert log[..q][p] == Opened(k);
      OpenedOnce(log[..q], p, k);
    }
  }

  lemma {:induction false} LegalPrefix(log: seq<Entry>, p: nat)
    requires Legal(log) && p <= |log|
    ensures Legal(log[..p])
  {
    if p == |log| {
      assert log[..p] == log;
    } else {
      assert log[..|log| - 1][..p] == log[..p];
      LegalPrefix(log[..|log| - 1], p);
    }
  }

  /** The awaited reply is not lost either: the newest window's callback, run
      with text, submits exactly that text for exactly that open. */
  lemma AwaitedSubmits(ops: seq<Op>, t: Trigger)
    requires Awaited(After(ops).log).Some? && t.text.Some? && t.text.value != ""
    requires t.which + 1 == |After(ops).closures|
    ensures var v := After(ops);
      Finished(v, t).log == v.log + [Submitted(Awaited(v.log).value, t.text.value)]
  {
    hide WindowClosed;
    RunInv(ops);
    var v := After(ops);
    var i :| 0 <= i < |v.closures| && v.closures[i].gen == v.generation;
    assert v.closures[i].gen <= v.closures[t.which].gen <= v.generation;
    assert i == t.which;
    CloseIsQuiet(v.(generation := v.generation + 1), t.during, t.closes);
  }

  /** Whether the last open came with a cancel function. */
  function LastCancels(ops: seq<Op>): bool {
    if ops == [] then false
    else if ops[|ops| - 1].OpenOp? then ops[|ops| - 1].hasCancel
    else LastCancels(ops[..|ops| - 1])
  }

  ghost predicate CancelKnown(v: View, cancels: bool) {
    Awaited(v.log).Some? ==> v.closures != [] && v.closures[|v.closures| - 1].hasCancel == cancels
  }

  lemma StepCancels(v: View, op: Op, cancels: bool)
    requires Inv(v) && CancelKnown(v, cancels)
    ensures CancelKnown(Step(v, op), if op.OpenOp? then op.hasCancel else cancels)
  {
    hide Legal, Opens, Outcome, WindowClosed, Awaited;
    match op
    case OpenOp(hasCancel, ok, during, closes) =>
      CloseIsQuiet(Begun(v), during, closes);
      LegalSnoc(v.log + [Opened(v.opens)], if hasCancel then Cancelled(v.opens) else Dropped(v.opens));
    case CloseOp(during, closes) =>
      CloseIsQuiet(Logged(v.(generation := v.generation + 1), Closed), during, closes);
      LegalSnoc(v.log, Closed);
    case FireOp(t) =>
      if t.which < |v.closures| && v.closures[t.which].gen == v.generation {
        CloseIsQuiet(v.(generation := v.generation + 1), t.during, t.closes);
        OutcomeKind(v.closures[t.which], t.text);
        LegalSnoc(v.log, Outcome(v.closures[t.which], t.text));
      }
  }

  lemma {:induction false} RunCancels(ops: seq<Op>)
    ensures CancelKnown(After(ops), LastCancels(ops))
  {
    hide Step, Inv;
    if ops != [] {
      RunCancels(ops[..|ops| - 1]);
      RunInv(ops[..|ops| - 1]);
      hide CancelKnown;
      StepCancels(After(ops[..|ops| - 1]), ops[|ops| - 1], LastCancels(ops[..|ops| - 1]));
    }
  }

  /** An awaited window that is closed without text is not silently lost either: a
      caller that gave a cancel function is cancelled, once, for his own open. */
  lemma AwaitedCancels(ops: seq<Op>, t: Trigger)
    requires Awaited(After(ops).log).Some? && (t.text.None? || t.text.value == "")
    requires t.which + 1 == |After(ops).closures|
    ensures var v := After(ops);
      var k := Awaited(v.log).value;
      Finished(v, t).log == v.log + [if LastCancels(ops) then Cancelled(k) else Dropped(k)]
  {
    hide WindowClosed, After, LastCancels;
    RunInv(ops);
    RunCancels(ops);
    var v := After(ops);
    var i :| 0 <= i < |v.closures| && v.closures[i].gen == v.generation;
    assert v.closures[i].gen <= v.closures[t.which].gen <= v.generation;
    assert i == t.which;
    CloseIsQuiet(v.(generation := v.generation + 1), t.during, t.closes);
  }

  /** And neither is one that could not be opened at all. */
  lemma RefusedWindowCancels(ops: seq<Op>, hasCancel: bool, during: seq<Trigger>, closes: bool)
    ensures var v := After(ops);
      OpenedView(v, hasCancel, false, during, closes).log ==
        v.log + [Opened(v.opens), if hasCancel then Cancelled(v.opens) else Dropped(v.opens)]
  {
    hide WindowClosed, After;
    RunInv(ops);
    CloseIsQuiet(Begun(After(ops)), during, closes);
  }
}
