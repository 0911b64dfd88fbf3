/** Where and when the frontend draws at all, and that whatever it draws has a
    timer that will take it away again. */
module ScreenGuard {
  import opened Basics
  import opened Screen
  import opened ScreenRuns

  // ---------- what is drawn, and only where ----------

  /** The user is looking at a listed file in an ordinary wide window, neither
      diffing nor typing, and nothing was silenced. */
  predicate Undisturbed(c: Clock, h: Here) {
    && c.now >= c.silentUntil && !h.excluded && h.file && h.listed && !h.diff && h.wide && !h.typing
  }

  predicate NewMark(d: Display, d': Display) {
    exists id :: id in d'.marks && id !in d.marks
  }

  predicate NewWindow(d: Display, d': Display) {
    exists w :: w in d'.windows && w !in d.windows
  }

  lemma NoNewMark(d: Display, d': Display)
    requires forall id :: id in d'.marks ==> id in d.marks
    ensures !NewMark(d, d')
  {
  }

  /** A glance appears exactly where the user is undisturbed and there is a new
      message, in the buffer the user is in, at level L1. */
  lemma GlanceShownIff(c: Config, v: View, h: Here, hasMessage: bool, drawn: bool)
    requires Inv(v)
    ensures var w := Step(c, v, CursorHold(h, hasMessage, drawn));
      && (NewMark(v.display, w.display) <==> Undisturbed(v.clock, h) && hasMessage && drawn)
      && (NewMark(v.display, w.display) ==>
            && w.level == L1
            && w.display.marks[v.display.nextMark] == Mark(h.buf, Glance))
      && w.display.windows == v.display.windows && w.display.entries == v.display.entries
  {
    hide WindowsOwned, EntriesOwned, Swept;
    var w := Step(c, v, CursorHold(h, hasMessage, drawn));
    if Undisturbed(v.clock, h) && hasMessage && drawn {
      assert v.display.nextMark in w.display.marks && v.display.nextMark !in v.display.marks;
    } else {
      NoNewMark(v.display, w.display);
    }
  }

  /** So does the hint for a failed send, message or not, at any level. */
  lemma HintShownIff(c: Config, v: View, h: Here, drawn: bool)
    requires Inv(v)
    ensures var w := Step(c, v, SendFailed(h, drawn));
      && (NewMark(v.display, w.display) <==> Undisturbed(v.clock, h) && drawn)
      && (NewMark(v.display, w.display) ==> w.display.marks[v.display.nextMark] == Mark(h.buf, Hint))
      && w.display.windows == v.display.windows && w.display.entries == v.display.entries && w.level == v.level
  {
    hide WindowsOwned, EntriesOwned, Swept;
    var w := Step(c, v, SendFailed(h, drawn));
    if Undisturbed(v.clock, h) && drawn {
      assert v.display.nextMark in w.display.marks && v.display.nextMark !in v.display.marks;
    } else {
      NoNewMark(v.display, w.display);
    }
  }

  predicate Asked(c: Clock, h: Here) {
    c.now >= c.silentUntil && !h.excluded
  }

  /** A float appears exactly when the user asks for it while nothing is silenced,
      outside the excluded buffers, and there is something to read. */
  lemma FloatShownIff(c: Config, v: View, h: Here, hasMessages: bool, shown: bool, goes: bool)
    requires Inv(v)
    ensures var w := Step(c, v, Read(h, hasMessages, shown, goes));
      && (NewWindow(v.display, w.display) <==> Asked(v.clock, h) && hasMessages && shown)
      && (NewWindow(v.display, w.display) ==> w.level == L2 && w.display.windows[v.display.nextWin] == Float)
      && w.display.marks == v.display.marks && w.display.entries == v.display.entries
  {
    hide MarksOwned, EntriesOwned, Swept;
    var w := Step(c, v, Read(h, hasMessages, shown, goes));
    if Asked(v.clock, h) && hasMessages && shown {
      FloatClearedOwned(v.display, v.owned, goes);
      assert v.display.nextWin in w.display.windows && v.display.nextWin !in v.display.windows;
    } else {
      assert forall k :: k in w.display.windows ==> k in v.display.windows;
    }
  }

  /** The entries of the conversation are put up exactly on such a request too, and
      the level follows unless the editor opens no window for them. */
  lemma ListShownIff(c: Config, v: View, h: Here, hasMessages: bool, place: Place, goes: bool, kept: set<nat>)
    requires Inv(v)
    ensures var w := Step(c, v, Panorama(h, hasMessages, place, goes, kept));
      var asked := Asked(v.clock, h) && hasMessages;
      && (asked ==> w.display.entries == Some(v.display.nextBuf) && v.display.nextBuf in w.display.scratch)
      && (asked && place == New ==> NewWindow(v.display, w.display))
      && (asked ==> w.level == if place == Nowhere then v.level else L3)
      && (!asked ==> w == v)
      && w.display.marks == v.display.marks
  {
    hide MarksOwned, EntriesOwned, Swept, ListOpened;
    var w := Step(c, v, Panorama(h, hasMessages, place, goes, kept));
    if Asked(v.clock, h) && hasMessages {
      var (d1, o1) := ListCleared(v.display, v.owned, goes);
      assert d1.marks == v.display.marks && d1.nextBuf == v.display.nextBuf && d1.nextWin == v.display.nextWin;
      var d2 := d1.(scratch := d1.scratch + {d1.nextBuf}, entries := Some(d1.nextBuf), nextBuf := d1.nextBuf + 1);
      OpeningKeeps(d2, place, kept);
      assert v.display.nextWin !in v.display.windows;
    }
  }

  lemma OpeningKeeps(d: Display, place: Place, kept: set<nat>)
    ensures var d' := ListOpened(d, place, kept).0;
      && d'.marks == d.marks && d'.entries == d.entries && d'.scratch == d.scratch
      && (place == New ==> d.nextWin in d'.windows)
  {
  }

  /** Nothing else puts anything on the screen. */
  lemma NothingElseDraws(c: Config, v: View, op: Op)
    requires Inv(v) && !op.CursorHold? && !op.SendFailed? && !op.Read? && !op.Panorama?
    ensures var d, d' := v.display, Step(c, v, op).display;
      && (forall id :: id in d'.marks ==> id in d.marks && d'.marks[id] == d.marks[id])
      && (forall w :: w in d'.windows ==> w in d.windows && d'.windows[w] == d.windows[w])
      && (d'.entries.Some? ==> d.entries.Some?)
  {
    if Clears(v, op).Some? {
      SweepsDrawNothing(c, v, op);
    } else {
      hide Inv;
      match op
      case BufferGone(_) =>
      case _ =>
    }
  }

  lemma SweepsDrawNothing(c: Config, v: View, op: Op)
    requires Inv(v) && Clears(v, op).Some?
    ensures var d, d' := v.display, Step(c, v, op).display;
      && (forall id :: id in d'.marks ==> id in d.marks && d'.marks[id] == d.marks[id])
      && (forall w :: w in d'.windows ==> w in d.windows && d'.windows[w] == d.windows[w])
      && (d'.entries.Some? ==> d.entries.Some?)
  {
    hide Cleared, AllCleared, MarksOwned, WindowsOwned, EntriesOwned, Swept, Refused, FloatsGone;
    match op
    case GlanceTimer(closes) => ClearedOwned(v, closes);
    case IdleTimer(closes) => ClearedOwned(v, closes);
    case Panic(minutes, closes) =>
      AllClearedKeeps(v, closes);
      AllClearedOwned(v, closes);
      AllClearedKeeps(SetQuiet(AllCleared(v, closes), minutes), closes);
    case Silence(minutes, closes) => AllClearedKeeps(SetQuiet(v, minutes), closes);
    case FocusLost(kept, closes) =>
      UnfloatedOwned(v.display, v.owned, kept);
      FewerFloats(v.display, kept);
      AllClearedKeeps(Unfloated(v, kept), closes);
    case ClearEvent(closes) => AllClearedKeeps(v, closes);
  }

  lemma AllClearedKeeps(v: View, closes: Closes)
    requires Owns(v.display, v.owned)
    ensures var d, d' := v.display, AllCleared(v, closes).display;
      && d'.marks == map[] && (d'.entries.Some? ==> d.entries.Some?)
      && (forall w :: w in d'.windows ==> w in d.windows && d'.windows[w] == d.windows[w])
  {
    hide Cleared, Refused, Swept;
    ClearedOwned(v, closes);
  }

  lemma FewerFloats(d: Display, kept: set<nat>)
    ensures var d' := FloatsGone(d, kept);
      && d'.marks == d.marks && d'.entries == d.entries
      && (forall w :: w in d'.windows ==> w in d.windows && d'.windows[w] == d.windows[w])
  {
  }

  // ---------- timers ----------

  /** A glance will go by itself, and so will what was asked for; no timer runs
      that was configured away; no glance timer runs at L0; every hint on screen
      has its own timer. */
  ghost predicate Timed(c: Config, v: View) {
    && (c.glanceTimeout && v.level == L1 ==> v.timers.glance)
    && (c.idleDowngrade && (v.level == L2 || v.level == L3) ==> v.timers.idle)
    && (!c.glanceTimeout ==> !v.timers.glance) && (!c.idleDowngrade ==> !v.timers.idle)
    && (v.level == L0 ==> !v.timers.glance)
    && (forall id :: id in v.display.marks && v.display.marks[id].kind == Hint ==> id in v.owned.hints)
  }

  lemma ClearedTimed(c: Config, v: View, closes: Closes)
    requires Owns(v.display, v.owned) && Timed(c, v)
    ensures Timed(c, Cleared(v, closes)) && Timed(c, AllCleared(v, closes))
    ensures Cleared(v, closes).timers == Timers(false, false) && AllCleared(v, closes).timers == Timers(false, false)
    ensures Cleared(v, closes).level == L0 && AllCleared(v, closes).level == L0
  {
    hide MarksOwned, WindowsOwned, EntriesOwned, Refused;
    ClearedOwned(v, closes);
    ClearedHints(v, closes);
    hide RenderersCleared;
  }

  lemma ClearedHints(v: View, closes: Closes)
    ensures Cleared(v, closes).owned.hints == v.owned.hints
  {
  }

  lemma SweepsTimed(c: Config, v: View, op: Op)
    requires Inv(v) && Timed(c, v) && Clears(v, op).Some?
    ensures Timed(c, Step(c, v, op))
    ensures Step(c, v, op).level == L0 && Step(c, v, op).timers == Timers(false, false)
  {
    hide Cleared, AllCleared, MarksOwned, WindowsOwned, EntriesOwned, Swept, Refused, FloatsGone, Timed;
    match op
    case GlanceTimer(closes) => ClearedTimed(c, v, closes);
    case IdleTimer(closes) => ClearedTimed(c, v, closes);
    case Panic(minutes, closes) =>
      ClearedTimed(c, v, closes);
      AllClearedOwned(v, closes);
      TimedQuiet(c, AllCleared(v, closes), minutes);
      ClearedTimed(c, SetQuiet(AllCleared(v, closes), minutes), closes);
    case Silence(minutes, closes) =>
      TimedQuiet(c, v, minutes);
      ClearedTimed(c, SetQuiet(v, minutes), closes);
    case FocusLost(kept, closes) =>
      UnfloatedOwned(v.display, v.owned, kept);
      TimedUnfloated(c, v, kept);
      ClearedTimed(c, Unfloated(v, kept), closes);
    case ClearEvent(closes) => ClearedTimed(c, v, closes);
  }

  lemma TimedQuiet(c: Config, v: View, minutes: real)
    requires Timed(c, v)
    ensures Timed(c, SetQuiet(v, minutes))
  {
  }

  lemma TimedUnfloated(c: Config, v: View, kept: set<nat>)
    requires Timed(c, v)
    ensures Timed(c, Unfloated(v, kept))
  {
  }

  lemma OthersTimed(c: Config, v: View, op: Op)
    requires Inv(v) && Timed(c, v) && Clears(v, op).None?
    ensures Timed(c, Step(c, v, op))
  {
    hide WindowsOwned, EntriesOwned, Swept;
    match op
    case CursorHold(h, hasMessage, drawn) => GlanceTimed(c, v, h, hasMessage, drawn);
    case Read(h, hasMessages, shown, goes) => FloatTimed(c, v, h, hasMessages, shown, goes);
    case Panorama(h, hasMessages, place, goes, kept) => ListTimed(c, v, h, hasMessages, place, goes, kept);
    case SendFailed(h, drawn) => HintTimed(c, v, h, drawn);
    case CursorMoved(kept) => HiddenTimed(c, v, kept);
    case InsertEnter(kept) => HiddenTimed(c, v, kept);
    case _ =>
  }

  lemma GlanceTimed(c: Config, v: View, h: Here, hasMessage: bool, drawn: bool)
    requires Inv(v) && Timed(c, v)
    ensures Timed(c, Glanced(c, v, h, hasMessage, drawn))
  {
    hide WindowsOwned, EntriesOwned, Swept;
  }

  lemma FloatTimed(c: Config, v: View, h: Here, hasMessages: bool, shown: bool, goes: bool)
    requires Timed(c, v)
    ensures Timed(c, ReadShown(c, v, h, hasMessages, shown, goes))
  {
    assert FloatDrawn(v.display, v.owned, shown, goes).0.marks == v.display.marks;
    assert FloatDrawn(v.display, v.owned, shown, goes).1.hints == v.owned.hints;
    hide FloatDrawn;
  }

  lemma ListTimed(c: Config, v: View, h: Here, hasMessages: bool, place: Place, goes: bool, kept: set<nat>)
    requires Timed(c, v)
    ensures Timed(c, PanoramaShown(c, v, h, hasMessages, place, goes, kept))
  {
    ListKeepsMarks(v.display, v.owned, place, goes, kept);
    assert ListDrawn(v.display, v.owned, place, goes, kept).1.hints == v.owned.hints;
    hide ListDrawn;
  }

  lemma HintTimed(c: Config, v: View, h: Here, drawn: bool)
    requires Timed(c, v)
    ensures Timed(c, HintShown(v, h, drawn))
  {
  }

  lemma HiddenTimed(c: Config, v: View, kept: set<nat>)
    requires Timed(c, v)
    ensures Timed(c, GlanceHidden(Unfloated(v, kept))) && Timed(c, Touched(c, GlanceHidden(Unfloated(v, kept))))
  {
    hide FloatsGone;
    assert FloatsGone(v.display, kept).marks == v.display.marks by { FewerFloats(v.display, kept); }
  }

  /** In every run all of that holds, whatever fires and however late. */
  lemma {:induction false} EverythingIsTimed(c: Config, ops: seq<Op>)
    ensures Timed(c, Run(c, EMPTY, ops))
  {
    hide Step, Inv, Clears;
    if ops != [] {
      var front := ops[..|ops| - 1];
      EverythingIsTimed(c, front);
      EmptyInv();
      RunInv(c, EMPTY, front);
      hide Timed;
      if Clears(Run(c, EMPTY, front), ops[|ops| - 1]).Some? {
        SweepsTimed(c, Run(c, EMPTY, front), ops[|ops| - 1]);
      } else {
        OthersTimed(c, Run(c, EMPTY, front), ops[|ops| - 1]);
      }
    }
  }

  /** And clearing leaves no timer behind. */
  lemma ClearingDisarms(c: Config, ops: seq<Op>, op: Op)
    requires Clears(Run(c, EMPTY, ops), op).Some?
    ensures var w := Step(c, Run(c, EMPTY, ops), op); w.level == L0 && w.timers == Timers(false, false)
  {
    hide Step, Inv, Clears;
    EverythingIsTimed(c, ops);
    EmptyInv();
    RunInv(c, EMPTY, ops);
    SweepsTimed(c, Run(c, EMPTY, ops), op);
  }

  /** Ending a silence does end it, whenever and however long it was set. */
  lemma UnsilenceEnds(c: Config, ops: seq<Op>)
    ensures !Silenced(Run(c, EMPTY, ops + [Unsilence]).clock)
  {
    hide Step, Inv;
    EmptyInv();
    RunInv(c, EMPTY, ops);
    RunSnoc(c, ops, Unsilence);
    ClearedDeadline(c, Run(c, EMPTY, ops));
  }

  lemma ClearedDeadline(c: Config, v: View)
    requires v.clock.now >= 0
    ensures !Silenced(Step(c, v, Unsilence).clock)
  {
  }
}
