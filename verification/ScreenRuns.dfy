/** What the screen keeps in every run, whatever fires and whenever. */
module ScreenRuns {
  import opened Basics
  import opened Screen

  datatype Op =
    | Tick(seconds: nat)
    | CursorHold(h: Here, hasMessage: bool, drawn: bool)
    | CursorMoved(kept: set<nat>) // floats the editor does not close
    | InsertEnter(kept: set<nat>)
    | LeaveWindow(kept: set<nat>) // or its buffer
    | Read(h: Here, hasMessages: bool, shown: bool, goes: bool)
    | Panorama(h: Here, hasMessages: bool, place: Place, goes: bool, kept: set<nat>)
    | GlanceTimer(closes: Closes)
    | IdleTimer(closes: Closes)
    | SendFailed(h: Here, drawn: bool)
    | HintTimer(k: nat)
    | Panic(minutes: real, closes: Closes)
    | Silence(minutes: real, closes: Closes)
    | Unsilence
    | FocusLost(kept: set<nat>, closes: Closes)
    | ClearEvent(closes: Closes) // VimResized, VimLeavePre, stop
    | BufferGone(buf: nat)       // the user wipes a buffer
    | ScratchGone(buf: nat)      // or the one the list entries point at
    | WindowGone(win: nat)       // a window is closed by the user or the editor

  /** The editor closes the floats before or after the handlers run. */
  function Unfloated(v: View, kept: set<nat>): View {
    v.(display := FloatsGone(v.display, kept))
  }

  function Step(c: Config, v: View, op: Op): View {
    match op
    case Tick(seconds) => v.(clock := v.clock.(now := v.clock.now + seconds))
    case CursorHold(h, hasMessage, drawn) => Glanced(c, v, h, hasMessage, drawn)
    case CursorMoved(kept) => Touched(c, GlanceHidden(Unfloated(v, kept)))
    case InsertEnter(kept) => GlanceHidden(Unfloated(v, kept))
    case LeaveWindow(kept) => Unfloated(v, kept)
    case Read(h, hasMessages, shown, goes) => ReadShown(c, v, h, hasMessages, shown, goes)
    case Panorama(h, hasMessages, place, goes, kept) => PanoramaShown(c, v, h, hasMessages, place, goes, kept)
    case GlanceTimer(closes) => GlanceTimedOut(v, closes)
    case IdleTimer(closes) => Cleared(v, closes)
    case SendFailed(h, drawn) => HintShown(v, h, drawn)
    case HintTimer(k) => HintExpired(v, k)
    case Panic(minutes, closes) => Panicked(v, minutes, closes)
    case Silence(minutes, closes) => SilencedFor(v, minutes, closes)
    case Unsilence => v.(clock := v.clock.(silentUntil := 0))
    case FocusLost(kept, closes) => AllCleared(Unfloated(v, kept), closes)
    case ClearEvent(closes) => AllCleared(v, closes)
    case BufferGone(buf) =>
      var d := v.display;
      v.(display := d.(marks := map id | id in d.marks && d.marks[id].buf != buf :: d.marks[id]))
    case ScratchGone(buf) => v.(display := v.display.(scratch := v.display.scratch - {buf}))
    case WindowGone(win) => v.(display := v.display.(windows := v.display.windows - {win}))
  }

  function Run(c: Config, v: View, ops: seq<Op>): View {
    if ops == [] then v else Step(c, Run(c, v, ops[..|ops| - 1]), ops[|ops| - 1])
  }

  // ---------- ownership ----------

  /** Every mark on screen is the glance the renderer remembers or a hint; the
      remembered glance is no hint, and pending hints are not glances. */
  ghost predicate MarksOwned(d: Display, o: Owned) {
    && (forall id :: id in d.marks ==> id < d.nextMark)
    && (forall id :: id in d.marks && d.marks[id].kind == Glance ==> o.glanceMark == Some(id))
    && (o.glanceMark.Some? ==> o.glanceMark.value < d.nextMark)
    && (o.glanceMark.Some? && o.glanceMark.value in d.marks ==> d.marks[o.glanceMark.value].kind == Glance)
    && (forall k :: 0 <= k < |o.hints| ==> o.hints[k] < d.nextMark)
    && (forall k :: 0 <= k < |o.hints| && o.hints[k] in d.marks ==> d.marks[o.hints[k]].kind == Hint)
  }

  /** What a renderer remembers is a window of its kind, if it is still open, and
      not one that it gave up. */
  predicate Remembers(d: Display, win: Option<nat>, kind: Window) {
    win.Some? ==>
      win.value < d.nextWin && win.value !in d.strays && (win.value in d.windows ==> d.windows[win.value] == kind)
  }

  /** Every window is the one its renderer remembers, unless the editor once
      refused to close it. */
  ghost predicate WindowsOwned(d: Display, o: Owned) {
    && (forall w :: w in d.windows ==> w < d.nextWin)
    && (forall w :: w in d.windows && w !in d.strays ==>
          (if d.windows[w] == Float then o.floatWin else o.listWin) == Some(w))
    && (forall w :: w in d.strays ==> w < d.nextWin)
    && Remembers(d, o.floatWin, Float) && Remembers(d, o.listWin, List)
  }

  /** The list entries point at the remembered buffer, unless somebody else
      deleted it. */
  ghost predicate EntriesOwned(d: Display, o: Owned) {
    && (d.entries.Some? && d.entries.value in d.scratch ==> o.listBuf == d.entries)
    && (o.listBuf.Some? ==> o.listBuf == d.entries)
    && (forall b :: b in d.scratch ==> b < d.nextBuf)
  }

  ghost predicate Owns(d: Display, o: Owned) {
    MarksOwned(d, o) && WindowsOwned(d, o) && EntriesOwned(d, o)
  }

  /** Nothing of ours can be seen. */
  predicate Blank(d: Display) {
    d.marks == map[] && d.windows == map[] && d.entries.None?
  }

  /** Nothing of ours can be seen except windows the editor refused to close and
      entries whose buffer somebody else deleted. */
  predicate Swept(d: Display) {
    d.marks == map[] && d.windows.Keys <= d.strays && (d.entries.Some? ==> d.entries.value !in d.scratch)
  }

  ghost predicate Inv(v: View) {
    Owns(v.display, v.owned) && (Silenced(v.clock) ==> Swept(v.display))
  }

  // ---------- the renderers ----------

  lemma BlameClearedOwned(d: Display, o: Owned)
    requires MarksOwned(d, o)
    ensures var (d', o') := BlameCleared(d, o);
      && MarksOwned(d', o')
      && (forall id :: id in d'.marks ==> id in d.marks && d'.marks[id] == d.marks[id] && d.marks[id].kind == Hint)
      && (forall id :: id in d.marks && d.marks[id].kind == Hint ==> id in d'.marks)
  {
  }

  lemma BlameDrawnOwned(d: Display, o: Owned, buf: nat, drawn: bool)
    requires MarksOwned(d, o)
    ensures var (d', o') := BlameDrawn(d, o, buf, drawn); MarksOwned(d', o')
  {
    BlameClearedOwned(d, o);
  }

  /** The glance renderer touches neither windows nor lists. */
  lemma BlameKeepsRest(d: Display, o: Owned, buf: nat, drawn: bool)
    requires WindowsOwned(d, o) && EntriesOwned(d, o)
    ensures var (d', o') := BlameDrawn(d, o, buf, drawn);
      WindowsOwned(d', o') && EntriesOwned(d', o') && d'.windows == d.windows && d'.strays == d.strays
    ensures var (d', o') := BlameCleared(d, o);
      && WindowsOwned(d', o') && EntriesOwned(d', o') && d'.windows == d.windows && d'.strays == d.strays
      && (Swept(d) ==> Swept(d'))
  {
  }

  /** A window stays open when it was a stray before or is refused now. */
  lemma FloatClearedOwned(d: Display, o: Owned, closes: bool)
    requires WindowsOwned(d, o)
    ensures var (d', o') := FloatCleared(d, o, closes);
      && WindowsOwned(d', o')
      && (forall w :: w in d'.windows <==> w in d.windows && (d.windows[w] == Float ==> w in d.strays || !closes))
      && (forall w :: w in d'.windows ==> d'.windows[w] == d.windows[w])
      && (forall w :: w in d'.windows ==> (w in d'.strays <==> w in d.strays || d.windows[w] == Float))
  {
  }

  lemma ListClearedOwned(d: Display, o: Owned, closes: bool)
    requires WindowsOwned(d, o)
    ensures var (d', o') := ListCleared(d, o, closes);
      && WindowsOwned(d', o')
      && (forall w :: w in d'.windows <==> w in d.windows && (d.windows[w] == List ==> w in d.strays || !closes))
      && (forall w :: w in d'.windows ==> d'.windows[w] == d.windows[w])
      && (forall w :: w in d'.windows ==> (w in d'.strays <==> w in d.strays || d.windows[w] == List))
  {
  }

  /** Entries stay exactly when their buffer is gone already. */
  lemma ListClearedEntries(d: Display, o: Owned, closes: bool)
    requires EntriesOwned(d, o)
    ensures var (d', o') := ListCleared(d, o, closes);
      && EntriesOwned(d', o')
      && (d'.entries.Some? <==> d.entries.Some? && d.entries.value !in d.scratch)
      && (d'.entries.Some? ==> d'.entries.value !in d'.scratch)
  {
  }

  lemma FloatDrawnOwned(d: Display, o: Owned, shown: bool, closes: bool)
    requires WindowsOwned(d, o)
    ensures var (d', o') := FloatDrawn(d, o, shown, closes); WindowsOwned(d', o')
  {
    FloatClearedOwned(d, o, closes);
  }

  lemma ListOpenedOwned(d: Display, o: Owned, place: Place, kept: set<nat>)
    requires WindowsOwned(d, o) && o.listWin.None? && forall w :: w in d.windows && d.windows[w] == List ==> w in d.strays
    ensures var (d', win) := ListOpened(d, place, kept);
      WindowsOwned(d', o.(listWin := win)) && (forall w :: w in d'.windows && d'.windows[w] == Float ==> w in d.windows)
  {
  }

  lemma ListDrawnOwned(d: Display, o: Owned, place: Place, closes: bool, kept: set<nat>)
    requires WindowsOwned(d, o) && EntriesOwned(d, o)
    ensures var (d', o') := ListDrawn(d, o, place, closes, kept); WindowsOwned(d', o') && EntriesOwned(d', o')
  {
    var (d1, o1) := ListCleared(d, o, closes);
    ListClearedOwned(d, o, closes);
    ListClearedEntries(d, o, closes);
    var d2 := d1.(scratch := d1.scratch + {d1.nextBuf}, entries := Some(d1.nextBuf), nextBuf := d1.nextBuf + 1);
    var o2 := o1.(listBuf := Some(d1.nextBuf));
    assert WindowsOwned(d2, o2) && EntriesOwned(d2, o2);
    ListOpenedOwned(d2, o2, place, kept);
  }

  lemma DrawnKeepMarks(d: Display, o: Owned, shown: bool, place: Place, closes: bool, kept: set<nat>)
    requires MarksOwned(d, o)
    ensures var (d', o') := FloatDrawn(d, o, shown, closes); MarksOwned(d', o')
    ensures var (d', o') := ListDrawn(d, o, place, closes, kept); MarksOwned(d', o')
  {
    hide MarksOwned, ListOpened;
    SameMarks(d, o, FloatDrawn(d, o, shown, closes).0, FloatDrawn(d, o, shown, closes).1);
    var (d1, o1) := ListCleared(d, o, closes);
    OpeningKeepsMarks(d1.(scratch := d1.scratch + {d1.nextBuf}, entries := Some(d1.nextBuf), nextBuf := d1.nextBuf + 1),
                      place, kept);
    SameMarks(d, o, ListDrawn(d, o, place, closes, kept).0, ListDrawn(d, o, place, closes, kept).1);
  }

  lemma OpeningKeepsMarks(d: Display, place: Place, kept: set<nat>)
    ensures var d' := ListOpened(d, place, kept).0; d'.marks == d.marks && d'.nextMark == d.nextMark
  {
  }

  lemma ClearedKeepMarks(d: Display, o: Owned, closes: bool)
    requires MarksOwned(d, o)
    ensures var (d', o') := FloatCleared(d, o, closes); MarksOwned(d', o') && d'.marks == d.marks
    ensures var (d', o') := ListCleared(d, o, closes); MarksOwned(d', o') && d'.marks == d.marks
  {
    hide MarksOwned;
    SameMarks(d, o, FloatCleared(d, o, closes).0, FloatCleared(d, o, closes).1);
    SameMarks(d, o, ListCleared(d, o, closes).0, ListCleared(d, o, closes).1);
  }

  lemma SameMarks(d: Display, o: Owned, d': Display, o': Owned)
    requires d'.marks == d.marks && d'.nextMark == d.nextMark && o'.glanceMark == o.glanceMark && o'.hints == o.hints
    ensures MarksOwned(d, o) ==> MarksOwned(d', o')
  {
  }

  lemma FloatKeepsEntries(d: Display, o: Owned, shown: bool, closes: bool)
    requires EntriesOwned(d, o)
    ensures var (d', o') := FloatDrawn(d, o, shown, closes); EntriesOwned(d', o')
    ensures var (d', o') := FloatCleared(d, o, closes);
      EntriesOwned(d', o') && d'.entries == d.entries && d'.scratch == d.scratch
  {
  }

  lemma UnfloatedOwned(d: Display, o: Owned, kept: set<nat>)
    requires Owns(d, o)
    ensures Owns(FloatsGone(d, kept), o) && (Swept(d) ==> Swept(FloatsGone(d, kept)))
  {
  }

  // ---------- clearing ----------

  /** The editor keeps this window open through a clear. */
  predicate Refused(d: Display, closes: Closes, w: nat)
    requires w in d.windows
  {
    w in d.strays || !(if d.windows[w] == Float then closes.float else closes.list)
  }

  /** Clearing the renderers takes every glance, every window the editor lets go
      and every entry whose buffer is still there; hints stay. */
  lemma ClearedOwned(v: View, closes: Closes)
    requires Owns(v.display, v.owned)
    ensures var w := Cleared(v, closes);
      && Owns(w.display, w.owned) && w.level == L0 && w.clock == v.clock
      && (forall id :: id in w.display.windows <==> id in v.display.windows && Refused(v.display, closes, id))
      && (forall id :: id in w.display.windows ==>
            w.display.windows[id] == v.display.windows[id] && id in w.display.strays)
      && (forall id :: id in w.display.marks <==> id in v.display.marks && v.display.marks[id].kind == Hint)
      && (forall id :: id in w.display.marks ==> w.display.marks[id] == v.display.marks[id])
      && (w.display.entries.Some? <==> v.display.entries.Some? && v.display.entries.value !in v.display.scratch)
      && (w.display.entries.Some? ==> w.display.entries.value !in w.display.scratch)
  {
    hide MarksOwned, WindowsOwned, EntriesOwned, Swept;
    var (d1, o1) := BlameCleared(v.display, v.owned);
    BlameClearedOwned(v.display, v.owned);
    BlameKeepsRest(v.display, v.owned, 0, false);
    assert d1.entries == v.display.entries && d1.scratch == v.display.scratch;
    var (d2, o2) := FloatCleared(d1, o1, closes.float);
    FloatClearedOwned(d1, o1, closes.float);
    FloatKeepsEntries(d1, o1, false, closes.float);
    ClearedKeepMarks(d1, o1, closes.float);
    ListClearedOwned(d2, o2, closes.list);
    ListClearedEntries(d2, o2, closes.list);
    ClearedKeepMarks(d2, o2, closes.list);
    hide BlameCleared, FloatCleared, ListCleared;
  }

  lemma AllClearedOwned(v: View, closes: Closes)
    requires Owns(v.display, v.owned)
    ensures var w := AllCleared(v, closes);
      && Owns(w.display, w.owned) && Swept(w.display) && w.level == L0 && w.clock == v.clock
      && w.display.marks == map[]
      && (forall id :: id in w.display.windows <==> id in v.display.windows && Refused(v.display, closes, id))
      && (forall id :: id in w.display.windows ==> id in w.display.strays)
      && (w.display.entries.Some? <==> v.display.entries.Some? && v.display.entries.value !in v.display.scratch)
      && (w.display.entries.Some? ==> w.display.entries.value !in w.display.scratch)
  {
    hide RenderersCleared, Refused;
    ClearedOwned(v, closes);
  }

  // ---------- each step ----------

  lemma ClearedInv(v: View, closes: Closes)
    requires Inv(v)
    ensures Inv(Cleared(v, closes)) && Inv(AllCleared(v, closes))
  {
    hide RenderersCleared, Owns, Refused;
    ClearedOwned(v, closes);
    AllClearedOwned(v, closes);
    if Silenced(v.clock) {
      assert Cleared(v, closes).display.marks.Keys == {};
    }
  }

  lemma CursorHoldInv(c: Config, v: View, h: Here, hasMessage: bool, drawn: bool)
    requires Inv(v)
    ensures Inv(Glanced(c, v, h, hasMessage, drawn))
  {
    hide MarksOwned, WindowsOwned, EntriesOwned;
    BlameKeepsRest(v.display, v.owned, h.buf, drawn);
    if Allow(v.clock, h) && hasMessage {
      BlameDrawnOwned(v.display, v.owned, h.buf, drawn);
    }
  }

  lemma HideInv(v: View, kept: set<nat>)
    requires Inv(v)
    ensures Inv(GlanceHidden(Unfloated(v, kept))) && Inv(Unfloated(v, kept))
  {
    hide MarksOwned, WindowsOwned, EntriesOwned, Swept;
    UnfloatedOwned(v.display, v.owned, kept);
    var u := Unfloated(v, kept);
    BlameKeepsRest(u.display, u.owned, 0, false);
    BlameClearedOwned(u.display, u.owned);
  }

  lemma ReadInv(c: Config, v: View, h: Here, hasMessages: bool, shown: bool, goes: bool)
    requires Inv(v)
    ensures Inv(ReadShown(c, v, h, hasMessages, shown, goes))
  {
    hide MarksOwned, WindowsOwned, EntriesOwned, Swept;
    DrawnKeepMarks(v.display, v.owned, shown, Same, goes, {});
    FloatDrawnOwned(v.display, v.owned, shown, goes);
    FloatKeepsEntries(v.display, v.owned, shown, goes);
  }

  lemma PanoramaInv(c: Config, v: View, h: Here, hasMessages: bool, place: Place, goes: bool, kept: set<nat>)
    requires Inv(v)
    ensures Inv(PanoramaShown(c, v, h, hasMessages, place, goes, kept))
  {
    hide MarksOwned, WindowsOwned, EntriesOwned, Swept;
    DrawnKeepMarks(v.display, v.owned, false, place, goes, kept);
    ListDrawnOwned(v.display, v.owned, place, goes, kept);
  }

  lemma HintInv(v: View, h: Here, drawn: bool, k: nat)
    requires Inv(v)
    ensures Inv(HintShown(v, h, drawn)) && Inv(HintExpired(v, k))
  {
  }

  lemma PanicInv(v: View, minutes: real, closes: Closes)
    requires Inv(v)
    ensures Inv(SilencedFor(v, minutes, closes)) && Inv(Panicked(v, minutes, closes))
  {
    hide Owns, Swept, AllCleared, Refused;
    var until := v.clock.now + (minutes * 60.0).Floor;
    AllClearedOwned(v, closes);
    AllClearedOwned(v.(clock := v.clock.(silentUntil := until)), closes);
    var w := AllCleared(v, closes);
    AllClearedOwned(w.(clock := w.clock.(silentUntil := until)), closes);
  }

  lemma GoneInv(c: Config, v: View, op: Op)
    requires Inv(v) && (op.BufferGone? || op.ScratchGone? || op.WindowGone?)
    ensures Inv(Step(c, v, op))
  {
    if Silenced(v.clock) {
      assert Step(c, v, op).display.marks == map[];
    }
  }

  /** A silence that is over does not come back by itself. */
  lemma ClockInv(c: Config, v: View, seconds: nat)
    requires Inv(v)
    ensures Inv(v.(clock := v.clock.(now := v.clock.now + seconds)))
    ensures v.clock.now >= 0 ==> Inv(v.(clock := v.clock.(silentUntil := 0)))
    ensures Inv(Touched(c, v)) && Inv(v.(timers := v.timers.(glance := false)))
  {
    hide Owns, Swept;
  }

  const NOWHERE := Here(0, true, false, false, false, false, false)

  lemma StepInv(c: Config, v: View, op: Op)
    requires Inv(v) && v.clock.now >= 0
    ensures Inv(Step(c, v, op)) && Step(c, v, op).clock.now >= v.clock.now
  {
    hide Inv, Glanced, GlanceHidden, Unfloated, ReadShown, PanoramaShown, Cleared, HintShown, HintExpired,
         Panicked, SilencedFor, AllCleared;
    ClocksGoOn(c, v, op);
    match op
    case Tick(seconds) => ClockInv(c, v, seconds);
    case CursorHold(h, hasMessage, drawn) => CursorHoldInv(c, v, h, hasMessage, drawn);
    case CursorMoved(kept) => HideInv(v, kept); ClockInv(c, GlanceHidden(Unfloated(v, kept)), 0);
    case InsertEnter(kept) => HideInv(v, kept);
    case LeaveWindow(kept) => HideInv(v, kept);
    case Read(h, hasMessages, shown, goes) => ReadInv(c, v, h, hasMessages, shown, goes);
    case Panorama(h, hasMessages, place, goes, kept) => PanoramaInv(c, v, h, hasMessages, place, goes, kept);
    case GlanceTimer(closes) => ClearedInv(v, closes); ClockInv(c, v, 0);
    case IdleTimer(closes) => ClearedInv(v, closes);
    case SendFailed(h, drawn) => HintInv(v, h, drawn, 0);
    case HintTimer(k) => HintInv(v, NOWHERE, false, k);
    case Panic(minutes, closes) => PanicInv(v, minutes, closes);
    case Silence(minutes, closes) => PanicInv(v, minutes, closes);
    case Unsilence => ClockInv(c, v, 0);
    case FocusLost(kept, closes) => HideInv(v, kept); ClearedInv(Unfloated(v, kept), closes);
    case ClearEvent(closes) => ClearedInv(v, closes);
    case BufferGone(_) => GoneInv(c, v, op);
    case ScratchGone(_) => GoneInv(c, v, op);
    case WindowGone(_) => GoneInv(c, v, op);
  }

  /** The user changes how long it is quiet. */
  predicate SetsSilence(op: Op) {
    op.Panic? || op.Silence? || op.Unsilence?
  }

  lemma ClocksGoOn(c: Config, v: View, op: Op)
    ensures Step(c, v, op).clock.now >= v.clock.now
    ensures !SetsSilence(op) ==> Step(c, v, op).clock.silentUntil == v.clock.silentUntil
  {
    hide BlameDrawn, BlameCleared, FloatDrawn, ListDrawn, RenderersCleared, FloatsGone;
  }

  lemma {:induction false} RunInv(c: Config, v: View, ops: seq<Op>)
    requires Inv(v) && v.clock.now >= 0
    ensures Inv(Run(c, v, ops)) && Run(c, v, ops).clock.now >= v.clock.now
  {
    hide Inv, Step;
    if ops != [] {
      RunInv(c, v, ops[..|ops| - 1]);
      StepInv(c, Run(c, v, ops[..|ops| - 1]), ops[|ops| - 1]);
    }
  }

  lemma EmptyInv()
    ensures Inv(EMPTY)
  {
  }

  // ---------- silence ----------

  /** While silenced nothing of ours is on screen, except windows the editor
      refused to close and list entries whose buffer somebody else deleted. */
  lemma SilentMeansSwept(c: Config, ops: seq<Op>)
    ensures var v := Run(c, EMPTY, ops);
      Silenced(v.clock) ==>
        && v.display.marks == map[]
        && (forall w :: w in v.display.windows ==> w in v.display.strays)
        && (v.display.entries.Some? ==> v.display.entries.value !in v.display.scratch)
  {
    hide Step, Owns;
    EmptyInv();
    RunInv(c, EMPTY, ops);
  }

  /** The editor closes whatever it is asked to, and nobody deletes the buffer
      behind the list. */
  predicate Cooperative(op: Op) {
    match op
    case Read(_, _, _, goes) => goes
    case Panorama(_, _, _, goes, _) => goes
    case GlanceTimer(closes) => closes == Closes(true, true)
    case IdleTimer(closes) => closes == Closes(true, true)
    case Panic(_, closes) => closes == Closes(true, true)
    case Silence(_, closes) => closes == Closes(true, true)
    case FocusLost(_, closes) => closes == Closes(true, true)
    case ClearEvent(closes) => closes == Closes(true, true)
    case ScratchGone(_) => false
    case _ => true
  }

  /** No window was ever given up and no entries are orphaned. */
  ghost predicate Orderly(d: Display) {
    d.strays == {} && (d.entries.Some? ==> d.entries.value in d.scratch)
  }

  lemma ClearedOrderly(v: View, closes: Closes)
    requires EntriesOwned(v.display, v.owned) && Orderly(v.display) && closes == Closes(true, true)
    ensures Orderly(Cleared(v, closes).display) && Orderly(AllCleared(v, closes).display)
    ensures EntriesOwned(AllCleared(v, closes).display, AllCleared(v, closes).owned)
  {
  }

  lemma DrawnOrderly(d: Display, o: Owned, buf: nat, shown: bool, place: Place, kept: set<nat>)
    requires EntriesOwned(d, o) && Orderly(d)
    ensures EntriesOwned(FloatsGone(d, kept), o)
    ensures Orderly(BlameDrawn(d, o, buf, shown).0) && Orderly(BlameCleared(d, o).0)
    ensures Orderly(FloatDrawn(d, o, shown, true).0) && Orderly(FloatsGone(d, kept))
    ensures Orderly(ListDrawn(d, o, place, true, kept).0)
  {
  }

  lemma SweepsOrderly(c: Config, v: View, op: Op)
    requires Inv(v) && Orderly(v.display) && Cooperative(op) && Clears(v, op).Some?
    ensures Orderly(Step(c, v, op).display)
  {
    hide MarksOwned, WindowsOwned, EntriesOwned, Swept, Cleared, AllCleared, FloatsGone;
    var all := Closes(true, true);
    ClearedOrderly(v, all);
    match op
    case Panic(minutes, closes) => ClearedOrderly(SetQuiet(AllCleared(v, all), minutes), all);
    case Silence(minutes, closes) => ClearedOrderly(SetQuiet(v, minutes), all);
    case FocusLost(kept, closes) =>
      DrawnOrderly(v.display, v.owned, 0, false, Same, kept);
      ClearedOrderly(Unfloated(v, kept), all);
    case _ =>
  }

  /** What a step lets the editor keep of the floats it closes by itself. */
  function Kept(op: Op): set<nat> {
    if op.CursorMoved? || op.InsertEnter? || op.LeaveWindow? || op.Panorama? || op.FocusLost? then op.kept else {}
  }

  lemma StepOrderly(c: Config, v: View, op: Op)
    requires Inv(v) && Orderly(v.display) && Cooperative(op)
    ensures Orderly(Step(c, v, op).display)
  {
    if Clears(v, op).Some? {
      SweepsOrderly(c, v, op);
    } else if op.CursorHold? || op.Read? || op.Panorama? {
      DrawsOrderly(c, v, op);
    } else {
      hide Orderly, Inv, BlameCleared, FloatsGone;
      DrawnOrderly(v.display, v.owned, 0, false, Same, Kept(op));
      DrawnOrderly(FloatsGone(v.display, Kept(op)), v.owned, 0, false, Same, {});
      SameOrder(v.display, Step(c, v, op).display);
    }
  }

  lemma DrawsOrderly(c: Config, v: View, op: Op)
    requires Orderly(v.display) && EntriesOwned(v.display, v.owned) && Cooperative(op)
    requires op.CursorHold? || op.Read? || op.Panorama?
    ensures Orderly(Step(c, v, op).display)
  {
    hide EntriesOwned, Orderly, BlameDrawn, FloatDrawn, ListDrawn;
    match op
    case CursorHold(h, _, drawn) => DrawnOrderly(v.display, v.owned, h.buf, drawn, Same, {});
    case Read(_, _, shown, _) => DrawnOrderly(v.display, v.owned, 0, shown, Same, {});
    case Panorama(_, _, place, _, kept) => DrawnOrderly(v.display, v.owned, 0, false, place, kept);
  }

  lemma SameOrder(d: Display, d': Display)
    requires Orderly(d)
    ensures d'.strays <= d.strays && d'.entries == d.entries && d'.scratch == d.scratch ==> Orderly(d')
  {
  }

  function SetQuiet(v: View, minutes: real): View {
    v.(clock := v.clock.(silentUntil := v.clock.now + (minutes * 60.0).Floor))
  }

  lemma {:induction false} RunOrderly(c: Config, ops: seq<Op>)
    requires forall k :: 0 <= k < |ops| ==> Cooperative(ops[k])
    ensures Orderly(Run(c, EMPTY, ops).display)
  {
    hide Step, Owns, Swept, Cooperative;
    if ops != [] {
      RunOrderly(c, ops[..|ops| - 1]);
      EmptyInv();
      RunInv(c, EMPTY, ops[..|ops| - 1]);
      StepOrderly(c, Run(c, EMPTY, ops[..|ops| - 1]), ops[|ops| - 1]);
    }
  }

  /** With a cooperative editor and user nothing at all is on screen while silenced,
      whatever fires and in whatever order. */
  lemma SilentMeansBlank(c: Config, ops: seq<Op>)
    requires forall k :: 0 <= k < |ops| ==> Cooperative(ops[k])
    ensures Silenced(Run(c, EMPTY, ops).clock) ==> Blank(Run(c, EMPTY, ops).display)
  {
    hide Step, Cooperative;
    SilentMeansSwept(c, ops);
    RunOrderly(c, ops);
  }

  lemma PanicOnce(v: View, minutes: real, closes: Closes)
    requires Inv(v)
    ensures var w := Panicked(v, minutes, closes);
      && w.display.marks == map[]
      && (forall id :: id in w.display.windows <==> id in v.display.windows && Refused(v.display, closes, id))
      && (w.display.entries.Some? <==> v.display.entries.Some? && v.display.entries.value !in v.display.scratch)
      && w.clock == Clock(v.clock.now, v.clock.now + (minutes * 60.0).Floor)
  {
    hide AllCleared, Swept, MarksOwned, WindowsOwned, EntriesOwned;
    var w := AllCleared(v, closes);
    AllClearedOwned(v, closes);
    AllClearedOwned(SetQuiet(w, minutes), closes);
  }

  /** Panic blanks the screen exactly when the editor closes every window that is
      open, none of them one it refused before, and the list entries, if there
      are any, still have their buffer. */
  lemma PanicBlanksIff(v: View, minutes: real, closes: Closes)
    requires Inv(v)
    ensures Blank(Panicked(v, minutes, closes).display) <==>
      && (forall w :: w in v.display.windows ==> !Refused(v.display, closes, w))
      && (v.display.entries.Some? ==> v.display.entries.value in v.display.scratch)
  {
    hide Inv, Panicked, Refused;
    PanicOnce(v, minutes, closes);
    var w := Panicked(v, minutes, closes);
    if forall id :: id in v.display.windows ==> !Refused(v.display, closes, id) {
      assert w.display.windows.Keys == {};
    }
  }

  lemma StepStaysBlank(c: Config, v: View, op: Op)
    requires Inv(v) && Silenced(v.clock) && Blank(v.display)
    ensures Blank(Step(c, v, op).display)
  {
    match op
    case BufferGone(_) => assert Step(c, v, op).display.marks == map[];
    case _ =>
  }

  /** A blank screen stays blank until the silence runs out or the user ends or
      changes it, whatever fires meanwhile. */
  lemma {:induction false} BlankHolds(c: Config, v: View, later: seq<Op>)
    requires Inv(v) && v.clock.now >= 0 && Blank(v.display)
    requires forall k :: 0 <= k < |later| ==> !SetsSilence(later[k])
    requires Run(c, v, later).clock.now < v.clock.silentUntil
    ensures Blank(Run(c, v, later).display) && Run(c, v, later).clock.silentUntil == v.clock.silentUntil
  {
    hide Step, Inv, Blank, SetsSilence;
    if later != [] {
      var front, last := later[..|later| - 1], later[|later| - 1];
      var u := Run(c, v, front);
      ClocksGoOn(c, u, last);
      BlankHolds(c, v, front);
      RunInv(c, v, front);
      StepStaysBlank(c, u, last);
    }
  }

  /** In every run: panic blanks the screen under exactly the condition above, and
      then it stays blank until its silence is over. */
  lemma PanicHolds(c: Config, before: seq<Op>, minutes: real, closes: Closes, later: seq<Op>)
    requires forall k :: 0 <= k < |later| ==> !SetsSilence(later[k])
    ensures var u := Run(c, EMPTY, before);
      var v := Panicked(u, minutes, closes);
      var w := Run(c, v, later);
      && (Blank(v.display) <==>
            && (forall id :: id in u.display.windows ==> !Refused(u.display, closes, id))
            && (u.display.entries.Some? ==> u.display.entries.value in u.display.scratch))
      && v.clock.silentUntil == u.clock.now + (minutes * 60.0).Floor
      && (Blank(v.display) && w.clock.now < v.clock.silentUntil ==> Blank(w.display))
  {
    hide Step, Inv, Blank, Refused, SetsSilence, Panicked;
    EmptyInv();
    RunInv(c, EMPTY, before);
    var u := Run(c, EMPTY, before);
    var v := Panicked(u, minutes, closes);
    PanicBlanksIff(u, minutes, closes);
    PanicInv(u, minutes, closes);
    PanicOnce(u, minutes, closes);
    if Blank(v.display) && Run(c, v, later).clock.now < v.clock.silentUntil {
      BlankHolds(c, v, later);
    }
  }

  /** Entries outlive a clear exactly when they are up and their buffer is gone. */
  lemma EntriesRemainIff(v: View, closes: Closes)
    requires Inv(v)
    ensures Cleared(v, closes).display.entries.Some? <==>
      v.display.entries.Some? && v.display.entries.value !in v.display.scratch
  {
    hide Cleared, Refused, Swept;
    ClearedOwned(v, closes);
  }

  lemma RunSnoc(c: Config, ops: seq<Op>, op: Op)
    ensures Run(c, EMPTY, ops + [op]) == Step(c, Run(c, EMPTY, ops), op) && Run(c, EMPTY, []) == EMPTY
  {
    hide Step;
    assert (ops + [op])[..|ops|] == ops;
  }

  lemma RunThree(c: Config, x: Op, y: Op, z: Op)
    ensures Run(c, EMPTY, [x, y, z]) == Step(c, Step(c, Step(c, EMPTY, x), y), z)
  {
    hide Run, Step;
    assert [] + [x] == [x] && [x] + [y] == [x, y] && [x, y] + [z] == [x, y, z];
    RunSnoc(c, [], x);
    RunSnoc(c, [x], y);
    RunSnoc(c, [x, y], z);
  }

  /** It does happen: the buffer behind the list is wiped, and panic leaves the
      conversation in the quickfix list. */
  lemma OrphanedEntriesStay(c: Config, h: Here)
    requires !h.excluded
    ensures var v := Run(c, EMPTY, [Panorama(h, true, New, true, {}), ScratchGone(0), Panic(10.0, Closes(true, true))]);
      Silenced(v.clock) && v.display.entries == Some(0)
  {
    hide Run;
    RunThree(c, Panorama(h, true, New, true, {}), ScratchGone(0), Panic(10.0, Closes(true, true)));
    assert (10.0 * 60.0).Floor == 600;
  }

  /** And: the editor refuses to close the float, and panic leaves it open. */
  lemma RefusedFloatStays(c: Config, h: Here)
    requires !h.excluded
    ensures var v := Run(c, EMPTY, [Read(h, true, true, true), Tick(0), Panic(10.0, Closes(false, true))]);
      Silenced(v.clock) && v.display.windows == map[0 := Float]
  {
    hide Run;
    RunThree(c, Read(h, true, true, true), Tick(0), Panic(10.0, Closes(false, true)));
    assert (10.0 * 60.0).Floor == 600;
  }

  // ---------- one of each ----------

  /** Never two glances, and never two floats or two list windows, given-up ones
      aside. */
  lemma AtMostOneEach(c: Config, ops: seq<Op>)
    ensures var d := Run(c, EMPTY, ops).display;
      && (forall i, j :: i in d.marks && j in d.marks && d.marks[i].kind == Glance && d.marks[j].kind == Glance ==>
            i == j)
      && (forall i, j ::
            (i in d.windows && j in d.windows && d.windows[i] == d.windows[j] && i !in d.strays && j !in d.strays) ==>
            i == j)
  {
    hide Step, Swept;
    EmptyInv();
    RunInv(c, EMPTY, ops);
  }

  /** Hiding a glance takes the glance away and nothing else. */
  lemma HidingKeepsTheRest(v: View)
    requires Inv(v) && v.level == L1
    ensures var w := GlanceHidden(v);
      && (forall id :: id in w.display.marks <==> id in v.display.marks && v.display.marks[id].kind == Hint)
      && (forall id :: id in w.display.marks ==> w.display.marks[id] == v.display.marks[id])
      && w.display.windows == v.display.windows && w.display.entries == v.display.entries
  {
    hide WindowsOwned, EntriesOwned, Swept;
    BlameClearedOwned(v.display, v.owned);
  }

  /** A hint's timer takes at most that hint away, however late it fires. */
  lemma ExpiryKeepsTheRest(v: View, k: nat)
    requires Inv(v) && k < |v.owned.hints|
    ensures var w := HintExpired(v, k);
      var id := v.owned.hints[k];
      && w.display == v.display.(marks := v.display.marks - {id})
      && (id in v.display.marks ==> v.display.marks[id].kind == Hint)
  {
    hide WindowsOwned, EntriesOwned, Swept;
  }

  // ---------- level L0 ----------

  /** The editor will keep a list, or a float that it refuses to close. */
  predicate Remains(d: Display, kept: set<nat>) {
    exists w :: w in d.windows && (d.windows[w] == List || w in kept)
  }

  predicate HasList(d: Display) {
    Remains(d, {})
  }

  predicate HasHint(d: Display) {
    exists id :: id in d.marks && d.marks[id].kind == Hint
  }

  /** List entries whose buffer somebody else deleted. */
  predicate Orphaned(d: Display) {
    d.entries.Some? && d.entries.value !in d.scratch
  }

  /** What the step asks the editor to close, if it clears everything. */
  function Clears(v: View, op: Op): Option<(Display, Closes)> {
    match op
    case GlanceTimer(closes) => if v.level == L1 then Some((v.display, closes)) else None
    case IdleTimer(closes) => Some((v.display, closes))
    case Panic(_, closes) => Some((v.display, closes))
    case Silence(_, closes) => Some((v.display, closes))
    case FocusLost(kept, closes) => Some((FloatsGone(v.display, kept), closes))
    case ClearEvent(closes) => Some((v.display, closes))
    case _ => None
  }

  /** The step clears everything and the editor keeps a window open. */
  predicate Thwarted(v: View, op: Op) {
    Clears(v, op).Some? &&
    var (d, closes) := Clears(v, op).value;
    exists w :: w in d.windows && Refused(d, closes, w)
  }

  lemma EmptyIff<T>(m: map<nat, T>)
    ensures m == map[] <==> forall w :: w !in m
  {
    if forall w :: w !in m {
      assert m.Keys == {};
    }
  }

  lemma GoneUnlessRemains(d: Display, kept: set<nat>)
    ensures FloatsGone(d, kept).windows == map[] <==> !Remains(d, kept)
  {
    var rest := FloatsGone(d, kept).windows;
    EmptyIff(rest);
    forall w | w in d.windows && (d.windows[w] == List || w in kept)
      ensures w in rest
    {
    }
  }

  /** What a clear leaves of the windows. */
  lemma SweepsWindows(c: Config, v: View, op: Op)
    requires Inv(v) && Clears(v, op).Some?
    ensures Step(c, v, op).level == L0 && (Step(c, v, op).display.windows == map[] <==> !Thwarted(v, op))
  {
    hide Cleared, AllCleared, MarksOwned, WindowsOwned, EntriesOwned, Swept, Refused, FloatsGone;
    EmptyIff(Step(c, v, op).display.windows);
    match op
    case GlanceTimer(closes) => ClearedOwned(v, closes);
    case IdleTimer(closes) => ClearedOwned(v, closes);
    case Panic(minutes, closes) =>
      PanicOnce(v, minutes, closes);
      AllClearedOwned(v, closes);
      AllClearedOwned(SetQuiet(AllCleared(v, closes), minutes), closes);
    case Silence(minutes, closes) => AllClearedOwned(SetQuiet(v, minutes), closes);
    case FocusLost(kept, closes) =>
      UnfloatedOwned(v.display, v.owned, kept);
      AllClearedOwned(Unfloated(v, kept), closes);
    case ClearEvent(closes) => AllClearedOwned(v, closes);
  }

  /** And of the rest: hints only if it is a timer's, and orphaned entries. */
  lemma SweepsRest(c: Config, v: View, op: Op)
    requires Inv(v) && Clears(v, op).Some?
    ensures var d := Step(c, v, op).display;
      && (d.marks == map[] <==> !((op.GlanceTimer? || op.IdleTimer?) && HasHint(v.display)))
      && (d.entries.None? <==> !Orphaned(v.display))
  {
    hide Cleared, AllCleared, MarksOwned, WindowsOwned, EntriesOwned, Swept, Refused;
    EmptyIff(Step(c, v, op).display.marks);
    match op
    case GlanceTimer(closes) => ClearedOwned(v, closes);
    case IdleTimer(closes) => ClearedOwned(v, closes);
    case Panic(minutes, closes) => PanicOnce(v, minutes, closes);
    case Silence(minutes, closes) => AllClearedOwned(SetQuiet(v, minutes), closes);
    case FocusLost(kept, closes) =>
      UnfloatedOwned(v.display, v.owned, kept);
      AllClearedOwned(Unfloated(v, kept), closes);
    case ClearEvent(closes) => AllClearedOwned(v, closes);
  }

  /** At L0 nothing of ours is on screen. */
  predicate BlankAtL0(v: View) {
    v.level == L0 ==> Blank(v.display)
  }

  /** The step leaves something on screen at L0: it draws it there, or hides a
      glance that was not alone, or clears everything but for what the editor
      keeps, what has lost its buffer and, if a timer does it, the hints. */
  predicate Leaves(v: View, op: Op) {
    match op
    case SendFailed(h, drawn) => v.level == L0 && Allow(v.clock, h) && drawn
    case Panorama(h, hasMessages, place, _, _) =>
      v.level == L0 && AllowExplicit(v.clock, h) && hasMessages && place == Nowhere
    case CursorMoved(kept) => v.level == L1 && NotAlone(v.display, kept)
    case InsertEnter(kept) => v.level == L1 && NotAlone(v.display, kept)
    case GlanceTimer(_) => v.level == L1 && (Thwarted(v, op) || Orphaned(v.display) || HasHint(v.display))
    case IdleTimer(_) => Thwarted(v, op) || Orphaned(v.display) || HasHint(v.display)
    case _ => Clears(v, op).Some? && (Thwarted(v, op) || Orphaned(v.display))
  }

  /** Taking the glance away leaves a window, a hint or list entries. */
  predicate NotAlone(d: Display, kept: set<nat>) {
    Remains(d, kept) || HasHint(d) || d.entries.Some?
  }

  lemma HidesBlankIff(c: Config, v: View, op: Op)
    requires Inv(v) && BlankAtL0(v) && (op.CursorMoved? || op.InsertEnter?)
    ensures BlankAtL0(Step(c, v, op)) <==> !Leaves(v, op)
  {
    hide MarksOwned, WindowsOwned, EntriesOwned, Swept, FloatsGone, Remains;
    UnfloatedOwned(v.display, v.owned, op.kept);
    GoneUnlessRemains(v.display, op.kept);
    FloatsOnly(v.display, op.kept);
    BlameClearedOwned(FloatsGone(v.display, op.kept), v.owned);
    EmptyIff(Step(c, v, op).display.marks);
  }

  lemma FloatsOnly(d: Display, kept: set<nat>)
    ensures var d' := FloatsGone(d, kept);
      && d'.marks == d.marks && d'.entries == d.entries && (d.windows == map[] ==> d'.windows == map[])
  {
    EmptyIff(d.windows);
    EmptyIff(FloatsGone(d, kept).windows);
  }

  lemma OthersBlankIff(c: Config, v: View, op: Op)
    requires BlankAtL0(v) && Clears(v, op).None? && !op.CursorMoved? && !op.InsertEnter?
    ensures BlankAtL0(Step(c, v, op)) <==> !Leaves(v, op)
  {
    hide BlameDrawn, FloatDrawn, FloatsGone, ListCleared, ListOpened;
    FloatsOnly(v.display, Kept(op));
    match op
    case SendFailed(_, _) =>
      assert Leaves(v, op) ==> v.display.nextMark in Step(c, v, op).display.marks;
    case Panorama(_, _, place, goes, kept) => EntriesComeUp(v.display, v.owned, place, goes, kept);
    case HintTimer(_) => EmptyIff(Step(c, v, op).display.marks);
    case BufferGone(_) => EmptyIff(Step(c, v, op).display.marks);
    case WindowGone(_) => EmptyIff(Step(c, v, op).display.windows);
    case _ =>
  }

  lemma EntriesComeUp(d: Display, o: Owned, place: Place, goes: bool, kept: set<nat>)
    ensures ListDrawn(d, o, place, goes, kept).0.entries.Some?
  {
  }

  /** Level L0 is meant to be a blank screen. Every step of anyone keeps it so,
      except exactly those that leave something. */
  lemma StaysBlankIff(c: Config, v: View, op: Op)
    requires Inv(v) && BlankAtL0(v)
    ensures BlankAtL0(Step(c, v, op)) <==> !Leaves(v, op)
  {
    hide Inv, Step, HasHint, Orphaned, Thwarted, NotAlone;
    if Clears(v, op).Some? {
      SweepsWindows(c, v, op);
      SweepsRest(c, v, op);
    } else if op.CursorMoved? || op.InsertEnter? {
      HidesBlankIff(c, v, op);
    } else {
      OthersBlankIff(c, v, op);
    }
  }

  /** So in every run L0 is blank all along exactly if no step left anything. */
  lemma {:induction false} AlwaysBlankIff(c: Config, ops: seq<Op>)
    ensures (forall k :: 0 <= k <= |ops| ==> BlankAtL0(Run(c, EMPTY, ops[..k])))
       <==> (forall k :: 0 <= k < |ops| ==> !Leaves(Run(c, EMPTY, ops[..k]), ops[k]))
  {
    hide Step, Leaves, Inv, BlankAtL0;
    assert BlankAtL0(EMPTY) by { BlankStart(); }
    if ops == [] {
      assert Run(c, EMPTY, []) == EMPTY;
    } else {
      var front := ops[..|ops| - 1];
      assert forall k :: 0 <= k <= |front| ==> front[..k] == ops[..k];
      assert ops[..|ops|] == ops;
      AlwaysBlankIff(c, front);
      EmptyInv();
      RunInv(c, EMPTY, front);
      if BlankAtL0(Run(c, EMPTY, front)) {
        StaysBlankIff(c, Run(c, EMPTY, front), ops[|ops| - 1]);
      }
    }
  }

  lemma BlankStart()
    ensures BlankAtL0(EMPTY)
  {
  }

  /** It does happen: a failed send is told at L0. */
  lemma HintAtL0(c: Config, h: Here)
    requires Allow(EMPTY.clock, h)
    ensures var v := Run(c, EMPTY, [SendFailed(h, true)]);
      v.level == L0 && v.display.marks == map[0 := Mark(h.buf, Hint)]
  {
    assert [SendFailed(h, true)][..0] == [];
  }

  /** And a list for which the editor opens no window leaves its entries there. */
  lemma EntriesAtL0(c: Config, h: Here)
    requires !h.excluded
    ensures var v := Run(c, EMPTY, [Panorama(h, true, Nowhere, true, {})]);
      v.level == L0 && v.display.entries == Some(0)
  {
    assert [Panorama(h, true, Nowhere, true, {})][..0] == [];
  }

  /** At L0 no window of ours is open. */
  predicate QuietAtL0(v: View) {
    v.level == L0 ==> v.display.windows == map[]
  }

  /** The step hides a glance that was drawn over an open window. */
  predicate Uncovers(v: View, op: Op) {
    (op.CursorMoved? || op.InsertEnter?) && v.level == L1 && Remains(v.display, op.kept)
  }

  lemma HidesQuietly(c: Config, v: View, op: Op)
    requires QuietAtL0(v) && (op.CursorMoved? || op.InsertEnter?)
    ensures QuietAtL0(Step(c, v, op)) <==> !Uncovers(v, op)
  {
    hide FloatsGone, Remains;
    GoneUnlessRemains(v.display, op.kept);
    FloatsOnly(v.display, op.kept);
  }

  lemma OthersQuietly(c: Config, v: View, op: Op)
    requires QuietAtL0(v) && Clears(v, op).None? && !op.CursorMoved? && !op.InsertEnter?
    ensures QuietAtL0(Step(c, v, op))
  {
    hide BlameDrawn, FloatDrawn, FloatsGone;
    FloatsOnly(v.display, Kept(op));
    EmptyIff(Step(c, v, op).display.windows);
  }

  /** The same for floats and lists alone, whatever hints and entries there are:
      L0 has none of them open except exactly after hiding a glance drawn over an
      open window, and after a clear that the editor thwarts. */
  lemma StaysQuietIff(c: Config, v: View, op: Op)
    requires Inv(v) && QuietAtL0(v)
    ensures QuietAtL0(Step(c, v, op)) <==> !Uncovers(v, op) && !Thwarted(v, op)
  {
    hide Inv, Step, Remains, Refused;
    if Clears(v, op).Some? {
      SweepsWindows(c, v, op);
    } else if op.CursorMoved? || op.InsertEnter? {
      HidesQuietly(c, v, op);
    } else {
      OthersQuietly(c, v, op);
    }
  }

  // ---------- the glance ----------

  predicate HasGlance(d: Display) {
    exists id :: id in d.marks && d.marks[id].kind == Glance
  }

  /** A glance is meant to go when the cursor moves, on insert, or after its
      timeout. It does at L1 and stays at every other level. */
  lemma GlanceStaysIff(c: Config, v: View, op: Op)
    requires Inv(v) && (op.CursorMoved? || op.InsertEnter? || op.GlanceTimer?)
    ensures HasGlance(Step(c, v, op).display) <==> HasGlance(v.display) && v.level != L1
  {
    hide WindowsOwned, EntriesOwned, Swept, Cleared, Refused;
    if op.GlanceTimer? {
      ClearedOwned(v, op.closes);
    } else {
      FloatsOnly(v.display, op.kept);
      BlameClearedOwned(FloatsGone(v.display, op.kept), v.owned);
    }
  }

  /** A glance is a matter of the other levels. */
  predicate GlancesHaveLevel(v: View) {
    HasGlance(v.display) ==> v.level != L0
  }

  lemma StepKeepsGlances(c: Config, v: View, op: Op)
    requires Inv(v) && GlancesHaveLevel(v)
    ensures GlancesHaveLevel(Step(c, v, op))
  {
    hide WindowsOwned, EntriesOwned, Swept, Refused, Cleared, AllCleared, HasGlance;
    if op.CursorMoved? || op.InsertEnter? || op.GlanceTimer? {
      hide MarksOwned;
      GlanceStaysIff(c, v, op);
    } else if Clears(v, op).Some? {
      hide MarksOwned, FloatsGone;
      SweepsRest(c, v, op);
      if op.IdleTimer? {
        ClearedOwned(v, op.closes);
        OnlyHints(v.display, Cleared(v, op.closes).display);
      } else {
        OnlyHints(v.display, Step(c, v, op).display);
      }
    } else {
      OthersKeepGlances(c, v, op);
    }
  }

  lemma OnlyHints(d: Display, d': Display)
    requires forall id :: id in d'.marks ==> id in d.marks && d'.marks[id] == d.marks[id] && d.marks[id].kind == Hint
    ensures !HasGlance(d')
  {
  }

  lemma OthersKeepGlances(c: Config, v: View, op: Op)
    requires GlancesHaveLevel(v) && Clears(v, op).None?
    requires !op.CursorMoved? && !op.InsertEnter? && !op.GlanceTimer?
    ensures GlancesHaveLevel(Step(c, v, op))
  {
    hide BlameDrawn, FloatDrawn, FloatsGone, ListOpened;
    FloatsOnly(v.display, Kept(op));
    match op
    case Panorama(_, _, place, goes, kept) => ListKeepsMarks(v.display, v.owned, place, goes, kept);
    case _ =>
  }

  lemma ListKeepsMarks(d: Display, o: Owned, place: Place, goes: bool, kept: set<nat>)
    ensures ListDrawn(d, o, place, goes, kept).0.marks == d.marks
  {
  }

  /** In every run no glance is on screen at L0. */
  lemma {:induction false} NoGlanceAtL0(c: Config, ops: seq<Op>)
    ensures var v := Run(c, EMPTY, ops);
      v.level == L0 ==> forall id :: id in v.display.marks ==> v.display.marks[id].kind == Hint
  {
    hide Run;
    GlancesKept(c, ops);
    var d := Run(c, EMPTY, ops).display;
    forall id | id in d.marks && Run(c, EMPTY, ops).level == L0
      ensures d.marks[id].kind == Hint
    {
      assert d.marks[id].kind == Glance ==> HasGlance(d);
    }
  }

  lemma {:induction false} GlancesKept(c: Config, ops: seq<Op>)
    ensures GlancesHaveLevel(Run(c, EMPTY, ops))
  {
    hide Step, Inv;
    if ops != [] {
      var front := ops[..|ops| - 1];
      GlancesKept(c, front);
      EmptyInv();
      RunInv(c, EMPTY, front);
      hide GlancesHaveLevel;
      StepKeepsGlances(c, Run(c, EMPTY, front), ops[|ops| - 1]);
    }
  }

  // ---------- the idle timer ----------

  /** Whatever is open will be taken down if the user walks away. */
  predicate Watched(v: View) {
    v.display.windows != map[] ==> v.timers.idle
  }

  /** Moving the cursor keeps that exactly when no window stays open, or the level
      is L2 or L3: at L0, and at L1 by hiding the glance, it stops the idle timer. */
  lemma MovingKeepsWatchIff(c: Config, v: View, kept: set<nat>)
    requires Watched(v)
    ensures Watched(Step(c, v, CursorMoved(kept))) <==> !Remains(v.display, kept) || v.level == L2 || v.level == L3
  {
    hide FloatsGone, Remains;
    FloatsOnly(v.display, kept);
    GoneUnlessRemains(v.display, kept);
  }

  /** It does happen: a list, a glance drawn while it is open and a moved cursor
      give L0, the list still on screen and no timer to remove it. */
  lemma LevelZeroWithList(h: Here)
    requires !h.excluded && h.file && h.listed && !h.diff && h.wide && !h.typing
    ensures var ops := [Panorama(h, true, New, true, {}), CursorHold(h, true, true), CursorMoved({})];
      var v := Run(Config(true, true), EMPTY, ops);
      v.level == L0 && v.display.windows == map[0 := List] && v.display.entries == Some(0) && !v.timers.idle
  {
    hide Run;
    RunThree(Config(true, true), Panorama(h, true, New, true, {}), CursorHold(h, true, true), CursorMoved({}));
  }

  /** And a glance, a float opened beside it and a moved cursor leave the glance
      on screen at L2, with nothing else there. */
  lemma GlanceOutlivesFloat(c: Config, h: Here)
    requires Allow(EMPTY.clock, h)
    ensures var v := Run(c, EMPTY, [CursorHold(h, true, true), Read(h, true, true, true), CursorMoved({})]);
      v.level == L2 && v.display.windows == map[] && v.display.marks == map[0 := Mark(h.buf, Glance)]
  {
    hide Run;
    RunThree(c, CursorHold(h, true, true), Read(h, true, true, true), CursorMoved({}));
  }
}
