/** What the frontend draws and takes away again: the exposure levels
    (lua/quietdm/level.lua), the guard (guard.lua), the failed-send hint and
    panic (init.lua) and the three default renderers. */
module Screen {
  import opened Basics

  datatype Kind = Glance | Hint

  /** A piece of virtual text in a buffer. */
  datatype Mark = Mark(buf: nat, kind: Kind)

  datatype Level = L0 | L1 | L2 | L3

  datatype Window = Float | List

  /** What is on screen. scratch: the buffers list entries point at that still
      exist; entries: the buffer the entries of the quickfix list point at;
      strays is history: the windows the editor once refused to close. */
  datatype Display = Display(
    marks: map<nat, Mark>, nextMark: nat, windows: map<nat, Window>, nextWin: nat,
    scratch: set<nat>, entries: Option<nat>, nextBuf: nat, strays: set<nat>)

  /** Where a list comes up: in the quickfix window the user is in, in a new
      window, in a quickfix window that is still open, or in none because the
      editor refuses to open one. */
  datatype Place = Same | New | Old(win: nat) | Nowhere

  /** Whether the editor lets the float and the list window be closed now. */
  datatype Closes = Closes(float: bool, list: bool)

  /** What the renderers remember having drawn, and the hints yet to expire. */
  datatype Owned = Owned(
    glanceMark: Option<nat>, floatWin: Option<nat>, listWin: Option<nat>, listBuf: Option<nat>, hints: seq<nat>)

  /** Timers that are armed, or whose callback is still to run. */
  datatype Timers = Timers(glance: bool, idle: bool)

  datatype Clock = Clock(now: int, silentUntil: int)

  datatype View = View(display: Display, owned: Owned, level: Level, timers: Timers, clock: Clock)

  /** Fixed for a run: whether the two timeouts are positive. */
  datatype Config = Config(glanceTimeout: bool, idleDowngrade: bool)

  /** The current window and buffer, as the guard looks at them. */
  datatype Here = Here(
    buf: nat, excluded: bool, file: bool, listed: bool, diff: bool, wide: bool, typing: bool)

  const EMPTY := View(
    Display(map[], 0, map[], 0, {}, None, 0, {}), Owned(None, None, None, None, []),
    L0, Timers(false, false), Clock(0, 0))

  // ---------- the guard ----------

  predicate Silenced(c: Clock) {
    c.now < c.silentUntil
  }

  /** May anything be drawn here on its own? */
  predicate Allow(c: Clock, h: Here) {
    !Silenced(c) && !h.excluded && h.file && h.listed && !h.diff && h.wide && !h.typing
  }

  /** May something the user asked for be drawn here? */
  predicate AllowExplicit(c: Clock, h: Here) {
    !Silenced(c) && !h.excluded
  }

  // ---------- the renderers ----------

  function Without<T>(m: map<nat, T>, k: Option<nat>): map<nat, T> {
    if k.Some? then m - {k.value} else m
  }

  function BlameCleared(d: Display, o: Owned): (Display, Owned) {
    (d.(marks := Without(d.marks, o.glanceMark)), o.(glanceMark := None))
  }

  /** `drawn` says whether the editor took the mark. */
  function BlameDrawn(d: Display, o: Owned, buf: nat, drawn: bool): (Display, Owned) {
    var (d1, o1) := BlameCleared(d, o);
    if drawn then
      (d1.(marks := d1.marks[d1.nextMark := Mark(buf, Glance)], nextMark := d1.nextMark + 1),
       o1.(glanceMark := Some(d1.nextMark)))
    else (d1, o1)
  }

  /** A window the editor does not close is forgotten all the same. */
  function WindowClosed(d: Display, win: Option<nat>, closes: bool): Display {
    if win.None? || win.value !in d.windows then d
    else if closes then d.(windows := d.windows - {win.value})
    else d.(strays := d.strays + {win.value})
  }

  function FloatCleared(d: Display, o: Owned, closes: bool): (Display, Owned) {
    (WindowClosed(d, o.floatWin, closes), o.(floatWin := None))
  }

  function FloatDrawn(d: Display, o: Owned, shown: bool, closes: bool): (Display, Owned) {
    var (d1, o1) := FloatCleared(d, o, closes);
    if shown then
      (d1.(windows := d1.windows[d1.nextWin := Float], nextWin := d1.nextWin + 1),
       o1.(floatWin := Some(d1.nextWin)))
    else (d1, o1)
  }

  /** The entries go with the scratch buffer, if that is still there. */
  function EntriesCleared(d: Display, buf: Option<nat>): Display {
    if buf.Some? && buf.value in d.scratch then d.(entries := None, scratch := d.scratch - {buf.value}) else d
  }

  function ListCleared(d: Display, o: Owned, closes: bool): (Display, Owned) {
    (EntriesCleared(WindowClosed(d, o.listWin, closes), o.listBuf), o.(listWin := None, listBuf := None))
  }

  /** A float closes by itself when the cursor moves, insert mode begins, its
      window or buffer is left, or the editor loses focus (ctx.lua), unless the
      editor keeps it. */
  function FloatsGone(d: Display, kept: set<nat>): Display {
    d.(windows := map w | w in d.windows && (d.windows[w] == List || w in kept) :: d.windows[w])
  }

  /** Unless the user is in it already, the cursor enters the list's window for
      a moment. */
  function ListOpened(d: Display, place: Place, kept: set<nat>): (Display, Option<nat>) {
    if place == Same || place == Nowhere then (d, None)
    else
      var d1 := FloatsGone(d, kept);
      if place.Old? && place.win in d1.windows && d1.windows[place.win] == List then
        (d1.(strays := d1.strays - {place.win}), Some(place.win))
      else (d1.(windows := d1.windows[d1.nextWin := List], nextWin := d1.nextWin + 1), Some(d1.nextWin))
  }

  /** The entries are up before the window is asked for. */
  function ListDrawn(d: Display, o: Owned, place: Place, closes: bool, kept: set<nat>): (Display, Owned) {
    var (d1, o1) := ListCleared(d, o, closes);
    var d2 := d1.(scratch := d1.scratch + {d1.nextBuf}, entries := Some(d1.nextBuf), nextBuf := d1.nextBuf + 1);
    var (d3, win) := ListOpened(d2, place, kept);
    (d3, o1.(listBuf := Some(d1.nextBuf), listWin := win))
  }

  // ---------- the levels ----------

  function RenderersCleared(d: Display, o: Owned, closes: Closes): (Display, Owned) {
    var (d1, o1) := BlameCleared(d, o);
    var (d2, o2) := FloatCleared(d1, o1, closes.float);
    ListCleared(d2, o2, closes.list)
  }

  function Cleared(v: View, closes: Closes): View {
    var (d, o) := RenderersCleared(v.display, v.owned, closes);
    View(d, o, L0, Timers(false, false), v.clock)
  }

  function Glanced(c: Config, v: View, h: Here, hasMessage: bool, drawn: bool): View {
    if !Allow(v.clock, h) || !hasMessage then v
    else
      var (d, o) := BlameDrawn(v.display, v.owned, h.buf, drawn);
      View(d, o, L1, v.timers.(glance := v.timers.glance || c.glanceTimeout), v.clock)
  }

  function GlanceHidden(v: View): View {
    if v.level != L1 then v
    else
      var (d, o) := BlameCleared(v.display, v.owned);
      View(d, o, L0, v.timers.(glance := false), v.clock)
  }

  function Touched(c: Config, v: View): View {
    if v.level == L0 then v.(timers := v.timers.(idle := false))
    else v.(timers := v.timers.(idle := v.timers.idle || c.idleDowngrade))
  }

  function ReadShown(c: Config, v: View, h: Here, hasMessages: bool, shown: bool, closes: bool): View {
    if !AllowExplicit(v.clock, h) || !hasMessages then v
    else
      var (d, o) := FloatDrawn(v.display, v.owned, shown, closes);
      Touched(c, View(d, o, L2, v.timers, v.clock))
  }

  /** A list that fails to come up leaves the level as it was. */
  function PanoramaShown(
      c: Config, v: View, h: Here, hasMessages: bool, place: Place, closes: bool, kept: set<nat>): View
  {
    if !AllowExplicit(v.clock, h) || !hasMessages then v
    else
      var (d, o) := ListDrawn(v.display, v.owned, place, closes, kept);
      if place == Nowhere then v.(display := d, owned := o)
      else Touched(c, View(d, o, L3, v.timers, v.clock))
  }

  function GlanceTimedOut(v: View, closes: Closes): View {
    if v.level == L1 then Cleared(v, closes) else v.(timers := v.timers.(glance := false))
  }

  // ---------- hints, panic and silence ----------

  function HintShown(v: View, h: Here, drawn: bool): View {
    if !Allow(v.clock, h) || !drawn then v
    else
      var d := v.display;
      v.(display := d.(marks := d.marks[d.nextMark := Mark(h.buf, Hint)], nextMark := d.nextMark + 1),
         owned := v.owned.(hints := v.owned.hints + [d.nextMark]))
  }

  /** The k-th hint's own timer fires. */
  function HintExpired(v: View, k: nat): View {
    if k >= |v.owned.hints| then v
    else v.(display := v.display.(marks := v.display.marks - {v.owned.hints[k]}))
  }

  /** The levels down, and then the whole namespace in every buffer. */
  function AllCleared(v: View, closes: Closes): View {
    var v1 := Cleared(v, closes);
    v1.(display := v1.display.(marks := map[]))
  }

  function SilencedFor(v: View, minutes: real, closes: Closes): View {
    AllCleared(v.(clock := v.clock.(silentUntil := v.clock.now + (minutes * 60.0).Floor)), closes)
  }

  function Panicked(v: View, minutes: real, closes: Closes): View {
    SilencedFor(AllCleared(v, closes), minutes, closes)
  }

  // ---------- the modules as they are written ----------

  class Frontend {
    const config: Config
    var display: Display
    var glanceMark: Option<nat>
    var floatWin: Option<nat>
    var listWin: Option<nat>
    var listBuf: Option<nat>
    var hints: seq<nat>
    var level: Level
    var glanceTimer: bool
    var idleTimer: bool
    var now: int
    var silentUntil: int

    ghost function OwnedNow(): Owned
      reads this
    {
      Owned(glanceMark, floatWin, listWin, listBuf, hints)
    }

    ghost function Contents(): View
      reads this
    {
      View(display, OwnedNow(), level, Timers(glanceTimer, idleTimer), Clock(now, silentUntil))
    }

    constructor (config: Config)
      ensures this.config == config && Contents() == EMPTY
    {
      this.config := config;
      display := EMPTY.display;
      glanceMark, floatWin, listWin, listBuf, hints := None, None, None, None, [];
      level, glanceTimer, idleTimer, now, silentUntil := L0, false, false, 0, 0;
    }

    method ClearBlame()
      modifies this`display, this`glanceMark
      ensures (display, OwnedNow()) == BlameCleared(old(display), old(OwnedNow()))
    {
      if glanceMark.Some? {
        display := display.(marks := display.marks - {glanceMark.value});
      }
      glanceMark := None;
    }

    method RenderBlame(buf: nat, drawn: bool)
      modifies this`display, this`glanceMark
      ensures (display, OwnedNow()) == BlameDrawn(old(display), old(OwnedNow()), buf, drawn)
    {
      ClearBlame();
      if drawn {
        var id := display.nextMark;
        display := display.(marks := display.marks[id := Mark(buf, Glance)], nextMark := id + 1);
        glanceMark := Some(id);
      }
    }

    method CloseWindow(win: Option<nat>, closes: bool)
      modifies this`display
      ensures display == WindowClosed(old(display), win, closes)
    {
      if win.Some? && win.value in display.windows {
        if closes {
          display := display.(windows := display.windows - {win.value});
        } else {
          display := display.(strays := display.strays + {win.value});
        }
      }
    }

    method ClearFloat(closes: bool)
      modifies this`display, this`floatWin
      ensures (display, OwnedNow()) == FloatCleared(old(display), old(OwnedNow()), closes)
    {
      CloseWindow(floatWin, closes);
      floatWin := None;
    }

    method RenderFloat(shown: bool, closes: bool)
      modifies this`display, this`floatWin
      ensures (display, OwnedNow()) == FloatDrawn(old(display), old(OwnedNow()), shown, closes)
    {
      ClearFloat(closes);
      if shown {
        var id := display.nextWin;
        display := display.(windows := display.windows[id := Float], nextWin := id + 1);
        floatWin := Some(id);
      }
    }

    method ClearList(closes: bool)
      modifies this`display, this`listWin, this`listBuf
      ensures (display, OwnedNow()) == ListCleared(old(display), old(OwnedNow()), closes)
    {
      CloseWindow(listWin, closes);
      listWin := None;
      if listBuf.Some? && listBuf.value in display.scratch {
        display := display.(entries := None);
        display := display.(scratch := display.scratch - {listBuf.value});
      }
      listBuf := None;
    }

    method OpenList(place: Place, kept: set<nat>) returns (win: Option<nat>)
      modifies this`display
      ensures (display, win) == ListOpened(old(display), place, kept)
    {
      if place == Same || place == Nowhere {
        return None;
      }
      display := FloatsGone(display, kept);
      if place.Old? && place.win in display.windows && display.windows[place.win] == List {
        display := display.(strays := display.strays - {place.win});
        return Some(place.win);
      }
      var id := display.nextWin;
      display := display.(windows := display.windows[id := List], nextWin := id + 1);
      return Some(id);
    }

    method RenderList(place: Place, closes: bool, kept: set<nat>) returns (ok: bool)
      modifies this`display, this`listWin, this`listBuf
      ensures (display, OwnedNow()) == ListDrawn(old(display), old(OwnedNow()), place, closes, kept)
      ensures ok <==> place != Nowhere
    {
      hide ListOpened;
      ClearList(closes);
      var buf := display.nextBuf;
      display := display.(scratch := display.scratch + {buf}, nextBuf := buf + 1);
      listBuf := Some(buf);
      display := display.(entries := Some(buf));
      var win := OpenList(place, kept);
      listWin := win;
      ok := place != Nowhere;
    }

    method Clear(closes: Closes)
      modifies this
      ensures Contents() == Cleared(old(Contents()), closes)
    {
      hide BlameCleared, FloatCleared, ListCleared;
      glanceTimer := false;
      idleTimer := false;
      ClearBlame();
      ClearFloat(closes.float);
      ClearList(closes.list);
      level := L0;
    }

    method ShowGlance(h: Here, hasMessage: bool, drawn: bool)
      modifies this
      ensures Contents() == Glanced(config, old(Contents()), h, hasMessage, drawn)
    {
      hide BlameDrawn;
      if !Allow(Clock(now, silentUntil), h) {
        return;
      }
      if !hasMessage {
        return;
      }
      RenderBlame(h.buf, drawn);
      level := L1;
      if config.glanceTimeout {
        glanceTimer := true;
      }
    }

    method HideGlance()
      modifies this
      ensures Contents() == GlanceHidden(old(Contents()))
    {
      hide BlameCleared;
      if level != L1 {
        return;
      }
      glanceTimer := false;
      ClearBlame();
      level := L0;
    }

    method Touch()
      modifies this`idleTimer
      ensures Contents() == Touched(config, old(Contents()))
    {
      if level == L0 {
        idleTimer := false;
        return;
      }
      if config.idleDowngrade {
        idleTimer := true;
      }
    }

    method Read(h: Here, hasMessages: bool, shown: bool, closes: bool)
      modifies this
      ensures Contents() == ReadShown(config, old(Contents()), h, hasMessages, shown, closes)
    {
      hide FloatDrawn;
      if !AllowExplicit(Clock(now, silentUntil), h) {
        return;
      }
      if !hasMessages {
        return;
      }
      RenderFloat(shown, closes);
      level := L2;
      Touch();
    }

    method Panorama(h: Here, hasMessages: bool, place: Place, closes: bool, kept: set<nat>)
      modifies this
      ensures Contents() == PanoramaShown(config, old(Contents()), h, hasMessages, place, closes, kept)
    {
      hide ListDrawn;
      if !AllowExplicit(Clock(now, silentUntil), h) {
        return;
      }
      if !hasMessages {
        return;
      }
      var ok := RenderList(place, closes, kept);
      if !ok {
        return;
      }
      level := L3;
      Touch();
    }

    method SendFailed(h: Here, drawn: bool)
      modifies this
      ensures Contents() == HintShown(old(Contents()), h, drawn)
    {
      if !Allow(Clock(now, silentUntil), h) {
        return;
      }
      if !drawn {
        return;
      }
      var id := display.nextMark;
      display := display.(marks := display.marks[id := Mark(h.buf, Hint)], nextMark := id + 1);
      hints := hints + [id];
    }

    method ClearAll(closes: Closes)
      modifies this
      ensures Contents() == AllCleared(old(Contents()), closes)
    {
      hide RenderersCleared;
      Clear(closes);
      display := display.(marks := map[]);
    }

    method Silence(minutes: real, closes: Closes)
      modifies this
      ensures Contents() == SilencedFor(old(Contents()), minutes, closes)
    {
      hide AllCleared;
      silentUntil := now + (minutes * 60.0).Floor;
      ClearAll(closes);
    }

    method Panic(minutes: real, closes: Closes)
      modifies this
      ensures Contents() == Panicked(old(Contents()), minutes, closes)
    {
      hide AllCleared, SilencedFor;
      ClearAll(closes);
      Silence(minutes, closes);
    }
  }
}
