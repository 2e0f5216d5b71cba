/** The three projection screens, their mirrors and the live state (screenState.ts and the handlers of
    main.ts). */
module Screens {
  import opened Options

  datatype Key = A | B | C

  /** A record with one entry per screen. */
  datatype Trio<T> = Trio(a: T, b: T, c: T) {
    function Get(k: Key): T {
      match k case A => a case B => b case C => c
    }

    function Put(k: Key, value: T): Trio<T> {
      match k case A => this.(a := value) case B => this.(b := value) case C => this.(c := value)
    }
  }

  datatype Mirror = FREE | MIRROR(from: Key)

  datatype Mode = NORMAL | BLACK | WHITE

  datatype TextPayload = TextPayload(
    title: Option<string>, body: string, metaSong: Option<string>, secondaryTexts: seq<(string, string)>,
    backgroundOverride: Option<string>)

  datatype MediaPayload = MediaPayload(title: Option<string>, mediaPath: string, mediaType: string)

  datatype Content = EMPTY | TEXT(text: TextPayload) | MEDIA(media: MediaPayload)

  /** The appearance fields by name; a missing name is an undefined field. */
  type Look = map<string, string>

  /** `CpProjectionState` */
  datatype ScreenState = ScreenState(
    mode: Mode, lowerThird: bool, transition: bool, look: Look, current: Content, updatedAt: int)

  /** `Partial<CpProjectionState>` as the setState handlers pass it. */
  datatype StatePatch = StatePatch(
    mode: Option<Mode>, lowerThird: Option<bool>, transition: Option<bool>, look: Look, current: Option<Content>)

  datatype Live = Live(
    enabled: bool, planId: Option<string>, cursor: int, target: Key, black: bool, white: bool,
    locked: Trio<bool>, updatedAt: int)

  datatype LivePatch = LivePatch(
    enabled: Option<bool>, planId: Option<Option<string>>, cursor: Option<int>, target: Option<Key>,
    black: Option<bool>, white: Option<bool>, locked: Option<Trio<bool>>)

  const NO_PATCH := LivePatch(None, None, None, None, None, None, None)

  /** The fallbacks of `setAppearance`. */
  const DEFAULT_LOOK: Look := map[
    "textScale" := "1", "textFont" := "system-ui", "textFontPath" := "", "background" := "#050505",
    "backgroundMode" := "SOLID", "backgroundGradientFrom" := "#2563eb", "backgroundGradientTo" := "#7c3aed",
    "backgroundGradientAngle" := "135", "backgroundImage" := "", "logoPath" := "", "logoPosition" := "top-right",
    "logoOpacity" := "80", "logoScale" := "100", "foregroundMode" := "SOLID", "foregroundGradientFrom" := "#ffffff",
    "foregroundGradientTo" := "#93c5fd", "foreground" := "#ffffff"]

  /** The readings of `Date.now()` during one command: one per screen written, one for the live state. */
  datatype Clock = Clock(screens: Trio<int>, live: int)

  /** The whole state, with the control window's last received copy of every screen. */
  datatype View = View(screens: Trio<ScreenState>, mirrors: Trio<Mirror>, live: Live, shown: Trio<ScreenState>)

  datatype Reason = MIRRORED | LOCKED

  datatype Command =
    | SetText(key: Key, text: TextPayload)
    | SetMedia(key: Key, media: MediaPayload)
    | SetMode(key: Key, mode: Mode)
    | SetAppearance(key: Key, patch: Look)
    | SetState(key: Key, state: StatePatch)
    | SetMirror(key: Key, mirror: Mirror)
    | LiveSet(live: LivePatch)
    | LiveToggle
    | LiveNext
    | LivePrev
    | LiveSetCursor(cursor: int)
    | LiveSetTarget(target: Key)
    | LiveToggleBlack
    | LiveToggleWhite
    | LiveResume
    | LiveSetLocked(screen: Key, locked: bool)

  // ---------------------------------------------------------------- the operations on values

  /** Storing a screen state and broadcasting it. */
  function Show(v: View, k: Key, s: ScreenState): View {
    v.(screens := v.screens.Put(k, s), shown := v.shown.Put(k, s))
  }

  function Reflect(v: View, source: Key, k: Key, now: Clock): View {
    if k != source && v.mirrors.Get(k) == MIRROR(source)
    then Show(v, k, v.screens.Get(source).(updatedAt := now.screens.Get(k)))
    else v
  }

  /** `applyMirrorsFrom` */
  function Propagate(v: View, source: Key, now: Clock): View {
    Reflect(Reflect(Reflect(v, source, A, now), source, B, now), source, C, now)
  }

  /** `guardScreen` */
  function Guard(v: View, k: Key): Option<Reason> {
    if v.mirrors.Get(k).MIRROR? then Some(MIRRORED) else if v.live.locked.Get(k) then Some(LOCKED) else None
  }

  function Edited(s: ScreenState, c: Command, at: int): ScreenState {
    match c
    case SetText(_, text) => s.(mode := NORMAL, current := TEXT(text), updatedAt := at)
    case SetMedia(_, media) => s.(mode := NORMAL, current := MEDIA(media), updatedAt := at)
    case SetMode(_, mode) => s.(mode := mode, updatedAt := at)
    case SetAppearance(_, patch) => s.(look := DEFAULT_LOOK + s.look + patch, updatedAt := at)
    case SetState(_, p) =>
      ScreenState(Over(p.mode, s.mode), Over(p.lowerThird, s.lowerThird), Over(p.transition, s.transition),
                  s.look + p.look, Over(p.current, s.current), at)
    case _ => s
  }

  function Over<T>(patch: Option<T>, value: T): T {
    match patch case None => value case Some(x) => x
  }

  predicate IsEdit(c: Command) {
    c.SetText? || c.SetMedia? || c.SetMode? || c.SetAppearance? || c.SetState?
  }

  /** The guarded screen mutations. */
  function Edit(v: View, c: Command, now: Clock): View
    requires IsEdit(c)
  {
    if Guard(v, c.key).Some? then v
    else Propagate(Show(v, c.key, Edited(v.screens.Get(c.key), c, now.screens.Get(c.key))), c.key, now)
  }

  /** `setMirror`: no guard, and the copy is taken from the source as it is. */
  function Remirror(v: View, k: Key, m: Mirror, now: Clock): View {
    var w := v.(mirrors := v.mirrors.Put(k, m));
    if m.MIRROR? then Show(w, k, w.screens.Get(m.from).(updatedAt := now.screens.Get(k))) else w
  }

  function Merged(l: Live, p: LivePatch, at: int): Live {
    var cursor := Over(p.cursor, l.cursor);
    Live(Over(p.enabled, l.enabled), Over(p.planId, l.planId), if cursor < 0 then 0 else cursor, Over(p.target, l.target),
         p.white != Some(true) && Over(p.black, l.black), p.black != Some(true) && Over(p.white, l.white),
         Over(p.locked, l.locked), at)
  }

  function LiveMode(l: Live): Mode {
    if l.black then BLACK else if l.white then WHITE else NORMAL
  }

  /** `applyLiveProjectionMode` */
  function ApplyLive(v: View, now: Clock): View {
    var k := v.live.target;
    if v.live.locked.Get(k) || v.mirrors.Get(k).MIRROR? then v
    else Propagate(Show(v, k, v.screens.Get(k).(mode := LiveMode(v.live), updatedAt := now.screens.Get(k))), k, now)
  }

  /** `mergeLive` */
  function Merge(v: View, p: LivePatch, now: Clock): View {
    ApplyLive(v.(live := Merged(v.live, p, now.live)), now)
  }

  /** The patch each live handler passes on; `live:set` never carries locks. */
  function PatchOf(l: Live, c: Command): LivePatch {
    match c
    case LiveSet(p) => p.(locked := None)
    case LiveToggle => NO_PATCH.(enabled := Some(!l.enabled))
    case LiveNext => NO_PATCH.(cursor := Some(l.cursor + 1), enabled := Some(true))
    case LivePrev => NO_PATCH.(cursor := Some(if l.cursor - 1 > 0 then l.cursor - 1 else 0), enabled := Some(true))
    case LiveSetCursor(cursor) => NO_PATCH.(cursor := Some(cursor), enabled := Some(true))
    case LiveSetTarget(target) => NO_PATCH.(target := Some(target))
    case LiveToggleBlack => NO_PATCH.(black := Some(!l.black), enabled := Some(true))
    case LiveToggleWhite => NO_PATCH.(white := Some(!l.white), enabled := Some(true))
    case LiveResume => NO_PATCH.(black := Some(false), white := Some(false), enabled := Some(true))
    case LiveSetLocked(k, locked) => NO_PATCH.(locked := Some(l.locked.Put(k, locked)))
    case _ => NO_PATCH
  }

  /** One command. */
  function Step(v: View, c: Command, now: Clock): View {
    if IsEdit(c) then Edit(v, c, now)
    else if c.SetMirror? then Remirror(v, c.key, c.mirror, now)
    else Merge(v, PatchOf(v.live, c), now)
  }

  type Log = seq<(Command, Clock)>

  /** The state after the first `n` commands of a run. */
  function After(v: View, run: Log, n: nat): View
    requires n <= |run|
  {
    if n == 0 then v else Step(After(v, run, n - 1), run[n - 1].0, run[n - 1].1)
  }

  // ---------------------------------------------------------------- the object that the handlers update

  class ScreenContext {
    var screens: Trio<ScreenState>
    var mirrors: Trio<Mirror>
    var live: Live
    var shown: Trio<ScreenState>

    constructor (v: View)
      ensures State() == v
    {
      screens, mirrors, live, shown := v.screens, v.mirrors, v.live, v.shown;
    }

    function State(): View
      reads this
    {
      View(screens, mirrors, live, shown)
    }

    method Broadcast(k: Key)
      modifies this`shown
      ensures shown == old(shown).Put(k, screens.Get(k))
    {
      shown := shown.Put(k, screens.Get(k));
    }

    method ApplyMirrorsFrom(source: Key, now: Clock)
      modifies this
      ensures State() == Propagate(old(State()), source, now)
    {
      var keys := [A, B, C];
      ghost var v0 := State();
      for i := 0 to 3
        invariant State() == if i == 0 then v0
                             else if i == 1 then Reflect(v0, source, A, now)
                             else if i == 2 then Reflect(Reflect(v0, source, A, now), source, B, now)
                             else Propagate(v0, source, now)
      {
        var k := keys[i];
        if k != source && mirrors.Get(k) == MIRROR(source) {
          screens := screens.Put(k, screens.Get(source).(updatedAt := now.screens.Get(k)));
          Broadcast(k);
        }
      }
    }

    /** `setContentText`, `setContentMedia`, `setMode`, `setAppearance` and `setStatePatch`. */
    method Change(c: Command, now: Clock) returns (reason: Option<Reason>)
      requires IsEdit(c)
      modifies this
      ensures State() == Edit(old(State()), c, now)
      ensures reason == Guard(old(State()), c.key)
    {
      if mirrors.Get(c.key).MIRROR? { return Some(MIRRORED); }
      if live.locked.Get(c.key) { return Some(LOCKED); }
      screens := screens.Put(c.key, Edited(screens.Get(c.key), c, now.screens.Get(c.key)));
      Broadcast(c.key);
      ApplyMirrorsFrom(c.key, now);
      reason := None;
    }

    method ChangeMirror(k: Key, m: Mirror, now: Clock)
      modifies this
      ensures State() == Remirror(old(State()), k, m, now)
    {
      mirrors := mirrors.Put(k, m);
      if m.MIRROR? {
        screens := screens.Put(k, screens.Get(m.from).(updatedAt := now.screens.Get(k)));
        Broadcast(k);
      }
    }

    method ApplyLiveProjectionMode(now: Clock)
      modifies this
      ensures State() == ApplyLive(old(State()), now)
    {
      var mode := if live.black then BLACK else if live.white then WHITE else NORMAL;
      var k := live.target;
      if live.locked.Get(k) { return; }
      if mirrors.Get(k).MIRROR? { return; }
      screens := screens.Put(k, screens.Get(k).(mode := mode, updatedAt := now.screens.Get(k)));
      Broadcast(k);
      ApplyMirrorsFrom(k, now);
    }

    method MergeLive(p: LivePatch, now: Clock)
      modifies this
      ensures State() == Merge(old(State()), p, now)
    {
      var next := Live(Over(p.enabled, live.enabled), Over(p.planId, live.planId), Over(p.cursor, live.cursor),
                       Over(p.target, live.target), Over(p.black, live.black), Over(p.white, live.white),
                       Over(p.locked, live.locked), now.live);
      if p.black == Some(true) { next := next.(white := false); }
      if p.white == Some(true) { next := next.(black := false); }
      if next.cursor < 0 { next := next.(cursor := 0); }
      live := next;
      ApplyLiveProjectionMode(now);
    }

    /** The handlers of main.ts. */
    method Handle(c: Command, now: Clock) returns (reason: Option<Reason>)
      modifies this
      ensures State() == Step(old(State()), c, now)
      ensures reason == if IsEdit(c) then Guard(old(State()), c.key) else None
    {
      reason := None;
      if IsEdit(c) {
        reason := Change(c, now);
      } else if c.SetMirror? {
        ChangeMirror(c.key, c.mirror, now);
      } else {
        MergeLive(PatchOf(live, c), now);
      }
    }
  }

  // ---------------------------------------------------------------- invariants of every run

  /** `black` and `white` exclude each other, and the control window's copy is up to date. */
  predicate Consistent(v: View) {
    !(v.live.black && v.live.white) && v.live.cursor >= 0 && v.shown == v.screens
  }

  lemma PropagateFacts(v: View, source: Key, now: Clock)
    ensures var w := Propagate(v, source, now);
            && w.mirrors == v.mirrors && w.live == v.live
            && (v.shown == v.screens ==> w.shown == w.screens)
            && (forall k: Key :: w.screens.Get(k) ==
                  if k != source && v.mirrors.Get(k) == MIRROR(source)
                  then v.screens.Get(source).(updatedAt := now.screens.Get(k)) else v.screens.Get(k))
  {
    forall k: Key ensures Propagate(v, source, now).screens.Get(k) ==
                  if k != source && v.mirrors.Get(k) == MIRROR(source)
                  then v.screens.Get(source).(updatedAt := now.screens.Get(k)) else v.screens.Get(k)
    {
      match k case A => case B => case C =>
    }
  }

  lemma StepKeepsConsistent(v: View, c: Command, now: Clock)
    requires Consistent(v)
    ensures Consistent(Step(v, c, now))
  {
    hide Edited, Propagate, DEFAULT_LOOK;
    if IsEdit(c) {
      var w := Show(v, c.key, Edited(v.screens.Get(c.key), c, now.screens.Get(c.key)));
      PropagateFacts(w, c.key, now);
    } else if !c.SetMirror? {
      var l := v.(live := Merged(v.live, PatchOf(v.live, c), now.live));
      var k := l.live.target;
      PropagateFacts(Show(l, k, l.screens.Get(k).(mode := LiveMode(l.live), updatedAt := now.screens.Get(k))), k, now);
    }
  }

  /** In every run, at every moment, black and white are never both on, the cursor is not negative and
      the control window shows what the screens hold. */
  lemma {:induction false} RunStaysConsistent(v: View, run: Log, n: nat)
    requires Consistent(v) && n <= |run|
    ensures Consistent(After(v, run, n))
  {
    hide Consistent, Step;
    if n > 0 {
      RunStaysConsistent(v, run, n - 1);
      StepKeepsConsistent(After(v, run, n - 1), run[n - 1].0, run[n - 1].1);
    }
  }

  // ---------------------------------------------------------------- what each command does, field by field

  predicate IsLive(c: Command) { !IsEdit(c) && !c.SetMirror? }

  /** After a live command the target, if FREE and unlocked, is black exactly when `black` is on, white exactly
      when `white` is, and otherwise shows its content; its mirrors show the same, and nothing else on any screen
      has changed. */
  lemma LiveCommandShows(v: View, c: Command, now: Clock)
    requires Consistent(v) && IsLive(c)
    ensures var w := Step(v, c, now);
      var t := w.live.target;
      var past, next := v.screens.Get(t), w.screens.Get(t);
      && w.mirrors == v.mirrors
      && (if w.mirrors.Get(t) == FREE && !w.live.locked.Get(t) then
            && (next.mode == BLACK <==> w.live.black) && (next.mode == WHITE <==> w.live.white)
            && (next.mode == NORMAL <==> !w.live.black && !w.live.white)
            && next.current == past.current && next.look == past.look && next.lowerThird == past.lowerThird
            && next.transition == past.transition && next.updatedAt == now.screens.Get(t)
            && forall k: Key | k != t ::
                 if w.mirrors.Get(k) == MIRROR(t) then w.screens.Get(k) == next.(updatedAt := now.screens.Get(k))
                 else w.screens.Get(k) == v.screens.Get(k)
          else w.screens == v.screens)
  {
    hide Propagate, DEFAULT_LOOK;
    var l := v.(live := Merged(v.live, PatchOf(v.live, c), now.live));
    var t := l.live.target;
    PropagateFacts(Show(l, t, l.screens.Get(t).(mode := LiveMode(l.live), updatedAt := now.screens.Get(t))), t, now);
  }

  /** What each handler does to the live state; `updatedAt` is the time of the command. */
  lemma LiveCommandFields(v: View, c: Command, now: Clock)
    requires Consistent(v) && IsLive(c)
    ensures var l, m := v.live, Step(v, c, now).live;
      match c
      case LiveSet(p) =>
        && m.updatedAt == now.live && m.locked == l.locked
        && (match p.enabled case None => m.enabled == l.enabled case Some(x) => m.enabled == x)
        && (match p.planId case None => m.planId == l.planId case Some(x) => m.planId == x)
        && (match p.target case None => m.target == l.target case Some(x) => m.target == x)
        && (match p.cursor case None => m.cursor == l.cursor case Some(x) => m.cursor == if x >= 0 then x else 0)
        && (m.black <==> (p.black == Some(true) || (p.black == None && l.black)) && p.white != Some(true))
        && (m.white <==> (p.white == Some(true) || (p.white == None && l.white)) && p.black != Some(true))
      case LiveToggle => m == l.(enabled := !l.enabled, updatedAt := now.live)
      case LiveNext => m == l.(cursor := l.cursor + 1, enabled := true, updatedAt := now.live)
      case LivePrev => m == l.(cursor := if l.cursor == 0 then 0 else l.cursor - 1, enabled := true, updatedAt := now.live)
      case LiveSetCursor(x) => m == l.(cursor := if x >= 0 then x else 0, enabled := true, updatedAt := now.live)
      case LiveSetTarget(t) => m == l.(target := t, updatedAt := now.live)
      case LiveToggleBlack => m == l.(black := !l.black, white := l.white && l.black, enabled := true, updatedAt := now.live)
      case LiveToggleWhite => m == l.(white := !l.white, black := l.black && l.white, enabled := true, updatedAt := now.live)
      case LiveResume => m == l.(black := false, white := false, enabled := true, updatedAt := now.live)
      case LiveSetLocked(k, locked) =>
        && m == l.(locked := m.locked, updatedAt := now.live)
        && forall q: Key :: m.locked.Get(q) == if q == k then locked else l.locked.Get(q)
      case _ => true
  {
    LiveIsMerged(v, c, now);
    hide Step;
    LockOne(v.live.locked, c);
  }

  lemma LiveIsMerged(v: View, c: Command, now: Clock)
    requires IsLive(c)
    ensures Step(v, c, now).live == Merged(v.live, PatchOf(v.live, c), now.live)
  {
    hide Propagate, DEFAULT_LOOK, Merged, PatchOf;
    var l := v.(live := Merged(v.live, PatchOf(v.live, c), now.live));
    var t := l.live.target;
    PropagateFacts(Show(l, t, l.screens.Get(t).(mode := LiveMode(l.live), updatedAt := now.screens.Get(t))), t, now);
  }

  lemma LockOne(locked: Trio<bool>, c: Command)
    ensures c.LiveSetLocked? ==>
      forall q: Key :: locked.Put(c.screen, c.locked).Get(q) == if q == c.screen then c.locked else locked.Get(q)
  {}

  /** What a name of the appearance reads after a patch: the patched value, else the present one, else the
      default. */
  predicate Repainted(before: Look, patch: Look, after: Look, name: string) {
    if name in patch then name in after && after[name] == patch[name]
    else if name in before then name in after && after[name] == before[name]
    else if name in DEFAULT_LOOK then name in after && after[name] == DEFAULT_LOOK[name]
    else name !in after
  }

  /** The field-by-field effect of an edit on the screen it names. */
  ghost predicate EditedTo(c: Command, past: ScreenState, next: ScreenState) {
    match c
    case SetText(_, text) =>
      next.mode == NORMAL && next.current == TEXT(text) && next.look == past.look && next.lowerThird == past.lowerThird && next.transition == past.transition
    case SetMedia(_, media) =>
      next.mode == NORMAL && next.current == MEDIA(media) && next.look == past.look && next.lowerThird == past.lowerThird && next.transition == past.transition
    case SetMode(_, mode) =>
      next.mode == mode && next.current == past.current && next.look == past.look && next.lowerThird == past.lowerThird && next.transition == past.transition
    case SetAppearance(_, patch) =>
      next.mode == past.mode && next.current == past.current && next.lowerThird == past.lowerThird && next.transition == past.transition
    case SetState(_, p) =>
      && (if p.mode.Some? then next.mode == p.mode.value else next.mode == past.mode)
      && (if p.lowerThird.Some? then next.lowerThird == p.lowerThird.value else next.lowerThird == past.lowerThird)
      && (if p.transition.Some? then next.transition == p.transition.value else next.transition == past.transition)
      && (if p.current.Some? then next.current == p.current.value else next.current == past.current)
      && (forall name :: name in next.look <==> name in past.look || name in p.look)
      && (forall name | name in next.look :: next.look[name] == if name in p.look then p.look[name] else past.look[name])
    case _ => true
  }

  /** An edit is refused exactly on a mirror, first, or on a locked screen, and then changes nothing; otherwise it
      does what it says to its screen and to the direct mirrors, and leaves the third alone. */
  lemma EditDoes(v: View, c: Command, now: Clock)
    requires IsEdit(c)
    ensures var w, k := Step(v, c, now), c.key;
      && (Guard(v, k) == Some(MIRRORED) <==> v.mirrors.Get(k) != FREE)
      && (Guard(v, k) == Some(LOCKED) <==> v.mirrors.Get(k) == FREE && v.live.locked.Get(k))
      && (if v.mirrors.Get(k) != FREE || v.live.locked.Get(k) then w == v
          else
            && w.mirrors == v.mirrors && w.live == v.live
            && EditedTo(c, v.screens.Get(k), w.screens.Get(k)) && w.screens.Get(k).updatedAt == now.screens.Get(k)
            && forall q: Key | q != k ::
                 if v.mirrors.Get(q) == MIRROR(k) then w.screens.Get(q) == w.screens.Get(k).(updatedAt := now.screens.Get(q))
                 else w.screens.Get(q) == v.screens.Get(q))
  {
    hide Propagate, DEFAULT_LOOK;
    PropagateFacts(Show(v, c.key, Edited(v.screens.Get(c.key), c, now.screens.Get(c.key))), c.key, now);
  }

  lemma AppearanceIsRepainted(v: View, k: Key, patch: Look, now: Clock)
    requires v.mirrors.Get(k) == FREE && !v.live.locked.Get(k)
    ensures var look := Step(v, SetAppearance(k, patch), now).screens.Get(k).look;
      forall name: string :: Repainted(v.screens.Get(k).look, patch, look, name)
  {
    hide Propagate;
    var c := SetAppearance(k, patch);
    PropagateFacts(Show(v, k, Edited(v.screens.Get(k), c, now.screens.Get(k))), k, now);
    hide DEFAULT_LOOK;
  }

  /** Setting a mirror takes over the source's picture at once; freeing a screen changes no picture. */
  lemma MirrorDoes(v: View, k: Key, m: Mirror, now: Clock)
    ensures var w := Step(v, SetMirror(k, m), now);
      && w.live == v.live
      && (forall q: Key :: w.mirrors.Get(q) == if q == k then m else v.mirrors.Get(q))
      && (forall q: Key | q != k || m == FREE :: w.screens.Get(q) == v.screens.Get(q))
      && (m.MIRROR? ==> w.screens.Get(k) == v.screens.Get(m.from).(updatedAt := now.screens.Get(k)))
  {}

  // ---------------------------------------------------------------- mirrors follow their source

  /** Equal up to `updatedAt`. */
  predicate SamePicture(s: ScreenState, t: ScreenState) {
    s == t.(updatedAt := s.updatedAt)
  }

  predicate Follows(v: View, k: Key, s: Key) {
    SamePicture(v.screens.Get(k), v.screens.Get(s))
  }

  lemma StepKeepsFollowing(v: View, c: Command, now: Clock, k: Key, s: Key)
    requires k != s && v.mirrors.Get(k) == MIRROR(s) && v.mirrors.Get(s) == FREE && Follows(v, k, s)
    requires !(c.SetMirror? && c.key == k)
    requires Step(v, c, now).mirrors.Get(s) == FREE
    ensures Follows(Step(v, c, now), k, s) && Step(v, c, now).mirrors.Get(k) == MIRROR(s)
  {
    hide Edited, Propagate, DEFAULT_LOOK;
    if IsEdit(c) {
      PropagateFacts(Show(v, c.key, Edited(v.screens.Get(c.key), c, now.screens.Get(c.key))), c.key, now);
    } else if !c.SetMirror? {
      var l := v.(live := Merged(v.live, PatchOf(v.live, c), now.live));
      var t := l.live.target;
      PropagateFacts(Show(l, t, l.screens.Get(t).(mode := LiveMode(l.live), updatedAt := now.screens.Get(t))), t, now);
    }
  }

  /** Where the mirror of `k` on `s` was last set: at step `i` of the run, or before it began. */
  predicate MirrorSetAt(v: View, run: Log, i: nat, k: Key, s: Key)
    requires i <= |run|
  {
    if i == 0 then v.mirrors.Get(k) == MIRROR(s) && Follows(v, k, s)
    else run[i - 1].0 == SetMirror(k, MIRROR(s))
  }

  /** In every run, a screen that mirrors another one which has been FREE ever since the mirror was last
      set shows what its source shows. */
  lemma {:induction false} MirrorsFollowFreeSources(v: View, run: Log, i: nat, n: nat, k: Key, s: Key)
    requires k != s && i <= n <= |run| && MirrorSetAt(v, run, i, k, s)
    requires forall j | i <= j < n :: !(run[j].0.SetMirror? && run[j].0.key == k)
    requires forall j | i <= j <= n :: After(v, run, j).mirrors.Get(s) == FREE
    ensures After(v, run, n).mirrors.Get(k) == MIRROR(s) && Follows(After(v, run, n), k, s)
    decreases n
  {
    hide Edit, Merge, SamePicture;
    if i == n {
      if i > 0 { FreshMirrorFollows(After(v, run, i - 1), run[i - 1].1, k, s); }
    } else {
      MirrorsFollowFreeSources(v, run, i, n - 1, k, s);
      assert After(v, run, n).mirrors.Get(s) == FREE;
      StepKeepsFollowing(After(v, run, n - 1), run[n - 1].0, run[n - 1].1, k, s);
    }
  }

  lemma FreshMirrorFollows(v: View, now: Clock, k: Key, s: Key)
    requires k != s
    ensures var w := Step(v, SetMirror(k, MIRROR(s)), now); w.mirrors.Get(k) == MIRROR(s) && Follows(w, k, s)
  {
  }

  function Blank(at: int): ScreenState { ScreenState(NORMAL, false, false, DEFAULT_LOOK, EMPTY, at) }

  /** The state at start-up: three default screens, B and C mirroring A. The control window reads the screens
      when it opens. */
  function Initial(times: Clock): View {
    var screens := Trio(Blank(times.screens.a), Blank(times.screens.b), Blank(times.screens.c));
    View(screens, Trio(FREE, MIRROR(A), MIRROR(A)),
         Live(false, Option<string>.None, 0, A, false, false, Trio(false, false, false), times.live), screens)
  }

  /** From start-up on, B and C show what A shows as long as nobody gives them or A another mirror. */
  lemma StartUpMirrorsFollow(times: Clock, run: Log, n: nat, k: Key)
    requires k != A && n <= |run|
    requires forall j | 0 <= j < n :: !(run[j].0.SetMirror? && (run[j].0.key == k || run[j].0.key == A))
    ensures Consistent(After(Initial(times), run, n))
    ensures Follows(After(Initial(times), run, n), k, A)
  {
    var v := Initial(times);
    forall j | 0 <= j <= n ensures After(v, run, j).mirrors.Get(A) == FREE { SourceStaysFree(v, run, j, A); }
    RunStaysConsistent(v, run, n);
    MirrorsFollowFreeSources(v, run, 0, n, k, A);
  }

  lemma {:induction false} SourceStaysFree(v: View, run: Log, n: nat, s: Key)
    requires n <= |run| && v.mirrors.Get(s) == FREE
    requires forall j | 0 <= j < n :: !(run[j].0.SetMirror? && run[j].0.key == s)
    ensures After(v, run, n).mirrors.Get(s) == FREE
  {
    hide Step;
    if n > 0 {
      SourceStaysFree(v, run, n - 1, s);
      StepKeepsMirror(After(v, run, n - 1), run[n - 1].0, run[n - 1].1, s);
    }
  }

  lemma StepKeepsMirror(v: View, c: Command, now: Clock, s: Key)
    requires !(c.SetMirror? && c.key == s)
    ensures Step(v, c, now).mirrors.Get(s) == v.mirrors.Get(s)
  {
    hide Edited, Propagate, DEFAULT_LOOK;
    if IsEdit(c) {
      PropagateFacts(Show(v, c.key, Edited(v.screens.Get(c.key), c, now.screens.Get(c.key))), c.key, now);
    } else if !c.SetMirror? {
      var l := v.(live := Merged(v.live, PatchOf(v.live, c), now.live));
      var t := l.live.target;
      PropagateFacts(Show(l, t, l.screens.Get(t).(mode := LiveMode(l.live), updatedAt := now.screens.Get(t))), t, now);
    }
  }

  /** The source must be FREE: propagation is one hop, so a screen that mirrors a mirror goes stale. */
  lemma MirrorOfMirrorGoesStale(v: View, now: Clock, text: TextPayload)
    requires v.mirrors == Trio(FREE, MIRROR(A), MIRROR(B)) && !v.live.locked.Get(A)
    requires v.screens.Get(C).current != TEXT(text)
    ensures var w := Step(v, SetText(A, text), now);
            w.mirrors == v.mirrors && Follows(w, B, A) && !Follows(w, C, B)
  {
  }

  // ---------------------------------------------------------------- locked screens stand still

  /** The commands that may move a locked FREE screen: unlocking it or giving it a mirror. */
  predicate Releases(c: Command, k: Key) {
    c == LiveSetLocked(k, false) || (c.SetMirror? && c.key == k && c.mirror.MIRROR?)
  }

  predicate FreeAndLocked(v: View, k: Key) {
    v.mirrors.Get(k) == FREE && v.live.locked.Get(k)
  }

  lemma StepKeepsLocked(v: View, c: Command, now: Clock, k: Key)
    requires FreeAndLocked(v, k) && !Releases(c, k)
    ensures FreeAndLocked(Step(v, c, now), k) && Step(v, c, now).screens.Get(k) == v.screens.Get(k)
  {
    hide Edited, Propagate, DEFAULT_LOOK;
    if IsEdit(c) {
      PropagateFacts(Show(v, c.key, Edited(v.screens.Get(c.key), c, now.screens.Get(c.key))), c.key, now);
    } else if !c.SetMirror? {
      var l := v.(live := Merged(v.live, PatchOf(v.live, c), now.live));
      var t := l.live.target;
      PropagateFacts(Show(l, t, l.screens.Get(t).(mode := LiveMode(l.live), updatedAt := now.screens.Get(t))), t, now);
    }
  }

  /** In every run, a FREE screen keeps its whole state, `updatedAt` included, from the moment it is
      locked until it is unlocked or given a mirror. */
  lemma {:induction false} LockedScreensStandStill(v: View, run: Log, i: nat, n: nat, k: Key)
    requires i <= n <= |run| && FreeAndLocked(After(v, run, i), k)
    requires forall j | i <= j < n :: !Releases(run[j].0, k)
    ensures After(v, run, n).screens.Get(k) == After(v, run, i).screens.Get(k)
    ensures FreeAndLocked(After(v, run, n), k)
    decreases n
  {
    hide Step, FreeAndLocked, Releases;
    if i < n {
      LockedScreensStandStill(v, run, i, n - 1, k);
      StepKeepsLocked(After(v, run, n - 1), run[n - 1].0, run[n - 1].1, k);
    }
  }

  /** The locking command itself does not move a FREE screen either. */
  lemma LockingDoesNotMove(v: View, now: Clock, k: Key)
    requires v.mirrors.Get(k) == FREE
    ensures var w := Step(v, LiveSetLocked(k, true), now); FreeAndLocked(w, k) && w.screens.Get(k) == v.screens.Get(k)
  {
    hide Propagate;
    var l := v.(live := Merged(v.live, PatchOf(v.live, LiveSetLocked(k, true)), now.live));
    var t := l.live.target;
    PropagateFacts(Show(l, t, l.screens.Get(t).(mode := LiveMode(l.live), updatedAt := now.screens.Get(t))), t, now);
  }

  /** A locked screen that is a mirror is still overwritten: the lock alone is not enough. */
  lemma LockedMirrorStillMoves(v: View, now: Clock, text: TextPayload)
    requires v.mirrors.Get(A) == FREE && !v.live.locked.Get(A)
    requires v.mirrors.Get(B) == MIRROR(A) && v.live.locked.Get(B) && v.screens.Get(B).current != TEXT(text)
    ensures Step(v, SetText(A, text), now).screens.Get(B) != v.screens.Get(B)
  {
  }

  // ---------------------------------------------------------------- exactly when the two promises hold

  /** Whatever is done short of releasing it, screen `k` keeps its state. */
  ghost predicate StandsStill(v: View, k: Key) {
    forall run: Log | forall i | 0 <= i < |run| :: !Releases(run[i].0, k) ::
      After(v, run, |run|).screens.Get(k) == v.screens.Get(k)
  }

  /** Whatever is done short of giving `k` or `s` another mirror, `k` shows what `s` shows. */
  ghost predicate KeepsFollowing(v: View, k: Key, s: Key) {
    forall run: Log | forall i | 0 <= i < |run| :: !Remirrors(run[i].0, k, s) ::
      Follows(After(v, run, |run|), k, s)
  }

  predicate Remirrors(c: Command, k: Key, s: Key) {
    c.SetMirror? && (c.key == k || c.key == s)
  }

  /** Commands that neither edit `k` nor reach it through the screen it mirrors leave it alone. */
  lemma StepLeavesAlone(v: View, c: Command, now: Clock, k: Key)
    requires !(c.SetMirror? && c.key == k)
    requires v.mirrors.Get(k).MIRROR? || (v.live.locked.Get(k) && c != LiveSetLocked(k, false))
    requires v.mirrors.Get(k).MIRROR? ==> v.mirrors.Get(k).from == k || v.mirrors.Get(v.mirrors.Get(k).from).MIRROR?
    ensures Step(v, c, now).screens.Get(k) == v.screens.Get(k)
  {
    hide Edited, Propagate, DEFAULT_LOOK;
    if IsEdit(c) {
      PropagateFacts(Show(v, c.key, Edited(v.screens.Get(c.key), c, now.screens.Get(c.key))), c.key, now);
    } else if !c.SetMirror? {
      var l := v.(live := Merged(v.live, PatchOf(v.live, c), now.live));
      var t := l.live.target;
      PropagateFacts(Show(l, t, l.screens.Get(t).(mode := LiveMode(l.live), updatedAt := now.screens.Get(t))), t, now);
    }
  }

  // -------- locks

  predicate OnItsOwn(v: View, k: Key) {
    v.mirrors.Get(k) == FREE || v.mirrors.Get(k) == MIRROR(k)
  }

  lemma StepKeepsOwn(v: View, c: Command, now: Clock, k: Key)
    requires v.live.locked.Get(k) && OnItsOwn(v, k) && !Releases(c, k)
    ensures Step(v, c, now).live.locked.Get(k) && OnItsOwn(Step(v, c, now), k)
    ensures Step(v, c, now).screens.Get(k) == v.screens.Get(k)
  {
    if c.SetMirror? && c.key == k { return; }
    StepKeepsMirror(v, c, now, k);
    StepLeavesAlone(v, c, now, k);
    StepKeepsLock(v, c, now, k);
  }

  lemma StepKeepsLock(v: View, c: Command, now: Clock, k: Key)
    requires v.live.locked.Get(k) && c != LiveSetLocked(k, false)
    ensures Step(v, c, now).live.locked.Get(k)
  {
    hide Edited, Propagate, DEFAULT_LOOK;
    if IsEdit(c) {
      PropagateFacts(Show(v, c.key, Edited(v.screens.Get(c.key), c, now.screens.Get(c.key))), c.key, now);
    } else if !c.SetMirror? {
      var l := v.(live := Merged(v.live, PatchOf(v.live, c), now.live));
      var t := l.live.target;
      PropagateFacts(Show(l, t, l.screens.Get(t).(mode := LiveMode(l.live), updatedAt := now.screens.Get(t))), t, now);
    }
  }

  lemma {:induction false} OwnStandsStill(v: View, run: Log, n: nat, k: Key)
    requires v.live.locked.Get(k) && OnItsOwn(v, k) && n <= |run|
    requires forall i | 0 <= i < n :: !Releases(run[i].0, k)
    ensures After(v, run, n).live.locked.Get(k) && OnItsOwn(After(v, run, n), k)
    ensures After(v, run, n).screens.Get(k) == v.screens.Get(k)
  {
    hide Step, OnItsOwn, Releases;
    if n > 0 {
      OwnStandsStill(v, run, n - 1, k);
      StepKeepsOwn(After(v, run, n - 1), run[n - 1].0, run[n - 1].1, k);
    }
  }

  /** A text that the screen is not showing. */
  function OtherText(s: ScreenState): (u: TextPayload)
    ensures s.current != TEXT(u)
  {
    var body := if s.current.TEXT? then s.current.text.body + "x" else "";
    assert s.current.TEXT? ==> |body| != |s.current.text.body|;
    TextPayload(None, body, None, [], None)
  }

  /** Frees the outer source `t`, unlocks it and gives it a text. */
  function TakeOver(t: Key, u: TextPayload, now: Clock): Log {
    [(SetMirror(t, FREE), now), (LiveSetLocked(t, false), now), (SetText(t, u), now)]
  }

  lemma AfterThree(v: View, run: Log)
    requires |run| == 3
    ensures After(v, run, |run|)
         == Step(Step(Step(v, run[0].0, run[0].1), run[1].0, run[1].1), run[2].0, run[2].1)
  {
    hide Step;
    assert After(v, run, 1) == Step(After(v, run, 0), run[0].0, run[0].1);
    assert After(v, run, 2) == Step(After(v, run, 1), run[1].0, run[1].1);
    assert After(v, run, 3) == Step(After(v, run, 2), run[2].0, run[2].1);
  }

  lemma TakeOverSteps(v: View, t: Key, u: TextPayload, now: Clock)
    ensures |TakeOver(t, u, now)| == 3
    ensures var v1 := Step(v, SetMirror(t, FREE), now);
            After(v, TakeOver(t, u, now), |TakeOver(t, u, now)|)
            == Step(Step(v1, LiveSetLocked(t, false), now), SetText(t, u), now)
  {
    hide Step, After;
    AfterThree(v, TakeOver(t, u, now));
  }

  /** What the first two commands leave: `t` is FREE and unlocked, every other mirror is as it was. */
  lemma Opened(v: View, t: Key, now: Clock)
    ensures var w := Step(Step(v, SetMirror(t, FREE), now), LiveSetLocked(t, false), now);
      && w.mirrors.Get(t) == FREE && !w.live.locked.Get(t)
      && forall q: Key | q != t :: w.mirrors.Get(q) == v.mirrors.Get(q)
  {
    var v1 := Step(v, SetMirror(t, FREE), now);
    hide Step;
    StepUnlocks(v1, now, t);
    forall q: Key ensures Step(v1, LiveSetLocked(t, false), now).mirrors.Get(q) == v1.mirrors.Get(q) {
      StepKeepsMirror(v1, LiveSetLocked(t, false), now, q);
    }
    FreedMirrors(v, t, now);
  }

  lemma FreedMirrors(v: View, t: Key, now: Clock)
    ensures var w := Step(v, SetMirror(t, FREE), now);
      w.screens == v.screens && forall q: Key :: w.mirrors.Get(q) == if q == t then FREE else v.mirrors.Get(q)
  {}

  /** The text reaches the screens that mirror `t`. */
  lemma TakeOverReaches(v: View, t: Key, u: TextPayload, now: Clock, k: Key)
    requires k != t && v.mirrors.Get(k) == MIRROR(t)
    ensures After(v, TakeOver(t, u, now), |TakeOver(t, u, now)|).screens.Get(k).current == TEXT(u)
  {
    hide Step;
    TakeOverSteps(v, t, u, now);
    Opened(v, t, now);
    TextReaches(Step(Step(v, SetMirror(t, FREE), now), LiveSetLocked(t, false), now), t, u, now, k);
  }

  /** The text does not reach the screens that mirror those. */
  lemma TakeOverMisses(v: View, t: Key, u: TextPayload, now: Clock, k: Key, s: Key)
    requires k != t && s != t && k != s && v.mirrors.Get(k) == MIRROR(s) && v.mirrors.Get(s).MIRROR?
    ensures After(v, TakeOver(t, u, now), |TakeOver(t, u, now)|).screens.Get(k) == v.screens.Get(k)
  {
    hide Step;
    TakeOverSteps(v, t, u, now);
    Opened(v, t, now);
    FreedMirrors(v, t, now);
    var v1 := Step(v, SetMirror(t, FREE), now);
    StepLeavesAlone(v1, LiveSetLocked(t, false), now, k);
    StepLeavesAlone(Step(v1, LiveSetLocked(t, false), now), SetText(t, u), now, k);
  }

  lemma StepUnlocks(v: View, now: Clock, t: Key)
    ensures !Step(v, LiveSetLocked(t, false), now).live.locked.Get(t)
  {
    hide Propagate;
    var l := v.(live := Merged(v.live, PatchOf(v.live, LiveSetLocked(t, false)), now.live));
    var q := l.live.target;
    PropagateFacts(Show(l, q, l.screens.Get(q).(mode := LiveMode(l.live), updatedAt := now.screens.Get(q))), q, now);
  }

  lemma TextReaches(v: View, t: Key, u: TextPayload, now: Clock, k: Key)
    requires v.mirrors.Get(t) == FREE && !v.live.locked.Get(t) && k != t && v.mirrors.Get(k) == MIRROR(t)
    ensures Step(v, SetText(t, u), now).screens.Get(k).current == TEXT(u)
  {
    hide Propagate;
    PropagateFacts(Show(v, t, Edited(v.screens.Get(t), SetText(t, u), now.screens.Get(t))), t, now);
  }

  /** A lock holds a screen still exactly when the screen mirrors no other one. */
  lemma LockHoldsExactlyWithoutMirror(v: View, k: Key)
    requires v.live.locked.Get(k)
    ensures StandsStill(v, k) <==> v.mirrors.Get(k) == FREE || v.mirrors.Get(k) == MIRROR(k)
  {
    if OnItsOwn(v, k) {
      forall run: Log | forall i | 0 <= i < |run| :: !Releases(run[i].0, k)
        ensures After(v, run, |run|).screens.Get(k) == v.screens.Get(k)
      {
        OwnStandsStill(v, run, |run|, k);
      }
    } else {
      MirrorsDoNotStandStill(v, k);
    }
  }

  lemma MirrorsDoNotStandStill(v: View, k: Key)
    requires v.mirrors.Get(k).MIRROR? && v.mirrors.Get(k).from != k
    ensures !StandsStill(v, k)
  {
    hide After, Step, TakeOver;
    var t, u, now := v.mirrors.Get(k).from, OtherText(v.screens.Get(k)), Clock(Trio(0, 0, 0), 0);
    var run := TakeOver(t, u, now);
    TakeOverReaches(v, t, u, now, k);
    TakeOverReleasesNothing(t, u, now, k);
  }

  lemma TakeOverReleasesNothing(t: Key, u: TextPayload, now: Clock, k: Key)
    requires k != t
    ensures forall i | 0 <= i < |TakeOver(t, u, now)| :: !Releases(TakeOver(t, u, now)[i].0, k)
  {}

  // -------- mirrors

  lemma {:induction false} MirrorsKeepFollowing(v: View, run: Log, n: nat, k: Key, s: Key)
    requires k != s && v.mirrors.Get(k) == MIRROR(s) && Follows(v, k, s) && n <= |run|
    requires v.mirrors.Get(s) == FREE || v.mirrors.Get(s) == MIRROR(s) || v.mirrors.Get(s) == MIRROR(k)
    requires forall i | 0 <= i < n :: !Remirrors(run[i].0, k, s)
    ensures var w := After(v, run, n);
      w.mirrors.Get(k) == MIRROR(s) && w.mirrors.Get(s) == v.mirrors.Get(s) && Follows(w, k, s)
  {
    hide Step, Follows;
    if n > 0 {
      MirrorsKeepFollowing(v, run, n - 1, k, s);
      var w, c, now := After(v, run, n - 1), run[n - 1].0, run[n - 1].1;
      assert !Remirrors(c, k, s);
      StepKeepsMirror(w, c, now, k);
      StepKeepsMirror(w, c, now, s);
      if w.mirrors.Get(s) == FREE {
        StepKeepsFollowing(w, c, now, k, s);
      } else {
        StepLeavesAlone(w, c, now, k);
        StepLeavesAlone(w, c, now, s);
        SameScreensFollow(w, Step(w, c, now), k, s);
      }
    }
  }

  lemma SameScreensFollow(v: View, w: View, k: Key, s: Key)
    requires Follows(v, k, s) && w.screens.Get(k) == v.screens.Get(k) && w.screens.Get(s) == v.screens.Get(s)
    ensures Follows(w, k, s)
  {}

  /** A mirror is sure to keep showing what its source shows exactly when the source mirrors no third screen. */
  lemma MirrorKeepsFollowingExactlyWithoutChain(v: View, k: Key, s: Key)
    requires k != s && v.mirrors.Get(k) == MIRROR(s) && Follows(v, k, s)
    ensures KeepsFollowing(v, k, s) <==>
            v.mirrors.Get(s) == FREE || v.mirrors.Get(s) == MIRROR(s) || v.mirrors.Get(s) == MIRROR(k)
  {
    var m := v.mirrors.Get(s);
    if m == FREE || m == MIRROR(s) || m == MIRROR(k) {
      forall run: Log | forall i | 0 <= i < |run| :: !Remirrors(run[i].0, k, s)
        ensures Follows(After(v, run, |run|), k, s)
      {
        MirrorsKeepFollowing(v, run, |run|, k, s);
      }
    } else {
      var t, u, now := m.from, OtherText(v.screens.Get(k)), Clock(Trio(0, 0, 0), 0);
      var run := TakeOver(t, u, now);
      TakeOverReaches(v, t, u, now, s);
      TakeOverMisses(v, t, u, now, k, s);
      hide After, Step;
      assert |run| == 3 && forall i | 0 <= i < |run| :: !Remirrors(run[i].0, k, s);
      assert !Follows(After(v, run, |run|), k, s);
    }
  }
}
