/** Sending content from the control window to a screen (routing.ts and target.ts). */
module Projection {
  import opened Options
  import opened Screens

  /** `shouldSkipProjection`, on the caller's own copy of the locks. */
  predicate ShouldSkip(target: Key, locked: Trio<bool>) {
    locked.Get(target)
  }

  /** `resolveProjectionDestination`; `None` when the screens API is missing and nothing was listed. */
  function Destination(target: Key, listed: Option<Trio<Mirror>>): Key {
    match listed
    case None => target
    case Some(mirrors) => if target != A && mirrors.Get(target).MIRROR? then mirrors.Get(target).from else target
  }

  /** The command that carries the content. */
  function Send(k: Key, content: Content): Command
    requires !content.EMPTY?
  {
    if content.TEXT? then SetText(k, content.text) else SetMedia(k, content.media)
  }

  /** What other callers do between the awaited calls: between lookup and send, between send and second
      lookup, between second lookup and second send. */
  datatype Meanwhile = Meanwhile(beforeSend: Log, beforeRetry: Log, beforeResend: Log)

  function RunAll(v: View, run: Log): View {
    After(v, run, |run|)
  }

  /** `projectTextToScreen` and `projectMediaToScreen`, on values. */
  function Project(v: View, target: Key, content: Content, api: bool, m: Meanwhile, first: Clock, second: Clock): View
    requires !content.EMPTY?
  {
    var destination := Destination(target, if api then Some(v.mirrors) else None);
    var v1 := RunAll(v, m.beforeSend);
    if destination == A || !api then Step(v1, Send(A, content), first)
    else
      var sent := Step(v1, Send(destination, content), first);
      if Guard(v1, destination) == Some(MIRRORED) then
        var v2 := RunAll(sent, m.beforeRetry);
        var fallback := Destination(target, Some(v2.mirrors));
        Step(RunAll(v2, m.beforeResend), Send(fallback, content), second)
      else sent
  }

  method Others(ctx: ScreenContext, run: Log)
    modifies ctx
    ensures ctx.State() == RunAll(old(ctx.State()), run)
  {
    ghost var v := ctx.State();
    for i := 0 to |run|
      invariant ctx.State() == After(v, run, i)
    {
      hide Step;
      var reason := ctx.Handle(run[i].0, run[i].1);
    }
  }

  /** The projection calls, with the other callers' commands running at each await. */
  method ProjectToScreen(
    ctx: ScreenContext, target: Key, content: Content, locked: Trio<bool>, api: bool, m: Meanwhile, first: Clock, second: Clock)
    requires !content.EMPTY?
    modifies ctx
    ensures ctx.State() == if locked.Get(target) then old(ctx.State())
                           else Project(old(ctx.State()), target, content, api, m, first, second)
  {
    hide Step, After;
    if ShouldSkip(target, locked) { return; }
    var destination := Destination(target, if api then Some(ctx.mirrors) else None);
    Others(ctx, m.beforeSend);
    if destination == A || !api {
      var ignored := ctx.Handle(Send(A, content), first);
      return;
    }
    var reason := ctx.Handle(Send(destination, content), first);
    if reason == Some(MIRRORED) {
      Others(ctx, m.beforeRetry);
      var fallback := Destination(target, Some(ctx.mirrors));
      Others(ctx, m.beforeResend);
      reason := ctx.Handle(Send(fallback, content), second);
    }
  }

  // ---------------------------------------------------------------- delivery

  /** Screen `k` shows the content in NORMAL mode. */
  predicate Shows(v: View, k: Key, content: Content) {
    v.screens.Get(k).mode == NORMAL && v.screens.Get(k).current == content
  }

  /** Sending to a FREE unlocked screen changes that screen and its direct mirrors, and no other picture. */
  lemma SendReaches(v: View, d: Key, content: Content, now: Clock, k: Key)
    requires !content.EMPTY? && Guard(v, d) == None
    ensures k == d || v.mirrors.Get(k) == MIRROR(d) ==> Shows(Step(v, Send(d, content), now), k, content)
    ensures k != d && v.mirrors.Get(k) != MIRROR(d) ==> Step(v, Send(d, content), now).screens.Get(k) == v.screens.Get(k)
  {
    hide Propagate;
    var c := Send(d, content);
    PropagateFacts(Show(v, d, Edited(v.screens.Get(d), c, now.screens.Get(d))), d, now);
  }

  lemma RunNothing(v: View)
    ensures RunAll(v, []) == v
  {
  }

  /** The current destination of `target` can take content. */
  predicate Open(v: View, target: Key) {
    Guard(v, Destination(target, Some(v.mirrors))) == None
  }

  /** The content still finds its way: the destination looked up is still the right one, or it has become
      a mirror, which makes the sender look again. */
  predicate FindsItsWay(lookup: View, send: View, target: Key) {
    var d := Destination(target, Some(lookup.mirrors));
    d == Destination(target, Some(send.mirrors)) || (d != A && send.mirrors.Get(d).MIRROR?)
  }

  /** Whatever happens between lookup and send, if the destination of `target` at the time of sending is
      FREE and unlocked and nothing intervenes after the send, then `target` ends up showing the content
      exactly when the looked-up destination is still right or has become a mirror; in every other case
      the projection leaves `target` as it was. */
  lemma ProjectionDelivers(v: View, target: Key, content: Content, meantime: Log, first: Clock, second: Clock)
    requires !content.EMPTY? && Open(RunAll(v, meantime), target)
    ensures var sent := RunAll(v, meantime);
            var end := Project(v, target, content, true, Meanwhile(meantime, [], []), first, second);
            if FindsItsWay(v, sent, target) then Shows(end, target, content)
            else end.screens.Get(target) == sent.screens.Get(target)
  {
    hide Step, RunAll;
    var sent := RunAll(v, meantime);
    var d0, d1 := Destination(target, Some(v.mirrors)), Destination(target, Some(sent.mirrors));
    if Guard(sent, d0).Some? {
      RejectedSend(sent, d0, content, first);
      RunNothing(sent);
      SendReaches(sent, d1, content, second, target);
    } else {
      SendReaches(sent, d0, content, first, target);
    }
  }

  lemma RejectedSend(v: View, d: Key, content: Content, now: Clock)
    requires !content.EMPTY? && Guard(v, d).Some?
    ensures Step(v, Send(d, content), now) == v
  {
  }

  /** With no interference at all, content sent to any screen whose destination is FREE and unlocked is
      shown. */
  lemma UndisturbedProjectionDelivers(v: View, target: Key, content: Content, first: Clock, second: Clock)
    requires !content.EMPTY? && Open(v, target)
    ensures Shows(Project(v, target, content, true, Meanwhile([], [], []), first, second), target, content)
  {
    RunNothing(v);
    ProjectionDelivers(v, target, content, [], first, second);
  }

  /** The race the retry is for: `target` is FREE at lookup and becomes a mirror of an unlocked FREE
      screen before the send. */
  lemma RetryCoversNewMirror(v: View, target: Key, s: Key, content: Content, now: Clock, first: Clock, second: Clock)
    requires !content.EMPTY? && target != A && s != target && v.mirrors.Get(target) == FREE
    requires v.mirrors.Get(s) == FREE && !v.live.locked.Get(s)
    ensures var race := [(SetMirror(target, MIRROR(s)), now)];
            Shows(Project(v, target, content, true, Meanwhile(race, [], []), first, second), target, content)
  {
    var race := [(SetMirror(target, MIRROR(s)), now)];
    assert RunAll(v, race) == Step(After(v, race, 0), race[0].0, race[0].1) == Remirror(v, target, MIRROR(s), now);
    hide Project, RunAll, Step, Show;
    ProjectionDelivers(v, target, content, race, first, second);
  }

  /** A FREE unlocked screen gets the content itself; a mirror, B or C, gets it through its source. */
  lemma TargetIsReached(v: View, target: Key, content: Content, first: Clock, second: Clock)
    requires !content.EMPTY?
    requires v.mirrors.Get(target) == FREE ==> !v.live.locked.Get(target)
    requires v.mirrors.Get(target).MIRROR? ==>
               var s := v.mirrors.Get(target).from; target != A && v.mirrors.Get(s) == FREE && !v.live.locked.Get(s)
    ensures Shows(Project(v, target, content, true, Meanwhile([], [], []), first, second), target, content)
  {
    hide Project, Shows;
    UndisturbedProjectionDelivers(v, target, content, first, second);
  }

  /** Without the screens API everything goes to screen A. */
  lemma OnlyAWithoutApi(v: View, target: Key, content: Content, first: Clock, second: Clock)
    requires !content.EMPTY? && v.mirrors.Get(A) == FREE && !v.live.locked.Get(A)
    ensures Shows(Project(v, target, content, false, Meanwhile([], [], []), first, second), A, content)
  {
    RunNothing(v);
    SendReaches(v, A, content, first, A);
  }
}
