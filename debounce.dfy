/**
 * The observer lifecycle and mutation debounce of the content script
 * (content.js:67-95), driven by an explicit sequence of events instead of
 * timers and observer callbacks.
 */
module Debounce {

  /** `observer !== null` and `window.doomscrollUpdating`. */
  datatype Control = Control(observing: bool, updating: bool)

  /** Mutation   -- the observer's callback runs (only a connected observer calls it)
      TimerFire  -- the debounce timer set by an earlier mutation goes off
      Loaded     -- the settings load callback runs, with its `shouldBlock` value */
  datatype Event = Mutation | TimerFire | Loaded(shouldBlock: bool)

  /** The control state after one event, and how many reconciliation passes it ran. */
  function Next(c: Control, ev: Event): (r: (Control, nat))
    ensures r.1 <= 1
    ensures ev.Mutation? ==> (r.1 == 1 <==> c.observing && !c.updating)
    ensures ev.Mutation? && r.1 == 1 ==> r.0 == c.(updating := true)
    ensures ev.Mutation? && r.1 == 0 ==> r.0 == c
    ensures ev.TimerFire? ==> r == (c.(updating := false), 0)
    ensures ev.Loaded? ==> r.0.observing == ev.shouldBlock && r.0.updating == c.updating
    ensures ev.Loaded? ==> (r.1 == 1 <==> ev.shouldBlock)
  {
    match ev
    case Mutation =>
      if c.observing && !c.updating then (c.(updating := true), 1) else (c, 0)
    case TimerFire =>
      (c.(updating := false), 0)
    case Loaded(shouldBlock) =>
      if shouldBlock then
        (if !c.observing then c.(observing := true) else c, 1)
      else if c.observing then (c.(observing := false), 0)
      else (c, 0)
  }

  /** The state after a sequence of events, and the passes they ran in all. */
  function Run(c: Control, evs: seq<Event>): (Control, nat)
    decreases |evs|
  {
    if |evs| == 0 then (c, 0)
    else
      var (c1, n1) := Next(c, evs[0]);
      var (c2, n2) := Run(c1, evs[1..]);
      (c2, n1 + n2)
  }

  /** `n` mutation notifications with no timer in between. */
  function Burst(n: nat): (evs: seq<Event>)
    ensures |evs| == n
  {
    seq(n, _ => Mutation)
  }

  /** While the flag is set, any number of mutations runs nothing and changes nothing. */
  lemma {:induction false} BurstWhileUpdating(c: Control, n: nat)
    requires c.updating
    ensures Run(c, Burst(n)) == (c, 0)
  {
    if n > 0 {
      assert Burst(n)[1..] == Burst(n - 1);
      BurstWhileUpdating(c, n - 1);
    }
  }

  /** Without an observer no mutation reaches the engine. */
  lemma {:induction false} BurstWithoutObserver(c: Control, n: nat)
    requires !c.observing
    ensures Run(c, Burst(n)) == (c, 0)
  {
    if n > 0 {
      assert Burst(n)[1..] == Burst(n - 1);
      BurstWithoutObserver(c, n - 1);
    }
  }

  /** A burst of mutations inside one debounce window runs exactly one pass, and leaves
      the flag set until the timer fires. */
  lemma BurstRunsOnce(c: Control, n: nat)
    requires c.observing && !c.updating && n >= 1
    ensures Run(c, Burst(n)) == (c.(updating := true), 1)
  {
    assert Burst(n)[1..] == Burst(n - 1);
    BurstWhileUpdating(c.(updating := true), n - 1);
  }

  /** Once the timer has fired, the next burst runs a pass again. */
  lemma TimerReopensWindow(c: Control, n: nat, m: nat)
    requires c.observing && !c.updating && n >= 1 && m >= 1
    ensures Run(c, Burst(n) + [TimerFire] + Burst(m)) == (c.(updating := true), 2)
  {
    RunAppend(c, Burst(n), [TimerFire] + Burst(m));
    BurstRunsOnce(c, n);
    assert ([TimerFire] + Burst(m))[1..] == Burst(m);
    BurstRunsOnce(c, m);
    assert Burst(n) + [TimerFire] + Burst(m) == Burst(n) + ([TimerFire] + Burst(m));
  }

  lemma {:induction false} RunAppend(c: Control, xs: seq<Event>, ys: seq<Event>)
    ensures Run(c, xs + ys) == (Run(Run(c, xs).0, ys).0, Run(c, xs).1 + Run(Run(c, xs).0, ys).1)
    decreases |xs|
  {
    if |xs| > 0 {
      assert (xs + ys)[0] == xs[0];
      assert (xs + ys)[1..] == xs[1..] + ys;
      RunAppend(Next(c, xs[0]).0, xs[1..], ys);
    } else {
      assert xs + ys == ys;
    }
  }

  /** Settings that turn blocking off tear the observer down, and later mutations are ignored. */
  lemma LoadedOffSilencesMutations(c: Control, n: nat)
    ensures var (c1, k) := Next(c, Loaded(false));
            !c1.observing && k == 0 && Run(c1, Burst(n)) == (c1, 0)
  {
    BurstWithoutObserver(Next(c, Loaded(false)).0, n);
  }
}
