/** Event handlers that throw. The exception leaves handle_events and the loop starts over: the rest of the
    local copies is gone, and the token that began the pass has not been read. */
module Throwing {
  import opened EventLoop

  /** Any step of any thread, or an exception out of the handler that is running. */
  datatype Move = Act(a: Action) | Throw

  predicate CanMove(s: State, m: Move) {
    match m
    case Act(a) => Enabled(s, a)
    case Throw => InHandler(s.pc)
  }

  ghost function Moved(s: State, m: Move): State
    requires CanMove(s, m)
  {
    match m
    case Act(a) => Step(s, a)
    case Throw => Thrown(s)
  }

  /** The loop at its top again, from wherever the handler was. */
  function Thrown(s: State): State {
    s.(pc := Top)
  }

  ghost predicate Moves(s: State, ms: seq<Move>)
    decreases |ms|
  {
    ms == [] || (CanMove(s, ms[0]) && Moves(Moved(s, ms[0]), ms[1..]))
  }

  ghost function Reached(s: State, ms: seq<Move>): State
    requires Moves(s, ms)
    decreases |ms|
  {
    if ms == [] then s else Reached(Moved(s, ms[0]), ms[1..])
  }

  // ---- what exceptions leave intact ----------------------------------------------------------------

  /** The token of an interrupted pass stays behind and starts one pass more; there are never too few. */
  predicate Enough(g: Signals, pc: Control) {
    && 0 <= g.tokens
    && g.tokens + |Writers(g.notifiers)| >= One(g.flag) + One(InWindow(pc))
    && (InWindow(pc) ==> g.tokens > 0)
    && (g.wakeup != {} ==> g.flag || pc.Cleared?)
  }

  lemma StepEnough(s: State, a: Action)
    requires Enough(s.sig, s.pc) && Enabled(s, a)
    ensures Enough(Step(s, a).sig, Step(s, a).pc)
  {
    hide PollLists, PollPc, WorkLists, WorkHistory, CanWork;
    match a
    case Notifier(n) => WritersUpdate(s.sig.notifiers, n.t, Step(s, a).sig.notifiers[n.t]);
    case EventPass(p) =>
    case Polling(l) => PollOutside(s.lists, s.pc, l);
    case Handler(w) =>
  }

  /** What holds over every run with exceptions. */
  predicate Sturdy(s: State) {
    Enough(s.sig, s.pc) && Lifetimes(s) && s.sig.events.Keys == s.hist.delivered.Keys
  }

  lemma KeysStay(s: State, a: Action)
    requires s.sig.events.Keys == s.hist.delivered.Keys && Enabled(s, a)
    ensures Step(s, a).sig.events.Keys == Step(s, a).hist.delivered.Keys
  {
    hide PollLists, PollPc, WorkLists, InHandler;
    match a
    case Notifier(n) =>
    case EventPass(p) => assert PassStep(s, p).sig.events.Keys == s.sig.events.Keys;
    case Polling(l) =>
    case Handler(w) =>
  }

  lemma MoveKeeps(s: State, m: Move)
    requires Sturdy(s) && CanMove(s, m)
    ensures Sturdy(Moved(s, m))
  {
    match m {
      case Act(a) =>
        hide *;
        SturdyIs(s);
        StepEnough(s, a);
        StepLifetimes(s, a);
        KeysStay(s, a);
        SturdyIs(Step(s, a));
        ActIs(s, a);
      case Throw =>
    }
  }

  lemma SturdyIs(s: State)
    ensures Sturdy(s) <==> Enough(s.sig, s.pc) && Lifetimes(s) && s.sig.events.Keys == s.hist.delivered.Keys
  {
  }

  lemma ActIs(s: State, a: Action)
    ensures CanMove(s, Act(a)) <==> Enabled(s, a)
    ensures Enabled(s, a) ==> Moved(s, Act(a)) == Step(s, a)
  {
    hide Step, Enabled;
  }

  /** Over every run, with any number of exceptions, there are enough tokens, and objects live and are listed
      as they do without exceptions. */
  lemma {:induction false} MovesKeep(s: State, ms: seq<Move>)
    requires Sturdy(s) && Moves(s, ms)
    ensures Sturdy(Reached(s, ms))
    decreases |ms|
  {
    hide Sturdy, CanMove, Moved;
    if ms != [] {
      MoveKeeps(s, ms[0]);
      MovesKeep(Moved(s, ms[0]), ms[1..]);
    }
  }

  // ---- the objects that are forgotten -----------------------------------------------------------

  predicate AboutToEnlist(g: Signals, o: Obj) {
    exists t :: t in g.notifiers && g.notifiers[t] == Posted(o)
  }

  /** Nobody will look at o's queue. */
  predicate Forgotten(s: State, o: Obj) {
    && o in s.sig.events && o in s.hist.delivered && !Covered(s.sig, s.pc, o)
    && (s.pc.Delivering? || s.pc.InEvent? ==> s.pc.o != o)
  }

  predicate PostsTo(a: Action, o: Obj) {
    a.Notifier? && a.n.Post? && a.n.o == o
  }

  predicate NoPosts(acts: seq<Action>, o: Obj) {
    forall i :: 0 <= i < |acts| ==> !PostsTo(acts[i], o)
  }

  lemma NotifyForgets(s: State, n: Notify, o: Obj)
    requires Forgotten(s, o) && CanNotify(s, n) && !PostsTo(Notifier(n), o)
    ensures var q := NotifyStep(s, n);
            Forgotten(q, o) && q.sig.events[o] == s.sig.events[o] && q.hist.delivered == s.hist.delivered
  {
    var q := NotifyStep(s, n);
    assert n.Enlist? ==> PhaseOf(s.sig.notifiers, n.t).o != o;
    forall t | t in q.sig.notifiers ensures q.sig.notifiers[t] != Posted(o) {
      assert t != n.t ==> t in s.sig.notifiers && q.sig.notifiers[t] == s.sig.notifiers[t];
    }
  }

  lemma PassForgets(s: State, p: Pass, o: Obj)
    requires Forgotten(s, o) && CanPass(s, p)
    ensures var q := PassStep(s, p);
            Forgotten(q, o) && q.sig.events[o] == s.sig.events[o]
            && o in q.hist.delivered && q.hist.delivered[o] == s.hist.delivered[o]
  {
    if p.Copy? {
      assert o !in Elements(p.order);
    }
  }

  lemma StepForgets(s: State, a: Action, o: Obj)
    requires Forgotten(s, o) && Enabled(s, a) && !PostsTo(a, o)
    ensures var q := Step(s, a);
            Forgotten(q, o) && q.sig.events[o] == s.sig.events[o] && q.hist.delivered[o] == s.hist.delivered[o]
  {
    hide PollLists, PollPc, WorkLists, CanPass, CanNotify, PassStep, NotifyStep;
    match a
    case Notifier(n) => NotifyForgets(s, n, o);
    case EventPass(p) => PassForgets(s, p, o);
    case Polling(l) => PollOutside(s.lists, s.pc, l);
    case Handler(w) =>
  }

  lemma {:induction false} RunForgets(s: State, acts: seq<Action>, o: Obj)
    requires Forgotten(s, o) && Runs(s, acts) && NoPosts(acts, o)
    ensures var q := After(s, acts); Forgotten(q, o) && q.hist.delivered[o] == s.hist.delivered[o]
    decreases |acts|
  {
    hide Enabled, Step, PostsTo;
    if acts != [] {
      StepForgets(s, acts[0], o);
      assert NoPosts(acts[1..], o);
      hide Forgotten;
      RunForgets(Step(s, acts[0]), acts[1..], o);
    }
  }

  // ---- the objects that are not --------------------------------------------------------------------

  /** o is up for service if it has anything to be served. */
  predicate Served(s: State, o: Obj) {
    o in s.sig.events && (o in s.hist.alive && s.sig.events[o] != [] ==> Covered(s.sig, s.pc, o))
  }

  lemma StepLifetimes(s: State, a: Action)
    requires Lifetimes(s) && Enabled(s, a)
    ensures Lifetimes(Step(s, a))
  {
    match a
    case Notifier(n) => NotifyLifetimes(s, n);
    case EventPass(p) => PassLifetimes(s, p);
    case Polling(l) =>
      PollRegistered(s.lists, s.pc, l, s.hist.alive, s.sig.events.Keys);
      PollHeld(s.lists, s.pc, l, s.hist.alive, s.sig.events.Keys);
    case Handler(w) =>
      WorkRegistered(s.lists, w, s.hist, s.sig.events.Keys);
      WorkHeld(s.pc, s.lists, w, s.hist);
      assert w.Create? ==> s.sig.events[w.o := []].Keys == s.sig.events.Keys + {w.o};
  }

  lemma NotifyLifetimes(s: State, n: Notify)
    requires Lifetimes(s) && CanNotify(s, n)
    ensures Lifetimes(NotifyStep(s, n))
  {
    hide Registered, Held, Settled;
    assert NotifyStep(s, n).sig.events.Keys == s.sig.events.Keys;
  }

  lemma PassLifetimes(s: State, p: Pass)
    requires Lifetimes(s) && CanPass(s, p)
    ensures Lifetimes(PassStep(s, p))
  {
    hide Registered, Settled, Held, AllIn;
    var q := PassStep(s, p);
    PassHeld(s, p);
    assert q.sig.events.Keys == s.sig.events.Keys && q.lists == s.lists && q.hist.alive == s.hist.alive;
  }

  lemma PassHeld(s: State, p: Pass)
    requires Lifetimes(s) && CanPass(s, p)
    ensures Held(PassStep(s, p).pc, s.hist.alive, s.lists.deletion) && Settled(s.lists, PassStep(s, p).pc)
  {
    if p.Copy? {
      CopyHeld(s, p.order);
    } else {
      hide Registered, Awake, Elements;
      assert p.NextObject? ==> s.pc.rest[0] in s.pc.rest;
    }
  }

  lemma CopyHeld(s: State, order: seq<Obj>)
    requires Lifetimes(s) && CanPass(s, Copy(order))
    ensures AllIn(order, s.hist.alive + s.lists.deletion)
  {
    hide Lifetimes;
    forall o | o in order ensures o in s.hist.alive + s.lists.deletion {
      assert o in Elements(order) && o in s.lists.main;
      MainIsKnown(s, o);
    }
  }

  lemma MainIsKnown(s: State, o: Obj)
    requires Lifetimes(s) && o in s.lists.main
    ensures o in s.hist.alive || o in s.lists.deletion
  {
  }

  lemma StepServed(s: State, a: Action, o: Obj)
    requires Lifetimes(s) && Served(s, o) && Enabled(s, a)
    ensures Served(Step(s, a), o)
  {
    match a
    case Notifier(n) => NotifyServed(s, n, o);
    case EventPass(p) => PassServed(s, p, o);
    case Polling(l) => PollOutside(s.lists, s.pc, l);
    case Handler(w) =>
  }

  lemma NotifyServed(s: State, n: Notify, o: Obj)
    requires Served(s, o) && CanNotify(s, n)
    ensures Served(NotifyStep(s, n), o)
  {
    var q := NotifyStep(s, n);
    if n.Post? && n.o == o {
      PostedCovers(q.sig, q.pc, o, n.t);
    } else if o in s.hist.alive && s.sig.events[o] != [] {
      CoveredStays(s.sig, q.sig, s.pc, o, n.t);
    }
  }

  lemma PassServed(s: State, p: Pass, o: Obj)
    requires Lifetimes(s) && Served(s, o) && CanPass(s, p)
    ensures Served(PassStep(s, p), o)
  {
    if p.Copy? && o in s.hist.alive && o in s.sig.wakeup {
      assert o in Awake(s);
      assert o in Elements(p.order);
    } else if p.NextObject? {
      assert s.pc.rest == [s.pc.rest[0]] + s.pc.rest[1..];
    }
  }

  lemma {:induction false} RunServed(s: State, acts: seq<Action>, o: Obj)
    requires Lifetimes(s) && Served(s, o) && Runs(s, acts)
    ensures Served(After(s, acts), o)
    decreases |acts|
  {
    hide Enabled, Step, Lifetimes, Served;
    if acts != [] {
      StepLifetimes(s, acts[0]);
      StepServed(s, acts[0], o);
      RunServed(Step(s, acts[0]), acts[1..], o);
    }
  }

  /** o is up for service and the loop thread is or will be told. */
  predicate Signalled(s: State, o: Obj) {
    Served(s, o) && (o in s.hist.alive && s.sig.events[o] != [] ==>
      || s.sig.tokens > 0 || AboutToEnlist(s.sig, o)
      || exists t :: t in s.sig.notifiers && s.sig.notifiers[t] == MustWrite)
  }

  lemma ServedIsSignalled(s: State, o: Obj)
    requires Enough(s.sig, s.pc) && Served(s, o)
    ensures Signalled(s, o)
  {
    if o in s.hist.alive && s.sig.events[o] != [] && s.sig.tokens == 0 && !AboutToEnlist(s.sig, o) {
      assert o in s.sig.wakeup;
      WriterExists(s.sig.notifiers);
    }
  }

  lemma {:induction false} RunEnough(s: State, acts: seq<Action>)
    requires Enough(s.sig, s.pc) && Runs(s, acts)
    ensures Enough(After(s, acts).sig, After(s, acts).pc)
    decreases |acts|
  {
    hide Enough, Enabled, Step;
    if acts != [] {
      StepEnough(s, acts[0]);
      RunEnough(Step(s, acts[0]), acts[1..]);
    }
  }

  /** After any run with any number of exceptions, one more costs exactly the objects that are neither up for
      wakeup nor about to be put up: no event of theirs is delivered any more until somebody notifies
      them again. Any other live object stays up for service, and its wakeup signalled, as long as it
      has events, whatever happens next. */
  lemma ThrowForgetsIff(before: seq<Move>, after: seq<Action>, o: Obj)
    requires Moves(INIT, before) && InHandler(Reached(INIT, before).pc)
    requires Runs(Thrown(Reached(INIT, before)), after)
    requires var s := Reached(INIT, before); o in s.hist.alive && o in s.sig.events && s.sig.events[o] != []
    ensures var s := Reached(INIT, before); var q := After(Thrown(s), after);
            if o in s.sig.wakeup || AboutToEnlist(s.sig, o) then Signalled(q, o)
            else NoPosts(after, o) ==>
              o in s.hist.delivered && o in q.hist.delivered && q.hist.delivered[o] == s.hist.delivered[o]
  {
    InitSturdy();
    MovesKeep(INIT, before);
    var s := Reached(INIT, before);
    var t := Thrown(s);
    ThrownState(s);
    hide Step, Enabled, Sturdy, Runs, Lifetimes, Enough, Signalled;
    if o in s.sig.wakeup || AboutToEnlist(s.sig, o) {
      RunServed(t, after, o);
      RunEnough(t, after);
      ServedIsSignalled(After(t, after), o);
    } else if NoPosts(after, o) {
      assert Forgotten(t, o);
      RunForgets(t, after, o);
    }
  }

  /** The events taken from the queue of the object at hand and not yet handed over are lost with the first
      exception: nothing is missing if and only if the event it was thrown for was the last one. */
  lemma ThrowDropsBatchIff(acts: seq<Action>)
    requires Runs(INIT, acts) && After(INIT, acts).pc.InEvent? && After(INIT, acts).pc.o in After(INIT, acts).hist.alive
    ensures var s := Thrown(After(INIT, acts)); var pc := After(INIT, acts).pc;
            && pc.o in s.hist.posted && pc.o in s.hist.delivered && pc.o in s.sig.events
            && (s.hist.posted[pc.o] == s.hist.delivered[pc.o] + s.sig.events[pc.o] <==> pc.batch == [])
  {
    InitInv();
    RunKeeps(INIT, acts);
    var s := After(INIT, acts);
    var o := s.pc.o;
    assert o in s.sig.events by {
      assert Registered(s.lists, s.hist.alive, s.sig.events.Keys);
    }
    assert s.hist.posted[o] == s.hist.delivered[o] + s.pc.batch + s.sig.events[o];
  }

  lemma InitSturdy()
    ensures Sturdy(INIT)
  {
    InitInv();
  }

  lemma ThrownState(s: State)
    requires Sturdy(s)
    ensures Lifetimes(Thrown(s)) && s.sig.events.Keys == s.hist.delivered.Keys
    ensures InHandler(s.pc) ==> Enough(s.sig, Top)
  {
  }
}
