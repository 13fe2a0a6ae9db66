/** The event loop together with the timers of its objects: a timer list is emptied of what is due in one
    go, and the handlers are called one by one afterwards, each free to register and cancel timers and to
    destroy objects before the next call. */
module TimerLoop {
  import opened EventLoop
  import T = Timers

  /** batch: what was taken out of the list at hand and not yet passed to the handler; fired: what each
      object's handler was called for. */
  datatype Timed = Timed(loop: State, timers: map<Obj, T.World>, batch: seq<T.Ticket>, fired: map<Obj, seq<T.Ticket>>)

  /** __handle_timeout takes out what is due and calls the handler once for each; in handlers, timers are
      registered, reset and cancelled; everything else is a step of the event loop. */
  datatype Deed = Loop(a: Action) | TakeOut(now: int) | Fire | OfTimer(o: Obj, op: T.Op)

  const START := Timed(INIT, map[], [], map[])

  predicate CanDo(s: Timed, d: Deed) {
    match d
    case Loop(a) => Enabled(s.loop, a) && !(a.Polling? && (a.l.TimeoutNext? || a.l.FireNext?))
    case TakeOut(_) => s.loop.pc.Timeouts? && (s.loop.pc.rest != [] ==> s.loop.pc.rest[0] in s.timers)
    case Fire => s.loop.pc.Firing? && s.loop.pc.o in s.fired && |s.batch| == |s.loop.pc.due|
    case OfTimer(o, op) =>
      (InHandler(s.loop.pc) || s.loop.pc.Top?) && o in s.loop.hist.alive && o in s.timers && !op.Expire?
  }

  /** The tickets due at now in the list of the next object. */
  function NextDue(s: Timed, now: int): seq<T.Ticket>
    requires CanDo(s, TakeOut(now))
  {
    if s.loop.pc.rest == [] then []
    else
      var q := s.timers[s.loop.pc.rest[0]].pending;
      q[..T.Ripe(q, now)]
  }

  ghost function Do(s: Timed, d: Deed): Timed
    requires CanDo(s, d)
  {
    match d
    case Loop(a) =>
      var l := Step(s.loop, a);
      if a.Handler? && a.w.Create?
      then s.(loop := l, timers := s.timers[a.w.o := T.NO_TIMERS], fired := s.fired[a.w.o := []])
      else s.(loop := l)
    case TakeOut(now) =>
      var due := NextDue(s, now);
      var l := Step(s.loop, Polling(TimeoutNext(T.Kinds(due))));
      if l.pc.Firing?
      then s.(loop := l, timers := s.timers[l.pc.o := T.Step(s.timers[l.pc.o], T.Expire(now))], batch := due)
      else s.(loop := l)
    case Fire =>
      var l := Step(s.loop, Polling(FireNext));
      if l.pc.InTimeout?
      then s.(loop := l, batch := s.batch[1..], fired := s.fired[l.pc.o := s.fired[l.pc.o] + [s.batch[0]]])
      else s.(loop := l)
    case OfTimer(o, op) => s.(timers := s.timers[o := T.Step(s.timers[o], op)])
  }

  // ---- the invariant ------------------------------------------------------------------------

  /** What is taken out of o's list and not yet passed to its handler. */
  function Outstanding(s: Timed, o: Obj): seq<T.Ticket> {
    if (s.loop.pc.Firing? || s.loop.pc.InTimeout?) && s.loop.pc.o == o then s.batch else []
  }

  /** The handler has been called for what was taken out, in that order, but for what is outstanding; a
      destroyed object's handler for a first part of it. */
  predicate Called(s: Timed) {
    && s.timers.Keys == s.fired.Keys == s.loop.sig.events.Keys
    && (forall o :: o in s.timers ==>
          CalledFor(s.timers[o].taken, s.fired[o], Outstanding(s, o), o in s.loop.hist.alive))
    && (s.loop.pc.Firing? || s.loop.pc.InTimeout? ==> s.loop.pc.due == T.Kinds(s.batch))
  }

  predicate CalledFor(taken: seq<T.Ticket>, fired: seq<T.Ticket>, left: seq<T.Ticket>, live: bool) {
    fired <= taken && (live ==> taken == fired + left)
  }

  /** What is listed for a timeout is in the main list, so that no batch is dropped for want of it. */
  predicate Listed(l: Lists, pc: Control) {
    && AllIn(l.timeouts, l.main)
    && (pc.Timeouts? || pc.Firing? || pc.InTimeout? ==> AllIn(pc.rest, l.main))
    && (pc.Firing? || pc.InTimeout? ==> pc.o in l.main)
  }

  predicate AllAccounted(s: Timed) {
    forall o :: o in s.timers ==> T.Accounted(s.timers[o])
  }

  predicate AllPunctual(s: Timed) {
    forall o :: o in s.timers ==> T.Punctual(s.timers[o])
  }

  predicate TimedInv(s: Timed) {
    Inv(s.loop) && Called(s) && Listed(s.loop.lists, s.loop.pc) && AllAccounted(s)
  }

  lemma StartInv()
    ensures TimedInv(START) && AllPunctual(START)
  {
    InitInv();
  }

  /** Nothing but taking out and firing touches a batch. */
  lemma OtherKeepsBatch(s: State, a: Action)
    requires Enabled(s, a) && !(a.Polling? && (a.l.TimeoutNext? || a.l.FireNext?))
    ensures var q := Step(s, a);
            && ((q.pc.Firing? || q.pc.InTimeout?) == (s.pc.Firing? || s.pc.InTimeout?))
            && (s.pc.Firing? || s.pc.InTimeout? ==> q.pc.o == s.pc.o && q.pc.due == s.pc.due && q.pc.rest == s.pc.rest)
  {
  }

  /** Objects come into being with Create and end with Destroy. */
  lemma OtherKeepsLives(s: State, a: Action)
    requires Inv(s) && Enabled(s, a)
    ensures var q := Step(s, a);
            if a.Handler? && a.w.Create? then
              && a.w.o !in s.sig.events && q.hist.alive == s.hist.alive + {a.w.o}
              && q.sig.events.Keys == s.sig.events.Keys + {a.w.o}
            else q.hist.alive <= s.hist.alive && q.sig.events.Keys == s.sig.events.Keys
  {
    hide Protocol, Held, Settled;
  }

  lemma HeldIsBorn(s: State)
    requires Inv(s) && (s.pc.Firing? || s.pc.InTimeout?)
    ensures s.pc.o in s.sig.events
  {
  }

  lemma LoopIs(s: Timed, a: Action)
    requires CanDo(s, Loop(a))
    ensures Enabled(s.loop, a) && !(a.Polling? && (a.l.TimeoutNext? || a.l.FireNext?))
    ensures var l := Step(s.loop, a);
            Do(s, Loop(a)) ==
              if a.Handler? && a.w.Create?
              then s.(loop := l, timers := s.timers[a.w.o := T.NO_TIMERS], fired := s.fired[a.w.o := []])
              else s.(loop := l)
  {
    hide Enabled, Step;
  }

  lemma LoopCalled(s: Timed, a: Action)
    requires Inv(s.loop) && Called(s) && CanDo(s, Loop(a))
    ensures Called(Do(s, Loop(a)))
  {
    hide Inv, Enabled, Step, CalledFor, Do, CanDo;
    var q := Do(s, Loop(a));
    LoopIs(s, a);
    OtherKeepsLives(s.loop, a);
    OtherKeepsBatch(s.loop, a);
    if s.loop.pc.Firing? || s.loop.pc.InTimeout? {
      HeldIsBorn(s.loop);
    }
    forall o | o in q.timers
      ensures CalledFor(q.timers[o].taken, q.fired[o], Outstanding(q, o), o in q.loop.hist.alive)
    {
      if o in s.timers {
        assert CalledFor(s.timers[o].taken, s.fired[o], Outstanding(s, o), o in s.loop.hist.alive);
        FewerLive(s.timers[o].taken, s.fired[o], Outstanding(s, o), o in s.loop.hist.alive);
      } else {
        FewerLive([], [], [], true);
      }
    }
  }

  lemma FewerLive(taken: seq<T.Ticket>, fired: seq<T.Ticket>, left: seq<T.Ticket>, live: bool)
    ensures CalledFor(taken, fired, left, live) ==> CalledFor(taken, fired, left, false)
    ensures CalledFor([], [], [], true)
  {
  }

  /** The main list changes at the top of the loop only, where no timeouts are being handled. */
  lemma StepListed(s: State, a: Action)
    requires Listed(s.lists, s.pc) && Enabled(s, a) && Inv(s)
    ensures Listed(Step(s, a).lists, Step(s, a).pc)
  {
    hide Protocol, Registered, Held, Settled;
    if a.Polling? {
      PollListed(s.lists, s.pc, a.l);
    } else if a.Handler? {
      WorkListed(s.lists, s.pc, a.w);
    }
  }

  lemma PollListed(l: Lists, pc: Control, a: Poll)
    requires Listed(l, pc) && CanPoll(l, pc, a)
    ensures Listed(PollLists(l, pc, a), PollPc(l, pc, a))
  {
    if a.Arm? {
      assert forall o :: o in a.due ==> o in Elements(a.due);
    }
  }

  lemma WorkListed(l: Lists, pc: Control, a: Work)
    requires Listed(l, pc)
    ensures Listed(WorkLists(l, a), pc)
  {
  }

  /** Taking out moves what is due from the list of one object, if that lives, to the batch. */
  lemma TakeOutIs(s: Timed, now: int)
    requires CanDo(s, TakeOut(now))
    ensures var q := Do(s, TakeOut(now)); var pc := q.loop.pc;
            && q.loop.hist == s.loop.hist && q.loop.sig == s.loop.sig && q.fired == s.fired
            && !s.loop.pc.Firing? && !s.loop.pc.InTimeout? && !pc.InTimeout?
            && (pc.Firing? ==>
                  && s.loop.pc.Timeouts? && s.loop.pc.rest != [] && pc.o == s.loop.pc.rest[0]
                  && pc.o in s.timers && pc.due == T.Kinds(q.batch)
                  && q.batch == s.timers[pc.o].pending[..T.Ripe(s.timers[pc.o].pending, now)]
                  && q.timers == s.timers[pc.o := T.Step(s.timers[pc.o], T.Expire(now))])
            && (!pc.Firing? ==> q.timers == s.timers)
  {
    hide T.Step;
  }

  lemma TakeOutCalled(s: Timed, now: int)
    requires Called(s) && CanDo(s, TakeOut(now))
    ensures Called(Do(s, TakeOut(now)))
  {
    TakeOutIs(s, now);
    hide Do, CanDo, CalledFor, T.Step;
    var q := Do(s, TakeOut(now));
    assert q.timers.Keys == s.timers.Keys;
    forall o | o in q.timers
      ensures CalledFor(q.timers[o].taken, q.fired[o], Outstanding(q, o), o in q.loop.hist.alive)
    {
      assert CalledFor(s.timers[o].taken, s.fired[o], Outstanding(s, o), o in s.loop.hist.alive);
      if q.loop.pc.Firing? && o == q.loop.pc.o {
        TakenGrows(s.timers[o], now, s.fired[o], o in s.loop.hist.alive);
      }
    }
  }

  lemma TakenGrows(w: T.World, now: int, fired: seq<T.Ticket>, live: bool)
    requires CalledFor(w.taken, fired, [], live)
    ensures CalledFor(T.Step(w, T.Expire(now)).taken, fired, w.pending[..T.Ripe(w.pending, now)], live)
  {
  }

  /** A call of the handler moves one ticket from the batch; none is made when the batch is empty or the
      object gone. */
  lemma FireIs(s: Timed)
    requires CanDo(s, Fire) && s.loop.pc.o in s.loop.lists.main
    ensures var q := Do(s, Fire); var pc := q.loop.pc; var o := s.loop.pc.o;
            && q.loop.hist == s.loop.hist && q.loop.sig == s.loop.sig && q.timers == s.timers && !pc.Firing?
            && (pc.InTimeout? <==> s.batch != [] && o !in s.loop.lists.deletion)
            && (pc.InTimeout? ==>
                  && pc.o == o && pc.due == s.loop.pc.due[1..] && q.batch == s.batch[1..]
                  && q.fired == s.fired[o := s.fired[o] + [s.batch[0]]])
            && (!pc.InTimeout? ==> q.fired == s.fired)
  {
  }

  lemma FiringIs(s: Timed)
    requires CanDo(s, Fire)
    ensures s.loop.pc.Firing? && s.loop.pc.o in s.fired
  {
  }

  lemma FireKeepsTimers(s: Timed)
    requires CanDo(s, Fire)
    ensures Do(s, Fire).timers == s.timers
  {
  }

  lemma OfTimerIs(s: Timed, o: Obj, op: T.Op)
    requires CanDo(s, OfTimer(o, op))
    ensures o in s.timers && Do(s, OfTimer(o, op)) == s.(timers := s.timers[o := T.Step(s.timers[o], op)])
  {
    hide T.Step;
  }

  lemma FireCalled(s: Timed)
    requires TimedInv(s) && CanDo(s, Fire)
    ensures Called(Do(s, Fire))
  {
    hide Do, CanDo, Protocol, Lifetimes, AllAccounted, Called;
    FiringIs(s);
    LiveOrDeleted(s.loop);
    FireIs(s);
    if Do(s, Fire).loop.pc.InTimeout? {
      OneCalled(s, Do(s, Fire));
    } else {
      BatchLeft(s, Do(s, Fire));
    }
  }

  lemma LiveOrDeleted(s: State)
    requires Lifetimes(s) && s.pc.Firing?
    ensures s.pc.o in s.hist.alive <==> s.pc.o !in s.lists.deletion
  {
  }

  lemma OneCalled(s: Timed, q: Timed)
    requires Called(s) && s.loop.pc.Firing? && s.loop.pc.o in s.fired && s.batch != []
    requires q.loop.hist == s.loop.hist && q.loop.sig == s.loop.sig && q.timers == s.timers
    requires s.loop.pc.o in s.loop.hist.alive
    requires q.loop.pc.InTimeout? && q.loop.pc.o == s.loop.pc.o && q.loop.pc.due == s.loop.pc.due[1..]
    requires q.batch == s.batch[1..]
    requires q.fired == s.fired[q.loop.pc.o := s.fired[q.loop.pc.o] + [s.batch[0]]]
    ensures Called(q)
  {
    hide CalledFor;
    assert q.fired.Keys == s.fired.Keys;
    forall o | o in q.timers
      ensures CalledFor(q.timers[o].taken, q.fired[o], Outstanding(q, o), o in q.loop.hist.alive)
    {
      assert CalledFor(s.timers[o].taken, s.fired[o], Outstanding(s, o), o in s.loop.hist.alive);
      if o == s.loop.pc.o {
        FiredGrows(s.timers[o].taken, s.fired[o], s.batch, true);
      }
    }
    assert T.Kinds(s.batch[1..]) == T.Kinds(s.batch)[1..];
  }

  lemma BatchLeft(s: Timed, q: Timed)
    requires Called(s) && s.loop.pc.Firing?
    requires q.loop.hist == s.loop.hist && q.loop.sig == s.loop.sig && q.timers == s.timers && q.fired == s.fired
    requires s.batch == [] || s.loop.pc.o !in s.loop.hist.alive
    requires !q.loop.pc.Firing? && !q.loop.pc.InTimeout?
    ensures Called(q)
  {
    hide CalledFor;
    forall o | o in q.timers
      ensures CalledFor(q.timers[o].taken, q.fired[o], Outstanding(q, o), o in q.loop.hist.alive)
    {
      assert CalledFor(s.timers[o].taken, s.fired[o], Outstanding(s, o), o in s.loop.hist.alive);
      if o == s.loop.pc.o {
        FiredGrows(s.timers[o].taken, s.fired[o], s.batch, o in s.loop.hist.alive);
      }
    }
  }

  lemma FiredGrows(taken: seq<T.Ticket>, fired: seq<T.Ticket>, batch: seq<T.Ticket>, live: bool)
    requires CalledFor(taken, fired, batch, live)
    ensures batch == [] || !live ==> CalledFor(taken, fired, [], live)
    ensures live && batch != [] ==> CalledFor(taken, fired + [batch[0]], batch[1..], live)
  {
    if batch != [] {
      assert fired + batch == fired + [batch[0]] + batch[1..];
    }
  }

  lemma TakeOutOthers(s: Timed, now: int)
    requires CanDo(s, TakeOut(now))
    ensures var q := Do(s, TakeOut(now));
            && q.timers.Keys == s.timers.Keys
            && forall o :: o in s.timers ==>
                  q.timers[o] == s.timers[o] || q.timers[o] == T.Step(s.timers[o], T.Expire(now))
  {
    TakeOutIs(s, now);
    hide *;
  }

  lemma DoAccounted(s: Timed, d: Deed)
    requires TimedInv(s) && CanDo(s, d)
    ensures AllAccounted(Do(s, d))
  {
    hide Inv, Called, Listed, T.Accounted, Enabled;
    var q := Do(s, d);
    match d
    case Loop(a) =>
      hide Step;
      assert T.Accounted(T.NO_TIMERS) by { NoneAccounted(); }
    case TakeOut(now) =>
      TakeOutOthers(s, now);
      forall o | o in s.timers ensures T.Accounted(q.timers[o]) {
        T.StepAccounts(s.timers[o], T.Expire(now));
      }
    case Fire =>
    case OfTimer(o, op) => T.StepAccounts(s.timers[o], op);
  }

  lemma NoneAccounted()
    ensures T.Accounted(T.NO_TIMERS) && T.Punctual(T.NO_TIMERS)
  {
  }

  /** The step of the event loop that a deed takes, if it takes one. */
  predicate Underlying(s: Timed, d: Deed, a: Action)
    requires CanDo(s, d)
  {
    match d
    case Loop(b) => a == b
    case TakeOut(now) => a == Polling(TimeoutNext(T.Kinds(NextDue(s, now))))
    case Fire => a == Polling(FireNext)
    case OfTimer(_, _) => false
  }

  /** Every deed is a step of the event loop, or leaves the loop as it is: whatever holds over every run of
      the loop holds here. */
  lemma DoesOneStep(s: Timed, d: Deed)
    requires CanDo(s, d)
    ensures if d.OfTimer? then Do(s, d).loop == s.loop
            else exists a :: Underlying(s, d, a) && Enabled(s.loop, a) && Do(s, d).loop == Step(s.loop, a)
  {
    hide Step, CanPass, CanNotify, CanWork;
    match d
    case Loop(a) => assert Underlying(s, d, a);
    case TakeOut(now) => assert Underlying(s, d, Polling(TimeoutNext(T.Kinds(NextDue(s, now)))));
    case Fire => assert Underlying(s, d, Polling(FireNext));
    case OfTimer(_, _) =>
  }

  lemma DoKeepsLoop(s: Timed, d: Deed)
    requires Inv(s.loop) && Listed(s.loop.lists, s.loop.pc) && CanDo(s, d)
    ensures Inv(Do(s, d).loop) && Listed(Do(s, d).loop.lists, Do(s, d).loop.pc)
  {
    hide *;
    DoesOneStep(s, d);
    if !d.OfTimer? {
      var a :| Underlying(s, d, a) && Enabled(s.loop, a) && Do(s, d).loop == Step(s.loop, a);
      StepKeeps(s.loop, a);
      StepListed(s.loop, a);
    }
  }

  lemma DoCalled(s: Timed, d: Deed)
    requires TimedInv(s) && CanDo(s, d)
    ensures Called(Do(s, d))
  {
    hide Inv, Called, Listed, AllAccounted, CanDo, Do;
    match d
    case Loop(a) => LoopCalled(s, a);
    case TakeOut(now) => TakeOutCalled(s, now);
    case Fire => FireCalled(s);
    case OfTimer(o, op) => OfTimerCalled(s, o, op);
  }

  /** Whatever the loop thread, its handlers and the notifying threads do next, the invariant holds again. */
  lemma DoKeeps(s: Timed, d: Deed)
    requires TimedInv(s) && CanDo(s, d)
    ensures TimedInv(Do(s, d))
  {
    hide Inv, Called, Listed, AllAccounted, CanDo, Do;
    DoAccounted(s, d);
    DoCalled(s, d);
    DoKeepsLoop(s, d);
  }

  lemma OfTimerCalled(s: Timed, o: Obj, op: T.Op)
    requires Called(s) && CanDo(s, OfTimer(o, op))
    ensures Called(Do(s, OfTimer(o, op)))
  {
    TakenStays(s.timers[o], op);
    hide T.Step, CalledFor;
    var q := Do(s, OfTimer(o, op));
    assert q.timers.Keys == s.timers.Keys;
    forall p ensures Outstanding(q, p) == Outstanding(s, p) {
    }
  }

  lemma TakenStays(w: T.World, op: T.Op)
    requires !op.Expire?
    ensures T.Step(w, op).taken == w.taken
  {
  }

  // ---- whole runs ---------------------------------------------------------------------------

  ghost predicate Feasible(s: Timed, ds: seq<Deed>)
    decreases |ds|
  {
    ds == [] || (CanDo(s, ds[0]) && Feasible(Do(s, ds[0]), ds[1..]))
  }

  ghost function Outcome(s: Timed, ds: seq<Deed>): Timed
    requires Feasible(s, ds)
    decreases |ds|
  {
    if ds == [] then s else Outcome(Do(s, ds[0]), ds[1..])
  }

  /** The clock does not run backwards for any object, and no delay is negative. */
  ghost predicate Timely(s: Timed, ds: seq<Deed>)
    requires Feasible(s, ds)
    decreases |ds|
  {
    ds == [] || (DeedInTime(s, ds[0]) && Timely(Do(s, ds[0]), ds[1..]))
  }

  predicate DeedInTime(s: Timed, d: Deed) {
    match d
    case TakeOut(now) =>
      var pc := s.loop.pc;
      pc.Timeouts? && pc.rest != [] && pc.rest[0] in s.timers ==> T.InTime(s.timers[pc.rest[0]], T.Expire(now))
    case OfTimer(o, op) => o in s.timers ==> T.InTime(s.timers[o], op)
    case _ => true
  }

  lemma DoPunctual(s: Timed, d: Deed)
    requires TimedInv(s) && AllPunctual(s) && CanDo(s, d) && DeedInTime(s, d)
    ensures AllPunctual(Do(s, d))
  {
    hide Inv, Called, Listed, T.Punctual, T.Step, Enabled, AllAccounted, Step;
    var q := Do(s, d);
    match d
    case Loop(a) =>
      NoneAccounted();
    case TakeOut(now) =>
      TakeOutIs(s, now);
      if q.loop.pc.Firing? {
        T.StepPunctual(s.timers[q.loop.pc.o], T.Expire(now));
      }
    case Fire =>
    case OfTimer(o, op) => T.StepPunctual(s.timers[o], op);
  }

  lemma {:induction false} RunKeeps(s: Timed, ds: seq<Deed>)
    requires TimedInv(s) && Feasible(s, ds)
    ensures TimedInv(Outcome(s, ds))
    ensures AllPunctual(s) && Timely(s, ds) ==> AllPunctual(Outcome(s, ds))
    decreases |ds|
  {
    hide TimedInv, AllPunctual, CanDo, Do, DeedInTime;
    if ds != [] {
      DoKeeps(s, ds[0]);
      if AllPunctual(s) && Timely(s, ds) {
        DoPunctual(s, ds[0]);
      }
      RunKeeps(Do(s, ds[0]), ds[1..]);
    }
  }

  /** In every run, whatever handlers do between two calls and whatever other threads do: each timer
      registered for an object is pending, cancelled or taken out, and is so once. An object's handler is
      called for a first part of what was taken out, in that order; for all of it, but for what is
      outstanding in a batch under way, as long as the object lives. */
  lemma FiredAsTaken(ds: seq<Deed>, o: Obj)
    requires Feasible(START, ds) && o in Outcome(START, ds).loop.sig.events
    ensures var s := Outcome(START, ds);
            && o in s.timers && o in s.fired
            && multiset(s.timers[o].issued) ==
                  multiset(s.timers[o].pending) + multiset(s.timers[o].taken) + s.timers[o].dropped
            && s.fired[o] <= s.timers[o].taken
            && (o in s.loop.hist.alive ==> s.timers[o].taken == s.fired[o] + Outstanding(s, o))
  {
    StartInv();
    RunKeeps(START, ds);
    hide CanDo, Do, Inv, Listed;
    var s := Outcome(START, ds);
    assert T.Accounted(s.timers[o]);
  }

  lemma KeptFacts(s: Timed, o: Obj)
    requires TimedInv(s) && o in s.loop.sig.events
    ensures o in s.timers && o in s.fired && s.fired[o] <= s.timers[o].taken
    ensures AllPunctual(s) ==> T.Punctual(s.timers[o])
  {
    hide Inv, Listed, T.Punctual, AllAccounted;
  }

  lemma PunctualFacts(w: T.World, fired: seq<T.Ticket>)
    requires T.Punctual(w) && fired <= w.taken
    ensures T.Ordered(fired)
    ensures forall i :: 0 <= i < |fired| ==> fired[i].timer.deadline <= w.clock
    ensures forall i, j :: 0 <= i < |fired| && 0 <= j < |w.pending| ==> T.Before(fired[i], w.pending[j])
  {
    hide T.Before;
    assert forall i :: 0 <= i < |fired| ==> fired[i] == w.taken[i];
  }

  /** With a clock that does not run backwards and delays that are not negative, an object's handler is
      called for its timers by deadline and, among equal deadlines, by order of registration, for no timer
      before its deadline, for none twice, and for none while an earlier one is pending. */
  lemma FiredInTime(ds: seq<Deed>, o: Obj)
    requires Feasible(START, ds) && Timely(START, ds) && o in Outcome(START, ds).loop.sig.events
    ensures var s := Outcome(START, ds);
            && o in s.timers && o in s.fired
            && T.Ordered(s.fired[o])
            && (forall i :: 0 <= i < |s.fired[o]| ==> s.fired[o][i].timer.deadline <= s.timers[o].clock)
            && (forall i, j :: 0 <= i < |s.fired[o]| && 0 <= j < |s.timers[o].pending| ==>
                  T.Before(s.fired[o][i], s.timers[o].pending[j]))
  {
    StartInv();
    RunKeeps(START, ds);
    var s := Outcome(START, ds);
    hide *;
    KeptFacts(s, o);
    PunctualFacts(s.timers[o], s.fired[o]);
  }

  /** When no batch is under way, the handler of a live object has been called for all that was taken out. */
  lemma BatchDone(ds: seq<Deed>, o: Obj)
    requires Feasible(START, ds) && o in Outcome(START, ds).loop.hist.alive
    requires var pc := Outcome(START, ds).loop.pc; !pc.Firing? && !pc.InTimeout?
    ensures var s := Outcome(START, ds); o in s.timers && o in s.fired && s.fired[o] == s.timers[o].taken
  {
    StartInv();
    RunKeeps(START, ds);
    var s := Outcome(START, ds);
    assert o in s.loop.sig.events by {
      assert Registered(s.loop.lists, s.loop.hist.alive, s.loop.sig.events.Keys);
    }
    hide CanDo, Do, Inv, Listed;
    FiredAsTaken(ds, o);
  }

  /** An exception out of a timeout handler loses the rest of the batch: the handler of a live object has
      been called for all that was taken out if and only if nothing was left of it. */
  lemma ThrowDropsTimersIff(ds: seq<Deed>)
    requires Feasible(START, ds)
    requires var s := Outcome(START, ds).loop; s.pc.InTimeout? && s.pc.o in s.hist.alive
    ensures var s := Outcome(START, ds); var o := s.loop.pc.o;
            o in s.timers && o in s.fired && (s.fired[o] == s.timers[o].taken <==> s.batch == [])
  {
    StartInv();
    RunKeeps(START, ds);
    var s := Outcome(START, ds);
    assert s.loop.pc.o in s.loop.sig.events by {
      assert Registered(s.loop.lists, s.loop.hist.alive, s.loop.sig.events.Keys);
    }
    hide CanDo, Do, Inv, Listed;
    FiredAsTaken(ds, s.loop.pc.o);
  }

  /** In every run the steps of handling timeouts can be taken where the loop has come to them. */
  lemma TimeoutsNeverStuck(ds: seq<Deed>, now: int)
    requires Feasible(START, ds)
    ensures var s := Outcome(START, ds);
            && (s.loop.pc.Timeouts? ==> CanDo(s, TakeOut(now)))
            && (s.loop.pc.Firing? ==> CanDo(s, Fire))
  {
    StartInv();
    RunKeeps(START, ds);
    var s := Outcome(START, ds);
    if s.loop.pc.Timeouts? && s.loop.pc.rest != [] {
      assert s.loop.pc.rest[0] in s.loop.pc.rest;
      assert Registered(s.loop.lists, s.loop.hist.alive, s.loop.sig.events.Keys);
    }
  }

  // ---- a whole pass over the timeouts -----------------------------------------------------------

  predicate AtTimeouts(pc: Control) {
    pc.Timeouts? || pc.Firing? || pc.InTimeout?
  }

  /** The run is the rest of handle_timeouts, to the step with which it is over. */
  ghost predicate RestOfTimeouts(s: Timed, ds: seq<Deed>)
    requires Feasible(s, ds)
    decreases |ds|
  {
    if ds == [] then !AtTimeouts(s.loop.pc) else AtTimeouts(s.loop.pc) && RestOfTimeouts(Do(s, ds[0]), ds[1..])
  }

  /** An object at its turn: the reading of the clock, and the timers pending for it then. */
  datatype TimerTurn = TimerTurn(o: Obj, now: int, pending: seq<T.Ticket>)

  ghost function TimerTurns(s: Timed, ds: seq<Deed>): seq<TimerTurn>
    requires Feasible(s, ds)
    decreases |ds|
  {
    if ds == [] then []
    else
      var rest := TimerTurns(Do(s, ds[0]), ds[1..]);
      if ds[0].TakeOut? && s.loop.pc.Timeouts? && s.loop.pc.rest != []
      then [TimerTurn(s.loop.pc.rest[0], ds[0].now, s.timers[s.loop.pc.rest[0]].pending)] + rest
      else rest
  }

  function TurnObjects(ts: seq<TimerTurn>): seq<Obj> {
    if ts == [] then [] else [ts[0].o] + TurnObjects(ts[1..])
  }

  /** The handler of the object, if that lives, has been called for every timer due at its turn. */
  predicate TurnServed(t: TimerTurn, q: Timed) {
    t.o in q.loop.hist.alive && t.o in q.fired ==>
      forall x :: x in t.pending && x.timer.deadline <= t.now ==> x in q.fired[t.o]
  }

  lemma ExpireTakesOn(w: T.World, now: int)
    ensures w.taken <= T.Step(w, T.Expire(now)).taken
  {
  }

  lemma DoTakesOn(s: Timed, d: Deed, o: Obj)
    requires TimedInv(s) && CanDo(s, d) && o in s.timers
    ensures var q := Do(s, d); o in q.timers && s.timers[o].taken <= q.timers[o].taken
    ensures o in Do(s, d).loop.hist.alive ==> o in s.loop.hist.alive
  {
    hide Protocol, Lifetimes, AllAccounted, Enabled, Step, Do, CanDo, T.Step;
    match d
    case Loop(a) =>
      LoopIs(s, a);
      OtherKeepsLives(s.loop, a);
    case TakeOut(now) =>
      TakeOutIs(s, now);
      ExpireTakesOn(s.timers[o], now);
    case Fire =>
      FiringIs(s);
      FireIs(s);
    case OfTimer(p, op) =>
      OfTimerIs(s, p, op);
      NoExpiry(s, p, op);
      TakenStays(s.timers[p], op);
  }

  lemma NoExpiry(s: Timed, o: Obj, op: T.Op)
    requires CanDo(s, OfTimer(o, op))
    ensures !op.Expire?
  {
  }

  lemma {:induction false} RunTakesOn(s: Timed, ds: seq<Deed>, o: Obj)
    requires TimedInv(s) && Feasible(s, ds) && o in s.timers
    ensures var q := Outcome(s, ds);
            && o in q.timers && s.timers[o].taken <= q.timers[o].taken
            && (o in q.loop.hist.alive ==> o in s.loop.hist.alive)
    decreases |ds|
  {
    hide TimedInv, CanDo, Do;
    if ds != [] {
      DoKeeps(s, ds[0]);
      DoTakesOn(s, ds[0], o);
      RunTakesOn(Do(s, ds[0]), ds[1..], o);
    }
  }

  /** A turn takes out, for an object that lives, all that is due. */
  lemma TurnTakesOut(s: Timed, now: int)
    requires TimedInv(s) && CanDo(s, TakeOut(now)) && s.loop.pc.Timeouts? && s.loop.pc.rest != []
    ensures var q := Do(s, TakeOut(now)); var o := s.loop.pc.rest[0];
            && o in s.timers && AtTimeouts(q.loop.pc) && q.loop.pc.rest == s.loop.pc.rest[1..]
            && (o in s.loop.hist.alive ==>
                  && o in q.timers
                  && forall x :: x in s.timers[o].pending && x.timer.deadline <= now ==> x in q.timers[o].taken)
  {
    var o := s.loop.pc.rest[0];
    assert o in s.loop.pc.rest;
    hide AllAccounted, Called, Protocol, Settled;
    LiveIsKept(s, o);
    if o in s.loop.hist.alive {
      assert T.Accounted(s.timers[o]) by { AccountedFor(s, o); }
      DueComeFirst(s.timers[o], now);
    }
  }

  lemma AccountedFor(s: Timed, o: Obj)
    requires TimedInv(s) && o in s.timers
    ensures T.Accounted(s.timers[o])
  {
  }

  lemma LiveIsKept(s: Timed, o: Obj)
    requires TimedInv(s) && s.loop.pc.Timeouts? && o in s.loop.pc.rest
    ensures o in s.timers && (o in s.loop.hist.alive ==> o !in s.loop.lists.deletion && o in s.loop.lists.main)
  {
  }

  lemma DueComeFirst(w: T.World, now: int)
    requires T.Accounted(w)
    ensures forall x :: x in w.pending && x.timer.deadline <= now ==> x in T.Step(w, T.Expire(now)).taken
  {
    var n := T.Ripe(w.pending, now);
    LaterIsNotDue(w.pending, now);
    forall x | x in w.pending && x.timer.deadline <= now ensures x in T.Step(w, T.Expire(now)).taken {
      var i :| 0 <= i < |w.pending| && w.pending[i] == x;
      assert x == w.pending[..n][i];
    }
  }

  lemma LaterIsNotDue(q: seq<T.Ticket>, now: int)
    requires T.Ordered(q)
    ensures forall i :: T.Ripe(q, now) <= i < |q| ==> q[i].timer.deadline > now
  {
    var n := T.Ripe(q, now);
    assert forall i :: n < i < |q| ==> T.Before(q[n], q[i]);
  }

  lemma ElseKeepsAhead(s: Timed, d: Deed)
    requires CanDo(s, d) && AtTimeouts(s.loop.pc) && !(d.TakeOut? && s.loop.pc.Timeouts? && s.loop.pc.rest != [])
    ensures var q := Do(s, d);
            if AtTimeouts(q.loop.pc) then q.loop.pc.rest == s.loop.pc.rest
            else s.loop.pc == Timeouts([]) && q.loop.pc == Top
  {
    hide T.Step, CanNotify, PollLists;
  }

  lemma OutsideAllCalled(s: Timed, o: Obj)
    requires TimedInv(s) && !AtTimeouts(s.loop.pc) && o in s.timers && o in s.loop.hist.alive
    ensures o in s.fired && s.fired[o] == s.timers[o].taken
  {
    hide Inv, AllAccounted, Listed;
    assert CalledFor(s.timers[o].taken, s.fired[o], Outstanding(s, o), o in s.loop.hist.alive);
  }

  lemma {:induction false} TimeoutsGoOn(s: Timed, ds: seq<Deed>)
    requires TimedInv(s) && Feasible(s, ds) && RestOfTimeouts(s, ds) && AtTimeouts(s.loop.pc)
    ensures TurnObjects(TimerTurns(s, ds)) == s.loop.pc.rest && Outcome(s, ds).loop.pc == Top
    ensures forall t :: t in TimerTurns(s, ds) ==> TurnServed(t, Outcome(s, ds))
    decreases |ds|
  {
    hide TimedInv, CanDo, Do, TurnServed, TurnObjects, Outcome;
    assert ds != [];
    var d, q := ds[0], Do(s, ds[0]);
    DoKeeps(s, d);
    OutcomeIs(s, ds);
    var rest := TimerTurns(q, ds[1..]);
    if d.TakeOut? && s.loop.pc.Timeouts? && s.loop.pc.rest != [] {
      TurnTakesOut(s, d.now);
      var t := TimerTurn(s.loop.pc.rest[0], d.now, s.timers[s.loop.pc.rest[0]].pending);
      TimeoutsGoOn(q, ds[1..]);
      TurnIsServed(s, d.now, ds[1..], t);
      OneMoreObject(t, rest);
      assert TimerTurns(s, ds) == [t] + rest;
    } else {
      ElseKeepsAhead(s, d);
      if AtTimeouts(q.loop.pc) {
        TimeoutsGoOn(q, ds[1..]);
      } else {
        NoMoreTurns(q, ds[1..]);
      }
    }
  }

  lemma OutcomeIs(s: Timed, ds: seq<Deed>)
    requires Feasible(s, ds)
    ensures ds != [] ==> Outcome(s, ds) == Outcome(Do(s, ds[0]), ds[1..])
    ensures ds == [] ==> Outcome(s, ds) == s
  {
  }

  lemma OneMoreObject(t: TimerTurn, ts: seq<TimerTurn>)
    ensures TurnObjects([t] + ts) == [t.o] + TurnObjects(ts)
  {
    assert ([t] + ts)[1..] == ts;
  }

  lemma NoMoreTurns(s: Timed, ds: seq<Deed>)
    requires Feasible(s, ds) && RestOfTimeouts(s, ds) && !AtTimeouts(s.loop.pc)
    ensures ds == [] && TimerTurns(s, ds) == [] && TurnObjects([]) == [] && Outcome(s, ds) == s
  {
  }

  lemma TurnIsServed(s: Timed, now: int, ds: seq<Deed>, t: TimerTurn)
    requires TimedInv(s) && CanDo(s, TakeOut(now)) && s.loop.pc.Timeouts? && s.loop.pc.rest != []
    requires s.loop.pc.rest[0] in s.timers
    requires t == TimerTurn(s.loop.pc.rest[0], now, s.timers[s.loop.pc.rest[0]].pending)
    requires Feasible(Do(s, TakeOut(now)), ds) && Outcome(Do(s, TakeOut(now)), ds).loop.pc == Top
    ensures TurnServed(t, Outcome(Do(s, TakeOut(now)), ds))
  {
    hide TimedInv, CanDo, Do, Feasible, Outcome;
    var q := Do(s, TakeOut(now));
    var e := Outcome(q, ds);
    DoKeeps(s, TakeOut(now));
    RunKeeps(q, ds);
    TurnTakesOut(s, now);
    DoTakesOn(s, TakeOut(now), t.o);
    RunTakesOn(q, ds, t.o);
    if t.o in e.loop.hist.alive && t.o in e.fired {
      OutsideAllCalled(e, t.o);
      assert forall x :: x in q.timers[t.o].taken ==> x in e.timers[t.o].taken;
    }
  }

  /** In every run, when the loop thread handles timeouts, each object listed for it has its turn, in the order of
      the list; and by the end the handler of every object that still lives has been called for all its
      timers that were due at its turn, whatever handlers did meanwhile. */
  lemma TimeoutPassServes(before: seq<Deed>, ds: seq<Deed>)
    requires Feasible(START, before) && CanDo(Outcome(START, before), Loop(Polling(StartTimeouts)))
    requires var s := Do(Outcome(START, before), Loop(Polling(StartTimeouts))); Feasible(s, ds) && RestOfTimeouts(s, ds)
    ensures var s0 := Outcome(START, before); var s := Do(s0, Loop(Polling(StartTimeouts)));
            && TurnObjects(TimerTurns(s, ds)) == s0.loop.lists.timeouts && Outcome(s, ds).loop.pc == Top
            && forall t :: t in TimerTurns(s, ds) ==> TurnServed(t, Outcome(s, ds))
  {
    hide TimedInv, TurnServed, Feasible, Outcome, TimerTurns, RestOfTimeouts;
    StartInv();
    RunKeeps(START, before);
    var s0 := Outcome(START, before);
    DoKeeps(s0, Loop(Polling(StartTimeouts)));
    NoneIsGone(s0);
    TimeoutsGoOn(Do(s0, Loop(Polling(StartTimeouts))), ds);
  }

  lemma NoneIsGone(s: Timed)
    requires TimedInv(s) && CanDo(s, Loop(Polling(StartTimeouts)))
    ensures Do(s, Loop(Polling(StartTimeouts))).loop.pc == Timeouts(s.loop.lists.timeouts)
  {
    hide AllAccounted, Called, Protocol;
    FilterNothing(s.loop.lists.timeouts, s.loop.lists.deletion);
  }
}
