/** Runs of the event loop in which an exception out of a handler loses events, wakeups and timers. */
module LoopInputs {
  import opened EventLoop
  import opened Throwing
  import opened TimerLoop
  import T = Timers

  // ---- an event handler throws ------------------------------------------------------------------

  /** Two objects are made; o is notified once and p twice; the loop thread wakes up, looks at p first and is
      in p's handler for the first of its events. */
  function EventRun(o: Obj, p: Obj, t: Tid, e: Event, f: Event): seq<Move> {
    Notified(o, p, t, e, f) + Woken(o, p)
  }

  function Notified(o: Obj, p: Obj, t: Tid, e: Event, f: Event): seq<Move> {
    [Act(Handler(Create(o))), Act(Handler(Create(p))),
     Act(Notifier(Post(t, o, e))), Act(Notifier(Enlist(t))), Act(Notifier(WriteToken(t))),
     Act(Notifier(Post(t, p, e))), Act(Notifier(Enlist(t))), Act(Notifier(Post(t, p, f))), Act(Notifier(Enlist(t)))]
  }

  function Woken(o: Obj, p: Obj): seq<Move> {
    [Act(Polling(Arm([]))), Act(EventPass(StartEvents)), Act(EventPass(Copy([p, o]))), Act(EventPass(NextObject)),
     Act(EventPass(Deliver))]
  }

  /** The objects made and their events queued. */
  function Queued(o: Obj, p: Obj, t: Tid, e: Event, f: Event): State {
    State(Signals(map[o := [e], p := [e, f]], {o, p}, true, 1, map[t := Idle]),
          Lists({o, p}, {}, {}, map[], map[], []), Top,
          History({o, p}, map[o := [e], p := [e, f]], map[o := [], p := []]))
  }

  /** In p's handler. */
  function Handling(o: Obj, p: Obj, t: Tid, e: Event, f: Event): State {
    State(Signals(map[o := [e], p := []], {}, false, 1, map[t := Idle]),
          Lists({}, {o, p}, {}, map[], map[], []), InEvent(p, [f], [o]),
          History({o, p}, map[o := [e], p := [e, f]], map[o := [], p := [e]]))
  }

  lemma MovesCons(s: State, m: Move, ms: seq<Move>)
    requires CanMove(s, m) && Moves(Moved(s, m), ms)
    ensures Moves(s, [m] + ms) && Reached(s, [m] + ms) == Reached(Moved(s, m), ms)
  {
    hide CanMove, Moved;
    assert ([m] + ms)[1..] == ms;
  }

  lemma {:induction false} MovesAppend(s: State, a: seq<Move>, b: seq<Move>)
    requires Moves(s, a) && Moves(Reached(s, a), b)
    ensures Moves(s, a + b) && Reached(s, a + b) == Reached(Reached(s, a), b)
    decreases |a|
  {
    hide CanMove, Moved;
    if a == [] {
      assert a + b == b;
    } else {
      assert (a + b)[1..] == a[1..] + b;
      MovesAppend(Moved(s, a[0]), a[1..], b);
    }
  }

  lemma MovesNone(s: State)
    ensures Moves(s, []) && Reached(s, []) == s
  {
  }

  /** One step of the loop or of a notifier, to this state. */
  ghost predicate Leads(s: State, a: Action, q: State) {
    Enabled(s, a) && Step(s, a) == q
  }

  lemma MoveLeads(s: State, a: Action, q: State, ms: seq<Move>)
    requires Leads(s, a, q) && Moves(q, ms)
    ensures Moves(s, [Act(a)] + ms) && Reached(s, [Act(a)] + ms) == Reached(q, ms)
  {
    hide Enabled, Step, Moves, Reached;
    MovesCons(s, Act(a), ms);
  }

  /** o or p, made but not yet told anything. */
  function Made(o: Obj, p: Obj): State {
    State(Signals(map[o := [], p := []], {}, false, 0, map[]), Lists({o, p}, {}, {}, map[], map[], []), Top,
          History({o, p}, map[o := [], p := []], map[o := [], p := []]))
  }

  lemma Making(o: Obj, p: Obj)
    requires o != p
    ensures Moves(INIT, [Act(Handler(Create(o))), Act(Handler(Create(p)))])
    ensures Reached(INIT, [Act(Handler(Create(o))), Act(Handler(Create(p)))]) == Made(o, p)
  {
    var a, b := Handler(Create(o)), Handler(Create(p));
    var s := Step(INIT, a);
    assert Leads(INIT, a, s) && Leads(s, b, Made(o, p));
    hide Leads, Moves, Reached, Enabled, Step;
    MovesNone(Made(o, p));
    MoveLeads(s, b, Made(o, p), []);
    MoveLeads(INIT, a, s, [Act(b)]);
    assert [Act(b)] + [] == [Act(b)] && [Act(a)] + [Act(b)] == [Act(a), Act(b)];
  }

  /** o has been told, and the token is in the pipe. */
  function OneTold(o: Obj, p: Obj, t: Tid, e: Event): State {
    State(Signals(map[o := [e], p := []], {o}, true, 1, map[t := Idle]),
          Lists({o, p}, {}, {}, map[], map[], []), Top,
          History({o, p}, map[o := [e], p := []], map[o := [], p := []]))
  }

  lemma Telling(o: Obj, p: Obj, t: Tid, e: Event)
    requires o != p
    ensures var ms := [Act(Notifier(Post(t, o, e))), Act(Notifier(Enlist(t))), Act(Notifier(WriteToken(t)))];
            Moves(Made(o, p), ms) && Reached(Made(o, p), ms) == OneTold(o, p, t, e)
  {
    var a, b, c := Notifier(Post(t, o, e)), Notifier(Enlist(t)), Notifier(WriteToken(t));
    var s, q := Made(o, p), OneTold(o, p, t, e);
    var s1 := Step(s, a);
    var s2 := Step(s1, b);
    assert [] + [e] == [e];
    assert s1.hist.posted == q.hist.posted && s1.sig.events == q.sig.events;
    assert Leads(s, a, s1) && Leads(s1, b, s2) && Leads(s2, c, q);
    hide Leads, Moves, Reached, Enabled, Step;
    MovesNone(q);
    MoveLeads(s2, c, q, []);
    MoveLeads(s1, b, s2, [Act(c)]);
    MoveLeads(s, a, s1, [Act(b), Act(c)]);
    assert [Act(c)] + [] == [Act(c)] && [Act(b)] + [Act(c)] == [Act(b), Act(c)];
    assert [Act(a)] + [Act(b), Act(c)] == [Act(a), Act(b), Act(c)];
  }

  /** p has been told of one event and put up. */
  function BothTold(o: Obj, p: Obj, t: Tid, e: Event): State {
    State(Signals(map[o := [e], p := [e]], {o, p}, true, 1, map[t := Idle]),
          Lists({o, p}, {}, {}, map[], map[], []), Top,
          History({o, p}, map[o := [e], p := [e]], map[o := [], p := []]))
  }

  lemma TellingOther(o: Obj, p: Obj, t: Tid, e: Event)
    requires o != p
    ensures var ms := [Act(Notifier(Post(t, p, e))), Act(Notifier(Enlist(t)))];
            Moves(OneTold(o, p, t, e), ms) && Reached(OneTold(o, p, t, e), ms) == BothTold(o, p, t, e)
  {
    var a, b := Notifier(Post(t, p, e)), Notifier(Enlist(t));
    var s, q := OneTold(o, p, t, e), BothTold(o, p, t, e);
    var s1 := Step(s, a);
    assert [] + [e] == [e];
    assert s1.hist.posted == q.hist.posted && s1.sig.events == q.sig.events;
    assert Leads(s, a, s1) && Leads(s1, b, q);
    hide Leads, Moves, Reached, Enabled, Step;
    MovesNone(q);
    MoveLeads(s1, b, q, []);
    MoveLeads(s, a, s1, [Act(b)]);
    assert [Act(b)] + [] == [Act(b)] && [Act(a)] + [Act(b)] == [Act(a), Act(b)];
  }

  lemma TellingTwice(o: Obj, p: Obj, t: Tid, e: Event, f: Event)
    requires o != p
    ensures var ms := [Act(Notifier(Post(t, p, f))), Act(Notifier(Enlist(t)))];
            Moves(BothTold(o, p, t, e), ms) && Reached(BothTold(o, p, t, e), ms) == Queued(o, p, t, e, f)
  {
    var a, b := Notifier(Post(t, p, f)), Notifier(Enlist(t));
    var s, q := BothTold(o, p, t, e), Queued(o, p, t, e, f);
    var s1 := Step(s, a);
    assert [e] + [f] == [e, f];
    assert s1.hist.posted == q.hist.posted && s1.sig.events == q.sig.events;
    assert Leads(s, a, s1) && Leads(s1, b, q);
    hide Leads, Moves, Reached, Enabled, Step;
    MovesNone(q);
    MoveLeads(s1, b, q, []);
    MoveLeads(s, a, s1, [Act(b)]);
    assert [Act(b)] + [] == [Act(b)] && [Act(a)] + [Act(b)] == [Act(a), Act(b)];
  }

  lemma Waking(o: Obj, p: Obj, t: Tid, e: Event, f: Event)
    requires o != p
    ensures Moves(Queued(o, p, t, e, f), Woken(o, p))
            && Reached(Queued(o, p, t, e, f), Woken(o, p)) == Handling(o, p, t, e, f)
  {
    var a, b, c := Polling(Arm([])), EventPass(StartEvents), EventPass(Copy([p, o]));
    var d, g := EventPass(NextObject), EventPass(Deliver);
    var s, q := Queued(o, p, t, e, f), Handling(o, p, t, e, f);
    var s1 := s.(lists := Lists({}, {o, p}, {}, map[], map[], []), pc := Armed);
    var s2 := s1.(sig := s1.sig.(flag := false), pc := Cleared);
    var s3 := s2.(sig := s2.sig.(wakeup := {}), pc := Draining([p, o]));
    var s4 := s3.(sig := s3.sig.(events := map[o := [e], p := []]), pc := Delivering(p, [e, f], [o]));
    Arming(s, s1, o, p);
    Starting(s1, s2);
    Copying(s2, s3, o, p);
    Taking(s3, s4, o, p, e, f);
    Delivered(s4, q, o, p, e, f);
    hide Leads, Moves, Reached, Enabled, Step;
    MovesNone(q);
    MoveLeads(s4, g, q, []);
    MoveLeads(s3, d, s4, [Act(g)]);
    MoveLeads(s2, c, s3, [Act(d), Act(g)]);
    MoveLeads(s1, b, s2, [Act(c), Act(d), Act(g)]);
    MoveLeads(s, a, s1, [Act(b), Act(c), Act(d), Act(g)]);
    assert [Act(g)] + [] == [Act(g)] && [Act(d)] + [Act(g)] == [Act(d), Act(g)];
    assert [Act(c)] + [Act(d), Act(g)] == [Act(c), Act(d), Act(g)];
    assert [Act(b)] + [Act(c), Act(d), Act(g)] == [Act(b), Act(c), Act(d), Act(g)];
    assert [Act(a)] + [Act(b), Act(c), Act(d), Act(g)] == Woken(o, p);
  }

  lemma Arming(s: State, q: State, o: Obj, p: Obj)
    requires s.pc.Top? && s.lists == Lists({o, p}, {}, {}, map[], map[], [])
    requires q == s.(lists := Lists({}, {o, p}, {}, map[], map[], []), pc := Armed)
    ensures Leads(s, Polling(Arm([])), q)
  {
    assert {} + {o, p} - {} == {o, p};
  }

  lemma Starting(s: State, q: State)
    requires s.pc.Armed? && s.sig.tokens > 0 && q == s.(sig := s.sig.(flag := false), pc := Cleared)
    ensures Leads(s, EventPass(StartEvents), q)
  {
  }

  lemma Copying(s: State, q: State, o: Obj, p: Obj)
    requires o != p && s.pc.Cleared? && s.sig.wakeup == {o, p} && s.lists.deletion == {} && s.lists.main == {o, p}
    requires q == s.(sig := s.sig.(wakeup := {}), pc := Draining([p, o]))
    ensures Leads(s, EventPass(Copy([p, o])), q)
  {
    assert Awake(s) == {o, p} && Elements([p, o]) == {o, p} && |{o, p}| == 2;
  }

  lemma Taking(s: State, q: State, o: Obj, p: Obj, e: Event, f: Event)
    requires o != p && s.pc == Draining([p, o]) && s.sig.events == map[o := [e], p := [e, f]] && s.lists.deletion == {}
    requires q == s.(sig := s.sig.(events := map[o := [e], p := []]), pc := Delivering(p, [e, f], [o]))
    ensures Leads(s, EventPass(NextObject), q)
  {
    assert [p, o][1..] == [o];
    assert s.sig.events[p := []] == q.sig.events;
  }

  lemma Delivered(s: State, q: State, o: Obj, p: Obj, e: Event, f: Event)
    requires o != p && s.pc == Delivering(p, [e, f], [o]) && s.hist.delivered == map[o := [], p := []]
    requires q == s.(hist := s.hist.(delivered := map[o := [], p := [e]]), pc := InEvent(p, [f], [o]))
    ensures Leads(s, EventPass(Deliver), q)
  {
    assert [e, f][1..] == [f] && [] + [e] == [e];
    assert s.hist.delivered[p := [e]] == q.hist.delivered;
  }

  lemma EventRunIs(o: Obj, p: Obj, t: Tid, e: Event, f: Event)
    requires o != p
    ensures Moves(INIT, EventRun(o, p, t, e, f)) && Reached(INIT, EventRun(o, p, t, e, f)) == Handling(o, p, t, e, f)
  {
    hide Moves, Reached, Made, OneTold, BothTold, Queued, Handling;
    var a := [Act(Handler(Create(o))), Act(Handler(Create(p)))];
    var b := [Act(Notifier(Post(t, o, e))), Act(Notifier(Enlist(t))), Act(Notifier(WriteToken(t)))];
    var c := [Act(Notifier(Post(t, p, e))), Act(Notifier(Enlist(t)))];
    var d := [Act(Notifier(Post(t, p, f))), Act(Notifier(Enlist(t)))];
    Making(o, p);
    Telling(o, p, t, e);
    MovesAppend(INIT, a, b);
    TellingOther(o, p, t, e);
    MovesAppend(INIT, a + b, c);
    TellingTwice(o, p, t, e, f);
    MovesAppend(INIT, a + b + c, d);
    Waking(o, p, t, e, f);
    MovesAppend(INIT, a + b + c + d, Woken(o, p));
    assert a + b + c + d == Notified(o, p, t, e, f);
  }

  /** The exception leaves o with an event in its queue, alive, and with nobody to look at it: whatever happens
      next, nothing is delivered to it until somebody notifies it again. p loses its second event: posted,
      but neither delivered nor queued. */
  lemma ThrowLosesEvents(o: Obj, p: Obj, t: Tid, e: Event, f: Event, after: seq<Action>)
    requires o != p && Runs(Thrown(Handling(o, p, t, e, f)), after) && NoPosts(after, o)
    ensures Moves(INIT, EventRun(o, p, t, e, f)) && Reached(INIT, EventRun(o, p, t, e, f)) == Handling(o, p, t, e, f)
    ensures var s := Thrown(Handling(o, p, t, e, f));
            && o in s.hist.alive && o in s.sig.events && s.sig.events[o] == [e]
            && p in s.hist.alive && p in s.sig.events && p in s.hist.posted && p in s.hist.delivered
            && s.hist.posted[p] == [e, f] && s.hist.delivered[p] == [e] && s.sig.events[p] == []
    ensures var q := After(Thrown(Handling(o, p, t, e, f)), after); o in q.hist.delivered && q.hist.delivered[o] == []
  {
    EventRunIs(o, p, t, e, f);
    hide Moves, Reached, Runs, NoPosts, After, EventRun;
    ThrowForgetsIff(EventRun(o, p, t, e, f), after, o);
  }

  // ---- a timeout handler throws ------------------------------------------------------------------

  const FIRST := T.Ticket(T.Timer(5, 1), 0)
  const SECOND := T.Ticket(T.Timer(5, 2), 1)

  /** An object is made and two timers registered for it; both are due, and its handler is called for one. */
  function TimerRun(o: Obj): seq<Deed> {
    [Loop(Handler(Create(o))), OfTimer(o, T.Register(1, 0, 5)), OfTimer(o, T.Register(2, 0, 5)),
     Loop(Polling(Arm([o]))), Loop(Polling(StartTimeouts)), TakeOut(5), Fire]
  }

  /** The loop with o alive and these timers, lists and control. */
  function Ticking(o: Obj, l: Lists, pc: Control, w: T.World, batch: seq<T.Ticket>, fired: seq<T.Ticket>): Timed {
    var h := History({o}, map[o := []], map[o := []]);
    Timed(State(Signals(map[o := []], {}, false, 0, map[]), l, pc, h), map[o := w], batch, map[o := fired])
  }

  ghost predicate DeedLeads(s: Timed, d: Deed, q: Timed) {
    CanDo(s, d) && Do(s, d) == q
  }

  lemma DeedFirst(s: Timed, d: Deed, q: Timed, ds: seq<Deed>)
    requires DeedLeads(s, d, q) && Feasible(q, ds)
    ensures Feasible(s, [d] + ds) && Outcome(s, [d] + ds) == Outcome(q, ds)
  {
    hide CanDo, Do;
    assert ([d] + ds)[1..] == ds;
  }

  lemma DeedNone(s: Timed)
    ensures Feasible(s, []) && Outcome(s, []) == s
  {
  }

  const ONE := T.World([FIRST], [], multiset{}, [FIRST], 5)
  const TWO := T.World([FIRST, SECOND], [], multiset{}, [FIRST, SECOND], 5)
  const OUT := T.World([], [FIRST, SECOND], multiset{}, [FIRST, SECOND], 5)

  function Inserted(o: Obj): Lists { Lists({o}, {}, {}, map[], map[], []) }

  function InMain(o: Obj, timeouts: seq<Obj>): Lists { Lists({}, {o}, {}, map[], map[], timeouts) }

  lemma Born(o: Obj)
    ensures DeedLeads(START, Loop(Handler(Create(o))), Ticking(o, Inserted(o), Top, T.NO_TIMERS, [], []))
  {
    assert {} + {o} == {o};
  }

  lemma Registering()
    ensures T.Step(T.NO_TIMERS, T.Register(1, 0, 5)) == ONE && T.Step(ONE, T.Register(2, 0, 5)) == TWO
  {
    assert T.Join([], FIRST) == [FIRST] && [] + [FIRST] == [FIRST] && [FIRST] + [SECOND] == [FIRST, SECOND];
    assert [FIRST][1..] == [] && T.Join([], SECOND) == [SECOND];
    assert T.Join([FIRST], SECOND) == [FIRST, SECOND];
  }

  lemma GetsTimers(o: Obj)
    ensures DeedLeads(Ticking(o, Inserted(o), Top, T.NO_TIMERS, [], []), OfTimer(o, T.Register(1, 0, 5)),
                      Ticking(o, Inserted(o), Top, ONE, [], []))
    ensures DeedLeads(Ticking(o, Inserted(o), Top, ONE, [], []), OfTimer(o, T.Register(2, 0, 5)),
                      Ticking(o, Inserted(o), Top, TWO, [], []))
  {
    hide T.Step;
    Registering();
    assert map[o := T.NO_TIMERS][o := ONE] == map[o := ONE] && map[o := ONE][o := TWO] == map[o := TWO];
  }

  lemma GetsArmed(o: Obj)
    ensures DeedLeads(Ticking(o, Inserted(o), Top, TWO, [], []), Loop(Polling(Arm([o]))),
                      Ticking(o, InMain(o, [o]), Armed, TWO, [], []))
    ensures DeedLeads(Ticking(o, InMain(o, [o]), Armed, TWO, [], []), Loop(Polling(StartTimeouts)),
                      Ticking(o, InMain(o, []), Timeouts([o]), TWO, [], []))
  {
    assert {} + {o} - {} == {o} && Elements([o]) == {o};
    assert [o][1..] == [] && Filter([o][1..], {}) == [] && Filter([o], {}) == [o];
  }

  lemma Expiring()
    ensures T.Ripe(TWO.pending, 5) == 2 && T.Step(TWO, T.Expire(5)) == OUT
    ensures TWO.pending[..2] == [FIRST, SECOND] && T.Kinds([FIRST, SECOND]) == [1, 2]
  {
    assert TWO.pending[1..] == [SECOND] && [SECOND][1..] == [];
    assert T.Ripe([SECOND], 5) == 1 + T.Ripe([], 5);
    assert TWO.pending[2..] == [] && TWO.pending[..2] == [FIRST, SECOND] && [] + [FIRST, SECOND] == [FIRST, SECOND];
  }

  lemma TakenOut(o: Obj)
    ensures DeedLeads(Ticking(o, InMain(o, []), Timeouts([o]), TWO, [], []), TakeOut(5),
                      Ticking(o, InMain(o, []), Firing(o, [1, 2], []), OUT, [FIRST, SECOND], []))
  {
    hide T.Step, T.Ripe, T.Kinds;
    Expiring();
    assert [o][1..] == [] && map[o := TWO][o := OUT] == map[o := OUT];
  }

  lemma OneFired(o: Obj)
    ensures DeedLeads(Ticking(o, InMain(o, []), Firing(o, [1, 2], []), OUT, [FIRST, SECOND], []), Fire,
                      Ticking(o, InMain(o, []), InTimeout(o, [2], []), OUT, [SECOND], [FIRST]))
  {
    assert [1, 2][1..] == [2] && [FIRST, SECOND][1..] == [SECOND] && [] + [FIRST] == [FIRST];
    assert map[o := []][o := [FIRST]] == map[o := [FIRST]];
  }

  /** The exception loses the second timer: taken out, and never passed to the handler. */
  lemma ThrowLosesTimer(o: Obj)
    ensures Feasible(START, TimerRun(o))
    ensures var s := Outcome(START, TimerRun(o));
            && s.loop.pc.InTimeout? && s.loop.pc.o == o && o in s.loop.hist.alive && s.batch == [SECOND]
            && o in s.timers && o in s.fired && s.timers[o].taken == [FIRST, SECOND] && s.fired[o] == [FIRST]
  {
    hide DeedLeads, Feasible, Outcome;
    var ds := TimerRun(o);
    var s1, s2 := Ticking(o, Inserted(o), Top, T.NO_TIMERS, [], []), Ticking(o, Inserted(o), Top, ONE, [], []);
    var s3, s4 := Ticking(o, Inserted(o), Top, TWO, [], []), Ticking(o, InMain(o, [o]), Armed, TWO, [], []);
    var s5 := Ticking(o, InMain(o, []), Timeouts([o]), TWO, [], []);
    var s6 := Ticking(o, InMain(o, []), Firing(o, [1, 2], []), OUT, [FIRST, SECOND], []);
    var s7 := Ticking(o, InMain(o, []), InTimeout(o, [2], []), OUT, [SECOND], [FIRST]);
    Born(o);
    GetsTimers(o);
    GetsArmed(o);
    TakenOut(o);
    OneFired(o);
    DeedNone(s7);
    DeedFirst(s6, ds[6], s7, []);
    assert [ds[6]] + [] == [ds[6]];
    DeedFirst(s5, ds[5], s6, [ds[6]]);
    assert [ds[5]] + [ds[6]] == [ds[5], ds[6]];
    DeedFirst(s4, ds[4], s5, [ds[5], ds[6]]);
    assert [ds[4]] + [ds[5], ds[6]] == [ds[4], ds[5], ds[6]];
    DeedFirst(s3, ds[3], s4, [ds[4], ds[5], ds[6]]);
    assert [ds[3]] + [ds[4], ds[5], ds[6]] == [ds[3], ds[4], ds[5], ds[6]];
    DeedFirst(s2, ds[2], s3, [ds[3], ds[4], ds[5], ds[6]]);
    assert [ds[2]] + [ds[3], ds[4], ds[5], ds[6]] == [ds[2], ds[3], ds[4], ds[5], ds[6]];
    DeedFirst(s1, ds[1], s2, [ds[2], ds[3], ds[4], ds[5], ds[6]]);
    assert [ds[1]] + [ds[2], ds[3], ds[4], ds[5], ds[6]] == ds[1..];
    DeedFirst(START, ds[0], s1, ds[1..]);
    assert [ds[0]] + ds[1..] == ds;
  }
}
