/** What the actions of a run tell by themselves: which objects live, what was posted to them, what their
    handlers were given, and which timers were registered for them. */
module Histories {
  import opened EventLoop

  // ---- objects and events -----------------------------------------------------------------------

  /** The events that the actions post to o, in order. */
  function PostedTo(acts: seq<Action>, o: Obj): seq<Event> {
    if acts == [] then []
    else
      var a := acts[|acts| - 1];
      PostedTo(acts[..|acts| - 1], o) + if a.Notifier? && a.n.Post? && a.n.o == o then [a.n.e] else []
  }

  /** The objects that live: created and not destroyed. */
  predicate Lives(acts: seq<Action>, o: Obj) {
    Handler(Create(o)) in acts && Handler(Destroy(o)) !in acts
  }

  /** The event that this step hands to o's handler, if it calls that. */
  function HandedNow(s: State, q: State, o: Obj): seq<Event> {
    if s.pc.Delivering? && s.pc.batch != [] && q.pc.InEvent? && q.pc.o == o then [s.pc.batch[0]] else []
  }

  /** The events that o's handler is called for in this run. */
  ghost function Handed(s: State, acts: seq<Action>, o: Obj): seq<Event>
    requires Runs(s, acts)
    decreases |acts|
  {
    if acts == [] then []
    else HandedNow(s, Step(s, acts[0]), o) + Handed(Step(s, acts[0]), acts[1..], o)
  }

  /** What s records of o is what the actions tell. */
  predicate Recorded(s: State, acts: seq<Action>, o: Obj) {
    && (o in s.hist.alive <==> Lives(acts, o))
    && (o in s.sig.events <==> Handler(Create(o)) in acts)
    && (o in s.sig.events ==> o in s.hist.posted && s.hist.posted[o] == PostedTo(acts, o))
    && (Handler(Create(o)) !in acts ==> PostedTo(acts, o) == [] && Handler(Destroy(o)) !in acts)
  }

  lemma PostedNext(acts: seq<Action>, a: Action, o: Obj)
    ensures PostedTo(acts + [a], o) ==
            PostedTo(acts, o) + if a.Notifier? && a.n.Post? && a.n.o == o then [a.n.e] else []
  {
    assert (acts + [a])[..|acts|] == acts;
  }

  /** Steps of the loop itself neither post nor make nor destroy anything. */
  lemma LoopStepsRecord(s: State, a: Action)
    requires Enabled(s, a) && (a.EventPass? || a.Polling?)
    ensures var q := Step(s, a);
            q.hist.alive == s.hist.alive && q.hist.posted == s.hist.posted && q.sig.events.Keys == s.sig.events.Keys
  {
    hide SortedKeys, Filter, PollPc, PollLists;
  }

  lemma NotifyRecords(s: State, n: Notify, acts: seq<Action>, o: Obj)
    requires CanNotify(s, n) && Recorded(s, acts, o)
    ensures Recorded(NotifyStep(s, n), acts + [Notifier(n)], o)
  {
    PostedNext(acts, Notifier(n), o);
    hide PostedTo;
    assert forall b :: b in acts + [Notifier(n)] <==> b in acts || b == Notifier(n);
  }

  lemma WorkRecords(s: State, w: Work, acts: seq<Action>, o: Obj)
    requires CanWork(s, w) && Recorded(s, acts, o) && s.sig.events.Keys == s.hist.posted.Keys
    ensures Recorded(Step(s, Handler(w)), acts + [Handler(w)], o)
  {
    PostedNext(acts, Handler(w), o);
    hide PostedTo, WorkLists;
    assert forall b :: b in acts + [Handler(w)] <==> b in acts || b == Handler(w);
  }

  lemma StepRecords(s: State, a: Action, acts: seq<Action>, o: Obj)
    requires Inv(s) && Enabled(s, a) && Recorded(s, acts, o)
    ensures Recorded(Step(s, a), acts + [a], o)
  {
    hide PostedTo, AllCovered, TokensBalance, WakeupSignalled, Lifetimes, PassStep, PollPc, PollLists, WorkLists;
    hide WorkHistory, NotifyStep, CanNotify, CanPass, CanPoll, CanWork;
    match a {
      case Notifier(n) => NotifyRecords(s, n, acts, o);
      case Handler(w) => WorkRecords(s, w, acts, o);
      case _ =>
        LoopStepsRecord(s, a);
        PostedNext(acts, a, o);
        assert forall b :: b in acts + [a] <==> b in acts || b == a;
    }
  }

  /** What the step adds to what o's handler was given. */
  lemma StepHands(s: State, a: Action, o: Obj)
    requires Inv(s) && Enabled(s, a) && o in s.hist.delivered
    ensures o in Step(s, a).hist.delivered
    ensures Step(s, a).hist.delivered[o] == s.hist.delivered[o] + HandedNow(s, Step(s, a), o)
  {
    hide AllCovered, TokensBalance, WakeupSignalled, Registered, Settled, SortedKeys, Filter, RemoveObj;
    hide PollPc, PollLists, WorkLists;
    assert s.sig.events.Keys == s.hist.delivered.Keys;
    assert s.pc.Delivering? ==> s.pc.batch != [];
  }

  lemma Born(s: State, a: Action, o: Obj)
    requires Inv(s) && Enabled(s, a) && o !in s.hist.delivered
    ensures HandedNow(s, Step(s, a), o) == []
    ensures o in Step(s, a).hist.delivered ==> Step(s, a).hist.delivered[o] == []
  {
    hide AllCovered, TokensBalance, WakeupSignalled, Registered, Settled, SortedKeys, Filter, RemoveObj;
    hide PollPc, PollLists, WorkLists;
    assert s.sig.events.Keys == s.hist.delivered.Keys;
  }

  lemma {:induction false} RunRecords(s: State, acts: seq<Action>, before: seq<Action>, o: Obj)
    requires Inv(s) && Runs(s, acts) && Recorded(s, before, o)
    ensures Recorded(After(s, acts), before + acts, o)
    decreases |acts|
  {
    hide Inv, Enabled, Step, Recorded;
    if acts == [] {
      assert before + [] == before;
    } else {
      StepKeeps(s, acts[0]);
      StepRecords(s, acts[0], before, o);
      RunRecords(Step(s, acts[0]), acts[1..], before + [acts[0]], o);
      assert before + [acts[0]] + acts[1..] == before + acts;
    }
  }

  lemma {:induction false} RunHands(s: State, acts: seq<Action>, o: Obj)
    requires Inv(s) && Runs(s, acts)
    ensures var q := After(s, acts); var was := if o in s.hist.delivered then s.hist.delivered[o] else [];
            o in q.hist.delivered ==> q.hist.delivered[o] == was + Handed(s, acts, o)
    ensures o !in After(s, acts).hist.delivered ==> o !in s.hist.delivered
    decreases |acts|
  {
    hide Inv, Enabled, Step, HandedNow;
    if acts == [] {
      assert o in s.hist.delivered ==> s.hist.delivered[o] + [] == s.hist.delivered[o];
    } else {
      var q := Step(s, acts[0]);
      StepKeeps(s, acts[0]);
      if o in s.hist.delivered {
        StepHands(s, acts[0], o);
        assert q.hist.delivered[o] + Handed(q, acts[1..], o) == s.hist.delivered[o] + Handed(s, acts, o);
      } else {
        Born(s, acts[0], o);
        assert Handed(s, acts, o) == Handed(q, acts[1..], o);
        assert [] + Handed(q, acts[1..], o) == Handed(q, acts[1..], o);
      }
      RunHands(q, acts[1..], o);
    }
  }

  lemma StartRecords(o: Obj)
    ensures Inv(INIT) && Recorded(INIT, [], o) && o !in INIT.hist.delivered
  {
    InitInv();
  }

  /** In every run an object lives from its creation to its destruction, what is recorded as posted to it is what
      the actions post, and what is recorded as delivered is what its handler is called for: a first part of
      what was posted, in order. */
  lemma HandedAsPosted(acts: seq<Action>, o: Obj)
    requires Runs(INIT, acts)
    ensures var s := After(INIT, acts);
            && (o in s.hist.alive <==> Lives(acts, o))
            && (Handler(Create(o)) in acts ==>
                  && o in s.hist.posted && s.hist.posted[o] == PostedTo(acts, o)
                  && o in s.hist.delivered && s.hist.delivered[o] == Handed(INIT, acts, o)
                  && Handed(INIT, acts, o) <= PostedTo(acts, o))
  {
    StartRecords(o);
    RunRecords(INIT, acts, [], o);
    RunHands(INIT, acts, o);
    RunKeeps(INIT, acts);
    assert [] + acts == acts && [] + Handed(INIT, acts, o) == Handed(INIT, acts, o);
    var s := After(INIT, acts);
    assert Recorded(s, acts, o);
    assert InOrder(s.sig, s.pc, s.hist);
  }

  // ---- nobody is kept from acting -------------------------------------------------------------------

  /** In every run, a thread that is not in notify can begin it for any live object, one that has queued its event
      can put the object up, and one that owes the token can write it; and in a handler, and before the loop
      starts, objects can be made, destroyed, and registered for descriptors. */
  lemma NobodyIsBlocked(acts: seq<Action>, t: Tid, o: Obj, e: Event, fd: Fd)
    requires Runs(INIT, acts)
    ensures var s := After(INIT, acts);
            && (Lives(acts, o) && PhaseOf(s.sig.notifiers, t) == Idle ==> Enabled(s, Notifier(Post(t, o, e))))
            && (PhaseOf(s.sig.notifiers, t).Posted? ==> Enabled(s, Notifier(Enlist(t))))
            && (PhaseOf(s.sig.notifiers, t) == MustWrite ==> Enabled(s, Notifier(WriteToken(t))))
            && (InHandler(s.pc) || s.pc.Top? ==>
                  && (Handler(Create(o)) !in acts ==> Enabled(s, Handler(Create(o))))
                  && (Lives(acts, o) ==> Enabled(s, Handler(Destroy(o))) && Enabled(s, Handler(RegisterR(o, fd)))
                                         && Enabled(s, Handler(RegisterW(o, fd))))
                  && Enabled(s, Handler(DeregisterR(fd))) && Enabled(s, Handler(DeregisterW(fd))))
  {
    StartRecords(o);
    RunRecords(INIT, acts, [], o);
    RunKeeps(INIT, acts);
    assert [] + acts == acts;
    var s := After(INIT, acts);
    assert Recorded(s, acts, o);
    assert s.sig.events.Keys == s.hist.posted.Keys;
  }

  // ---- a pass can always be finished ----------------------------------------------------------------

  predicate OwnSteps(acts: seq<Action>) {
    forall i :: 0 <= i < |acts| ==> acts[i].EventPass?
  }

  /** The steps of a pass, taken one after the other, to the reading of the token. */
  ghost predicate Finishes(s: State, acts: seq<Action>) {
    Runs(s, acts) && OwnSteps(acts) && InOnePass(s, acts) && After(s, acts).pc == Draining([])
  }

  lemma NextOfPass(s: State) returns (p: Pass)
    requires Inv(s) && InWindow(s.pc) && s.pc != Draining([])
    ensures CanPass(s, p) && InWindow(PassStep(s, p).pc) && (s.pc.Cleared? || !PassStep(s, p).pc.Cleared?)
    ensures p != StartEvents && p != ReceiveToken
  {
    if s.pc.Cleared? {
      var order := Enumerate(Awake(s));
      p := Copy(order);
    } else if s.pc.Draining? {
      assert s.pc.rest[0] in s.pc.rest;
      p := NextObject;
    } else {
      p := if s.pc.Delivering? then Deliver else EventDone;
    }
  }

  lemma FinishedNow(s: State)
    requires s.pc == Draining([])
    ensures Finishes(s, [])
  {
  }

  lemma OneStepMore(s: State, p: Pass, rest: seq<Action>)
    requires InWindow(s.pc) && CanPass(s, p) && Finishes(PassStep(s, p), rest)
    ensures Finishes(s, [EventPass(p)] + rest)
  {
    var acts := [EventPass(p)] + rest;
    assert acts[1..] == rest && Step(s, acts[0]) == PassStep(s, p);
  }

  lemma {:induction false} PassCanFinish(s: State) returns (acts: seq<Action>)
    requires Inv(s) && InWindow(s.pc)
    ensures Finishes(s, acts)
    decreases s.pc.Cleared?, |ToDrain(s.pc)|, CallsLeft(s.pc)
  {
    hide Inv, CanPass, PassStep, Finishes, InWindow;
    if s.pc == Draining([]) {
      FinishedNow(s);
      acts := [];
    } else {
      var p := NextOfPass(s);
      var a := EventPass(p);
      StepKeeps(s, a);
      assert Step(s, a) == PassStep(s, p) && Enabled(s, a);
      GetsCloser(s, p);
      var rest := PassCanFinish(PassStep(s, p));
      OneStepMore(s, p, rest);
      acts := [a] + rest;
    }
  }

  lemma GetsCloser(s: State, p: Pass)
    requires CanPass(s, p) && InWindow(s.pc) && p != StartEvents && p != ReceiveToken
    ensures var q := PassStep(s, p);
            if s.pc.Cleared? then !q.pc.Cleared?
            else !q.pc.Cleared? && (|ToDrain(q.pc)| < |ToDrain(s.pc)|
                 || (|ToDrain(q.pc)| == |ToDrain(s.pc)| && CallsLeft(q.pc) < CallsLeft(s.pc)))
  {
  }

  lemma {:induction false} RunsOn(s: State, a: seq<Action>, b: seq<Action>)
    requires Runs(s, a) && Runs(After(s, a), b)
    ensures Runs(s, a + b) && After(s, a + b) == After(After(s, a), b)
    decreases |a|
  {
    hide Enabled, Step;
    if a == [] {
      assert a + b == b;
    } else {
      assert (a + b)[1..] == a[1..] + b;
      RunsOn(Step(s, a[0]), a[1..], b);
    }
  }

  lemma {:induction false} OwnStepsPostNothing(before: seq<Action>, acts: seq<Action>, o: Obj)
    requires OwnSteps(acts)
    ensures PostedTo(before + acts, o) == PostedTo(before, o)
    ensures Lives(before + acts, o) == Lives(before, o)
    ensures Handler(Create(o)) in before + acts <==> Handler(Create(o)) in before
    decreases |acts|
  {
    if acts == [] {
      assert before + acts == before;
    } else {
      var most, a := acts[..|acts| - 1], acts[|acts| - 1];
      assert a.EventPass? && before + acts == (before + most) + [a];
      OwnStepsPostNothing(before, most, o);
      PostedNext(before + most, a, o);
    }
  }

  /** The loop thread asleep with something queued for o, and nobody in the middle of notifying. */
  ghost predicate AsleepWithWork(acts: seq<Action>, o: Obj)
    requires Runs(INIT, acts)
  {
    var s := After(INIT, acts);
    && s.pc.Armed? && Lives(acts, o) && o in s.sig.events && s.sig.events[o] != []
    && forall t :: t in s.sig.notifiers ==> s.sig.notifiers[t] != Posted(o) && s.sig.notifiers[t] != MustWrite
  }

  lemma WakesUp(s: State, o: Obj)
    requires Inv(s) && s.pc.Armed? && s.sig.tokens > 0
    requires o in s.hist.alive && o in s.sig.events && s.sig.events[o] != []
    requires forall t :: t in s.sig.notifiers ==> s.sig.notifiers[t] != Posted(o)
    ensures var a := EventPass(StartEvents);
            Enabled(s, a) && Step(s, a).pc.Cleared? && o in Step(s, a).sig.wakeup && Step(s, a).hist == s.hist
    ensures o in s.hist.posted
  {
    hide TokensBalance, WakeupSignalled, Lifetimes;
    assert Covered(s.sig, s.pc, o);
  }

  lemma OneStep(s: State, a: Action)
    requires Enabled(s, a)
    ensures Runs(s, [a]) && After(s, [a]) == Step(s, a)
  {
    hide Enabled, Step;
    var q := Step(s, a);
    assert [a][1..] == [] && Runs(q, []) && After(q, []) == q;
  }

  lemma Begun(acts: seq<Action>, o: Obj)
    requires Runs(INIT, acts) && AsleepWithWork(acts, o)
    ensures Runs(INIT, acts + [EventPass(StartEvents)])
    ensures var q := After(INIT, acts + [EventPass(StartEvents)]);
            Inv(q) && q.pc.Cleared? && o in q.hist.alive && o in q.sig.wakeup && o in q.hist.posted
  {
    var s, a := After(INIT, acts), EventPass(StartEvents);
    hide Inv, Step, Enabled, Runs, After, PostedTo, Handed, Lives;
    HandedAsPosted(acts, o);
    InitInv();
    RunKeeps(INIT, acts);
    NoLostWakeup(acts, o);
    WakesUp(s, o);
    OneStep(s, a);
    RunsOn(INIT, acts, [a]);
    StepKeeps(s, a);
  }

  /** By the end of the pass o's handler has been called for all that had been posted to o. */
  lemma ServedByThePass(acts: seq<Action>, rest: seq<Action>, o: Obj)
    requires Runs(INIT, acts) && AsleepWithWork(acts, o)
    requires Runs(INIT, acts + [EventPass(StartEvents)]) && Finishes(After(INIT, acts + [EventPass(StartEvents)]), rest)
    requires var q := After(INIT, acts + [EventPass(StartEvents)]);
             q.pc.Cleared? && o in q.hist.alive && o in q.sig.wakeup && o in q.hist.posted
    ensures var more := [EventPass(StartEvents)] + rest;
            OwnSteps(more) && Runs(INIT, acts + more) && Handed(INIT, acts + more, o) == PostedTo(acts, o)
  {
    var begun := acts + [EventPass(StartEvents)];
    var more := [EventPass(StartEvents)] + rest;
    hide Inv, Step, Enabled, Runs, After, InOnePass, PostedTo, Handed;
    PassServesTheAwake(begun, rest, o);
    RunsOn(INIT, begun, rest);
    assert begun + rest == acts + more;
    OwnStepsPostNothing(acts, more, o);
    OwnStepsPostNothing(acts, [EventPass(StartEvents)], o);
    HandedAsPosted(begun, o);
    HandedAsPosted(acts + more, o);
  }

  /** In every run: when the loop thread sleeps and something is queued for a live object, and nobody is in the middle
      of notifying, it can wake up, and by steps of its own alone come to hand over to the object's handler all
      that was ever posted to the object. */
  lemma WakesAndServes(acts: seq<Action>, o: Obj)
    requires Runs(INIT, acts) && AsleepWithWork(acts, o)
    ensures exists more ::
              OwnSteps(more) && Runs(INIT, acts + more) && Handed(INIT, acts + more, o) == PostedTo(acts, o)
  {
    hide *;
    Begun(acts, o);
    PassIsWindow(After(INIT, acts + [EventPass(StartEvents)]));
    var rest := PassCanFinish(After(INIT, acts + [EventPass(StartEvents)]));
    ServedByThePass(acts, rest, o);
    var more := [EventPass(StartEvents)] + rest;
    assert OwnSteps(more) && Runs(INIT, acts + more) && Handed(INIT, acts + more, o) == PostedTo(acts, o);
  }

  lemma PassIsWindow(s: State)
    ensures s.pc.Cleared? ==> InWindow(s.pc)
  {
  }
}
