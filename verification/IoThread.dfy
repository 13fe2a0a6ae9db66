/** The object behind the event loop: the shared fields of one I/O thread, and one method per lock
    region. Every method is proved to take exactly the step the state machine allows it. */
module IoThread {
  import opened EventLoop
  import opened TimerLoop
  import T = Timers

  lemma {:induction false} FilterAppend(xs: seq<Obj>, ys: seq<Obj>, gone: set<Obj>)
    ensures Filter(xs + ys, gone) == Filter(xs, gone) + Filter(ys, gone)
  {
    if xs == [] {
      assert xs + ys == ys;
    } else {
      assert (xs + ys)[1..] == xs[1..] + ys;
      FilterAppend(xs[1..], ys, gone);
    }
  }

  /** Where o stands first in xs. */
  function IndexOf(xs: seq<Obj>, o: Obj): (i: nat)
    requires o in xs
    ensures i < |xs| && xs[i] == o
  {
    if xs[0] == o then 0 else 1 + IndexOf(xs[1..], o)
  }

  class Thread {
    var events: map<Obj, seq<Event>>
    var wakeup: set<Obj>
    var wakeupCalled: bool
    var tokens: int
    var insertion: set<Obj>
    var main: set<Obj>
    var deletion: set<Obj>
    var rfds: map<Fd, Obj>
    var wfds: map<Fd, Obj>
    var timeouts: seq<Obj>
    var timers: map<Obj, T.TimerList>
    ghost var notifiers: map<Tid, Phase>
    ghost var pc: Control
    ghost var hist: History
    ghost var worlds: map<Obj, T.World>
    ghost var batch: seq<T.Ticket>
    ghost var fired: map<Obj, seq<T.Ticket>>

    ghost function Shown(): Lists
      reads this
    {
      Lists(insertion, main, deletion, rfds, wfds, timeouts)
    }

    ghost function View(): State
      reads this
    {
      State(Signals(events, wakeup, wakeupCalled, tokens, notifiers), Shown(), pc, hist)
    }

    ghost function TimedView(): Timed
      reads this
    {
      Timed(View(), worlds, batch, fired)
    }

    /** Each object has a timer list of its own, which holds the timers pending. */
    ghost predicate Ticking()
      reads this`timers, this`worlds, timers.Values
    {
      && timers.Keys == worlds.Keys
      && (forall o, p :: o in timers && p in timers && o != p ==> timers[o] != timers[p])
      && (forall o :: o in timers ==> timers[o].Holds(T.TimersOf(worlds[o].pending)))
    }

    /** The deadline of the first entry of each object that has one. */
    ghost function Heads(): map<Obj, int>
      reads this`timers, timers.Values
    {
      map o | o in timers && timers[o].entries != [] :: timers[o].entries[0].deadline
    }

    constructor ()
      ensures View() == INIT && TimedView() == START && Ticking()
    {
      events, wakeup, wakeupCalled, tokens := map[], {}, false, 0;
      insertion, main, deletion, rfds, wfds, timeouts := {}, {}, {}, map[], map[], [];
      notifiers, pc, hist := map[], Top, History({}, map[], map[]);
      timers, worlds, batch, fired := map[], map[], [], map[];
    }

    // ---- notify, from any thread --------------------------------------------------------------

    /** Under the object's event mutex. */
    method QueueEvent(t: Tid, o: Obj, e: Event)
      requires CanNotify(View(), Post(t, o, e))
      modifies this`events, this`notifiers, this`hist
      ensures View() == NotifyStep(old(View()), Post(t, o, e))
    {
      events := events[o := events[o] + [e]];
      notifiers := notifiers[t := Posted(o)];
      hist := hist.(posted := hist.posted[o := hist.posted[o] + [e]]);
    }

    /** Under the wakeup lock; says whether the caller has to write the token. */
    method RequestWakeup(t: Tid, o: Obj) returns (mustWrite: bool)
      requires PhaseOf(notifiers, t) == Posted(o)
      modifies this`wakeup, this`wakeupCalled, this`notifiers
      ensures View() == NotifyStep(old(View()), Enlist(t))
      ensures mustWrite <==> PhaseOf(notifiers, t) == MustWrite
    {
      wakeup := wakeup + {o};
      if wakeupCalled {
        notifiers := notifiers[t := Idle];
        return false;
      }
      wakeupCalled := true;
      notifiers := notifiers[t := MustWrite];
      return true;
    }

    method WriteMessage(t: Tid)
      requires CanNotify(View(), WriteToken(t))
      modifies this`tokens, this`notifiers
      ensures View() == NotifyStep(old(View()), WriteToken(t))
    {
      tokens := tokens + 1;
      notifiers := notifiers[t := Idle];
    }

    // ---- handle_events ------------------------------------------------------------------------

    method ResetFlag()
      requires CanPass(View(), StartEvents)
      modifies this`wakeupCalled, this`pc
      ensures View() == PassStep(old(View()), StartEvents)
    {
      wakeupCalled := false;
      pc := Cleared;
    }

    /** Copies the wakeup set, leaving out what is scheduled for deletion or not in the main list. */
    method CopyWakeup() returns (order: seq<Obj>)
      requires pc.Cleared?
      modifies this`wakeup, this`pc
      ensures CanPass(old(View()), Copy(order)) && View() == PassStep(old(View()), Copy(order))
    {
      order := [];
      var todo := wakeup;
      while exists o :: o in todo
        invariant todo <= wakeup == old(wakeup) && pc == old(pc)
        invariant forall o :: o in order <==> o in wakeup && o !in todo && o !in deletion && o in main
        invariant |order| == |Elements(order)|
        decreases todo
      {
        var o :| o in todo;
        todo := todo - {o};
        if o !in deletion && o in main {
          ElementsAppend(order, o);
          order := order + [o];
        }
      }
      ElementsAre(order, Awake(View()));
      wakeup := {};
      pc := Draining(order);
    }

    /** The next object of the copy: skipped if destroyed, else its events are taken from it. */
    method TakeEvents(o: Obj, ghost rest: seq<Obj>) returns (batch: seq<Event>)
      requires pc == Draining([o] + rest) && o in events
      modifies this`events, this`pc
      ensures View() == PassStep(old(View()), NextObject)
      ensures batch == if o in deletion then [] else old(events)[o]
    {
      if o in deletion {
        pc := Draining(rest);
        return [];
      }
      batch := events[o];
      events := events[o := []];
      pc := NextBatch(o, batch, rest);
    }

    method ReceiveMessage()
      requires CanPass(View(), ReceiveToken)
      modifies this`tokens, this`pc
      ensures View() == PassStep(old(View()), ReceiveToken)
    {
      if tokens > 0 {
        tokens := tokens - 1;
      }
      pc := ReadFds(SortedKeys(rfds.Keys));
    }

    // ---- fdset and next_timeout ---------------------------------------------------------------

    /** Moves the insertion list into the main list and takes the deletion list out of it. */
    method DrainLists()
      modifies this`insertion, this`main, this`deletion
      ensures insertion == deletion == {}
      ensures forall o :: o in main <==> (o in old(main) || o in old(insertion)) && o !in old(deletion)
    {
      var todo := insertion;
      while exists o :: o in todo
        invariant todo <= insertion == old(insertion) && deletion == old(deletion)
        invariant forall o :: o in main <==> o in old(main) || (o in insertion && o !in todo)
        decreases todo
      {
        var o :| o in todo;
        main := main + {o};
        todo := todo - {o};
      }
      insertion := {};
      todo := deletion;
      while exists o :: o in todo
        invariant todo <= deletion == old(deletion) && insertion == {}
        invariant forall o :: o in main <==> (o in old(main) || o in old(insertion)) && (o !in deletion || o in todo)
        decreases todo
      {
        var o :| o in todo;
        main := main - {o};
        todo := todo - {o};
      }
      deletion := {};
    }

    /** The result is the earliest of limit and the deadlines of the objects' first entries, and the timeout
        list holds, once each, the objects whose deadline it is. No pending timer of any object of the
        main list is due before it. */
    method NextTimeout(limit: int) returns (earliest: int)
      requires Ticking() && forall o :: o in main ==> o in timers
      modifies this`timeouts
      ensures earliest <= limit
      ensures forall o, i :: o in main && 0 <= i < |timers[o].Pending()| ==> earliest <= timers[o].Pending()[i].deadline
      ensures earliest == limit || exists o :: o in main && o in Heads() && Heads()[o] == earliest
      ensures forall o :: o in timeouts <==> o in main && o in Heads() && Heads()[o] == earliest
      ensures |timeouts| == |Elements(timeouts)|
    {
      hide Ticking, Heads;
      earliest := limit;
      timeouts := [];
      var todo := main;
      ghost var heads := Heads();
      while exists o :: o in todo
        invariant todo <= main && earliest <= limit && heads == Heads()
        invariant forall o :: o in main && o !in todo && o in heads ==> earliest <= heads[o]
        invariant earliest == limit || exists o :: o in main && o in heads && heads[o] == earliest
        invariant forall o :: o in timeouts <==> o in main && o !in todo && o in heads && heads[o] == earliest
        invariant |timeouts| == |Elements(timeouts)|
        decreases todo
      {
        var o :| o in todo;
        todo := todo - {o};
        HeadOf(o);
        var entries := timers[o].entries;
        if entries != [] {
          if entries[0].deadline < earliest {
            earliest := entries[0].deadline;
            assert Elements([o]) == {o};
            timeouts := [o];
          } else if entries[0].deadline == earliest {
            ElementsAppend(timeouts, o);
            timeouts := timeouts + [o];
          }
        }
      }
      NothingEarlier(earliest);
    }

    lemma HeadOf(o: Obj)
      requires o in timers
      ensures o in Heads() <==> timers[o].entries != []
      ensures o in Heads() ==> Heads()[o] == timers[o].entries[0].deadline
    {
    }

    lemma NothingEarlier(earliest: int)
      requires Ticking() && forall o :: o in main ==> o in timers && (o in Heads() ==> earliest <= Heads()[o])
      ensures forall o, i :: o in main && 0 <= i < |timers[o].Pending()| ==> earliest <= timers[o].Pending()[i].deadline
    {
      forall o, i | o in main && 0 <= i < |timers[o].Pending()| ensures earliest <= timers[o].Pending()[i].deadline {
        assert timers[o].Holds(T.TimersOf(worlds[o].pending));
        T.HeadIsEarliest(timers[o].entries, i);
        HeadOf(o);
      }
    }

    method Prepare(limit: int) returns (earliest: int)
      requires pc.Top? && Ticking() && forall o :: o in main + insertion ==> o in timers
      modifies this`insertion, this`main, this`deletion, this`timeouts, this`pc
      ensures CanPoll(old(Shown()), Top, Arm(timeouts)) && View() == Step(old(View()), Polling(Arm(timeouts)))
      ensures earliest <= limit && Ticking()
      ensures forall o, i :: o in main && o in timers && 0 <= i < |timers[o].Pending()| ==>
                earliest <= timers[o].Pending()[i].deadline
    {
      hide Ticking, Heads;
      DrainLists();
      assert main == old((main + insertion) - deletion);
      earliest := NextTimeout(limit);
      assert Elements(timeouts) <= main;
      pc := Armed;
    }

    // ---- descriptors and timeouts -------------------------------------------------------------

    /** The next descriptor of the copy: called says whether its owner's read handler is now running. */
    method NextReadable(fd: Fd, ready: bool, ghost rest: seq<Fd>) returns (called: bool)
      requires pc == ReadFds([fd] + rest)
      modifies this`rfds, this`pc
      ensures View() == Step(old(View()), Polling(ReadNext(ready)))
      ensures if called then pc.InRead? && pc.fd == fd else pc == ReadFds(rest)
    {
      pc := ReadFds(rest);
      if fd !in rfds {
        return false;
      }
      var owner := rfds[fd];
      if owner in deletion {
        rfds := rfds - {fd};
        return false;
      }
      if ready {
        pc := InRead(owner, fd, rest);
      }
      return ready;
    }

    method NextWritable(fd: Fd, ready: bool, ghost rest: seq<Fd>) returns (called: bool)
      requires pc == WriteFds([fd] + rest)
      modifies this`wfds, this`pc
      ensures View() == Step(old(View()), Polling(WriteNext(ready)))
      ensures if called then pc.InWrite? && pc.fd == fd else pc == WriteFds(rest)
    {
      pc := WriteFds(rest);
      if fd !in wfds {
        return false;
      }
      var owner := wfds[fd];
      if owner in deletion {
        wfds := wfds - {fd};
        return false;
      }
      if ready {
        pc := InWrite(owner, fd, rest);
      }
      return ready;
    }

    /** handle_timeouts takes its own copy of the timeout list. */
    method CopyTimeouts() returns (pending: seq<Obj>)
      requires pc.Armed?
      modifies this`timeouts, this`pc
      ensures View() == Step(old(View()), Polling(StartTimeouts))
      ensures pending == Filter(old(timeouts), deletion)
    {
      pending := [];
      var i := 0;
      while i < |timeouts|
        invariant 0 <= i <= |timeouts| && timeouts == old(timeouts) && pc == old(pc)
        invariant pending == Filter(timeouts[..i], deletion)
      {
        assert timeouts[..i + 1] == timeouts[..i] + [timeouts[i]];
        FilterAppend(timeouts[..i], [timeouts[i]], deletion);
        if timeouts[i] !in deletion {
          pending := pending + [timeouts[i]];
        }
        i := i + 1;
      }
      assert timeouts[..i] == timeouts;
      timeouts := [];
      pc := Timeouts(pending);
    }

    /** The first half of __handle_timeout, for the next object of the copy: skipped if it is destroyed, else
        what is due is taken out of its timer list. */
    method TakeOutNext(o: Obj, clock: seq<int>, ghost rest: seq<Obj>) returns (due: seq<int>, ghost now: int)
      requires pc == EventLoop.Timeouts([o] + rest) && o in timers && Ticking()
      requires T.Monotone(clock) && |timers[o].entries| <= |clock|
      modifies this`pc, this`worlds, this`batch, timers[o]
      ensures Ticking() && TimedView() == Do(old(TimedView()), TakeOut(now))
      ensures pc.Firing? ==>
              due == pc.due && o in old(worlds) && now == Reading(old(worlds)[o], old(timers[o].entries), clock)
    {
      hide Do, CanDo, Ticking, T.Step, T.Kinds, T.Ripe, T.Monotone;
      Known(o);
      if o in deletion || o !in main {
        Skipped(TimedView(), o, rest, 0);
        pc := EventLoop.Timeouts(rest);
        return [], 0;
      }
      ghost var s := TimedView();
      due, now := Expired(o, clock);
      pc := Firing(o, due, rest);
      TookOut(s, o, rest, now);
    }

    /** Empties the list of what is due by the clock. */
    method Expired(o: Obj, clock: seq<int>) returns (due: seq<int>, ghost now: int)
      requires o in timers && Ticking() && T.Monotone(clock) && |timers[o].entries| <= |clock|
      modifies this`worlds, this`batch, timers[o]
      ensures Ticking() && o in old(worlds) && now == Reading(old(worlds)[o], old(timers[o].entries), clock)
      ensures worlds == old(worlds)[o := T.Step(old(worlds)[o], T.Expire(now))]
      ensures batch == old(worlds)[o].pending[..T.Ripe(old(worlds)[o].pending, now)] && due == T.Kinds(batch)
    {
      hide *;
      Known(o);
      ghost var w := worlds[o];
      due, now := TakeFrom(timers[o], w, clock);
      batch := w.pending[..T.Ripe(w.pending, now)];
      worlds := worlds[o := T.Step(w, T.Expire(now))];
      OneChanged(o);
    }

    lemma Known(o: Obj)
      requires Ticking() && o in timers
      ensures o in worlds && timers[o].Holds(T.TimersOf(worlds[o].pending))
    {
    }

    /** One list, and what is known of it, have changed. */
    twostate lemma OneChanged(o: Obj)
      requires old(Ticking()) && timers == old(timers) && o in timers
      requires forall p :: p in timers && timers[p] != timers[o] ==> timers[p].entries == old(timers[p].entries)
      requires worlds.Keys == old(worlds).Keys && forall p :: p in worlds && p != o ==> worlds[p] == old(worlds)[p]
      requires timers[o].Holds(T.TimersOf(worlds[o].pending))
      ensures Ticking()
    {
      forall p | p in timers ensures timers[p].Holds(T.TimersOf(worlds[p].pending)) {
        if p != o {
          assert old(timers[p].Holds(T.TimersOf(worlds[p].pending)));
        }
      }
    }

    /** The second half of __handle_timeout, for the next of the timers taken out: called says whether the
        handler is now running. */
    method CallNext(o: Obj, due: seq<int>, ghost rest: seq<Obj>) returns (called: bool)
      requires pc == Firing(o, due, rest) && |batch| == |due| && o in fired
      modifies this`pc, this`batch, this`fired
      ensures TimedView() == Do(old(TimedView()), Fire)
      ensures called <==> pc.InTimeout?
    {
      hide Do, CanDo, T.Step, T.Kinds, T.Ripe;
      FireIsOr(TimedView(), o, due, rest);
      if due == [] || o in deletion || o !in main {
        pc := EventLoop.Timeouts(rest);
        return false;
      }
      pc := InTimeout(o, due[1..], rest);
      fired := fired[o := fired[o] + [batch[0]]];
      batch := batch[1..];
      return true;
    }

    // ---- timers, from the loop thread's handlers ------------------------------------------------

    method RegisterTimer(o: Obj, kind: int, delay: int, now: int)
      requires CanDo(TimedView(), OfTimer(o, T.Register(kind, delay, now))) && Ticking()
      modifies this`worlds, timers[o]
      ensures Ticking() && TimedView() == Do(old(TimedView()), OfTimer(o, T.Register(kind, delay, now)))
    {
      hide T.Step, T.Enqueue, T.TimersOf;
      T.RegisterIs(worlds[o], kind, delay, now);
      timers[o].RegisterTimer(kind, delay, now);
      worlds := worlds[o := T.Step(worlds[o], T.Register(kind, delay, now))];
      OneChanged(o);
    }

    method ResetTimer(o: Obj, kind: int, delay: int, now: int)
      requires CanDo(TimedView(), OfTimer(o, T.Reset(kind, delay, now))) && Ticking()
      modifies this`worlds, timers[o]
      ensures Ticking() && TimedView() == Do(old(TimedView()), OfTimer(o, T.Reset(kind, delay, now)))
    {
      hide T.Step, T.Enqueue, T.RemoveFirst, T.TimersOf;
      T.ResetIs(worlds[o], kind, delay, now);
      timers[o].ResetTimer(kind, delay, now);
      worlds := worlds[o := T.Step(worlds[o], T.Reset(kind, delay, now))];
      OneChanged(o);
    }

    method CancelTimer(o: Obj, kind: int)
      requires CanDo(TimedView(), OfTimer(o, T.CancelOne(kind))) && Ticking()
      modifies this`worlds, timers[o]
      ensures Ticking() && TimedView() == Do(old(TimedView()), OfTimer(o, T.CancelOne(kind)))
    {
      hide T.Step, T.RemoveFirst, T.TimersOf;
      T.CancelIs(worlds[o], kind);
      timers[o].CancelTimer(kind);
      worlds := worlds[o := T.Step(worlds[o], T.CancelOne(kind))];
      OneChanged(o);
    }

    method CancelAllTimer(o: Obj)
      requires CanDo(TimedView(), OfTimer(o, T.CancelAll)) && Ticking()
      modifies this`worlds, timers[o]
      ensures Ticking() && TimedView() == Do(old(TimedView()), OfTimer(o, T.CancelAll))
    {
      timers[o].CancelAllTimer();
      worlds := worlds[o := T.Step(worlds[o], T.CancelAll)];
      OneChanged(o);
    }

    // ---- the constructor and the destructor of an object ------------------------------------------

    /** A new object is put into the insertion list, with no events and no timers. */
    method Construct(o: Obj)
      requires CanWork(View(), Create(o)) && Ticking() && o !in timers
      modifies this`insertion, this`events, this`timers, this`hist, this`worlds, this`fired
      ensures Ticking() && worlds == old(worlds)[o := T.NO_TIMERS] && fired == old(fired)[o := []]
      ensures View() == Step(old(View()), Handler(Create(o)))
    {
      hide Ticking;
      NewList(o);
      Insert(o);
      fired := fired[o := []];
    }

    method Insert(o: Obj)
      requires CanWork(View(), Create(o))
      modifies this`insertion, this`events, this`hist
      ensures View() == Step(old(View()), Handler(Create(o)))
    {
      insertion := insertion + {o};
      events := events[o := []];
      hist := History(hist.alive + {o}, hist.posted[o := []], hist.delivered[o := []]);
    }

    method NewList(o: Obj)
      requires Ticking() && o !in timers
      modifies this`timers, this`worlds
      ensures Ticking() && worlds == old(worlds)[o := T.NO_TIMERS]
    {
      var list := new T.TimerList();
      timers := timers[o := list];
      worlds := worlds[o := T.NO_TIMERS];
      hide *;
      OneAdded(o);
    }

    twostate lemma OneAdded(o: Obj)
      requires old(Ticking()) && o !in old(timers) && timers.Keys == old(timers).Keys + {o}
              && worlds.Keys == timers.Keys
      requires forall p :: p in old(timers) ==> timers[p] == old(timers)[p] && worlds[p] == old(worlds)[p]
      requires forall p :: p in old(timers) ==> timers[p].entries == old(timers[p].entries)
      requires fresh(timers[o]) && timers[o].entries == [] && worlds[o] == T.NO_TIMERS
      ensures Ticking()
    {
      forall p | p in timers ensures timers[p].Holds(T.TimersOf(worlds[p].pending)) {
        if p != o {
          assert old(timers[p].Holds(T.TimersOf(worlds[p].pending)));
        }
      }
    }

    /** Erases o's entries one by one, starting the scan again after each. */
    method StrikeReadFds(o: Obj)
      modifies this`rfds
      ensures rfds == RemoveObj(old(rfds), o)
    {
      while exists fd :: fd in rfds && rfds[fd] == o
        invariant RemoveObj(rfds, o) == RemoveObj(old(rfds), o)
        decreases |rfds.Keys|
      {
        var fd :| fd in rfds && rfds[fd] == o;
        rfds := rfds - {fd};
      }
      assert rfds == RemoveObj(rfds, o);
    }

    /** Erases o's entries one by one, starting the scan again after each. */
    method StrikeWriteFds(o: Obj)
      modifies this`wfds
      ensures wfds == RemoveObj(old(wfds), o)
    {
      while exists fd :: fd in wfds && wfds[fd] == o
        invariant RemoveObj(wfds, o) == RemoveObj(old(wfds), o)
        decreases |wfds.Keys|
      {
        var fd :| fd in wfds && wfds[fd] == o;
        wfds := wfds - {fd};
      }
      assert wfds == RemoveObj(wfds, o);
    }

    method StrikeTimeouts(o: Obj)
      modifies this`timeouts
      ensures timeouts == Filter(old(timeouts), {o})
    {
      while o in timeouts
        invariant Filter(timeouts, {o}) == Filter(old(timeouts), {o})
        decreases |timeouts|
      {
        var i := IndexOf(timeouts, o);
        FilterErase(timeouts, i, o);
        timeouts := timeouts[..i] + timeouts[i + 1..];
      }
      FilterNothing(timeouts, {o});
    }

    /** Schedules o for deletion and strikes it from the descriptor maps and the timeout list. */
    method Destruct(o: Obj)
      requires CanWork(View(), Destroy(o))
      modifies this`deletion, this`rfds, this`wfds, this`timeouts, this`hist
      ensures View() == Step(old(View()), Handler(Destroy(o)))
    {
      hide Step, Enabled, CanWork, RemoveObj, Filter;
      DestroyIs(View(), o);
      deletion := deletion + {o};
      StrikeReadFds(o);
      StrikeWriteFds(o);
      StrikeTimeouts(o);
      hist := hist.(alive := hist.alive - {o});
    }
  }

  /** The clock as it was last read; a list without entries does not make the loop read it. */
  function Reading(w: T.World, entries: seq<T.Slot>, clock: seq<int>): int
    requires |entries| <= |clock|
  {
    if entries == [] then w.clock else T.LastReading(entries, clock)
  }

  /** With a clock that has not run backwards since, the reading is one of its own, and in time. */
  lemma ReadingInTime(w: T.World, entries: seq<T.Slot>, clock: seq<int>)
    requires |entries| <= |clock| && forall i :: 0 <= i < |clock| ==> w.clock <= clock[i]
    ensures T.InTime(w, T.Expire(Reading(w, entries, clock)))
    ensures entries != [] ==> Reading(w, entries, clock) in clock
  {
  }

  method TakeFrom(list: T.TimerList, ghost w: T.World, clock: seq<int>) returns (due: seq<int>, ghost now: int)
    requires list.Holds(T.TimersOf(w.pending)) && T.Monotone(clock) && |list.entries| <= |clock|
    modifies list
    ensures list.Holds(T.TimersOf(T.Step(w, T.Expire(now)).pending))
    ensures due == T.Kinds(w.pending[..T.Ripe(w.pending, now)])
    ensures now == Reading(w, old(list.entries), clock)
  {
    hide T.Step, T.LastReading, T.Due, T.Monotone, T.TimersOf, T.Kinds, T.Ripe, T.Flat;
    now := Reading(w, list.entries, clock);
    var expired := list.TakeExpired(clock);
    T.NothingDue(now);
    T.ExpiredIs(w, now, expired, list.Pending());
    due := seq(|expired|, i requires 0 <= i < |expired| => expired[i].kind);
    KindsAre(expired, w.pending[..T.Ripe(w.pending, now)], due);
  }

  lemma KindsAre(expired: seq<T.Timer>, batch: seq<T.Ticket>, due: seq<int>)
    requires expired == T.TimersOf(batch) && |due| == |expired|
    requires forall i :: 0 <= i < |due| ==> due[i] == expired[i].kind
    ensures due == T.Kinds(batch)
  {
  }

  /** What destroying amounts to. */
  lemma DestroyIs(s: State, o: Obj)
    requires CanWork(s, Destroy(o))
    ensures var l := s.lists;
            Enabled(s, Handler(Destroy(o))) && Step(s, Handler(Destroy(o))) ==
              s.(lists := l.(deletion := l.deletion + {o}, rfds := RemoveObj(l.rfds, o), wfds := RemoveObj(l.wfds, o),
                             timeouts := Filter(l.timeouts, {o})),
                 hist := s.hist.(alive := s.hist.alive - {o}))
  {
    hide RemoveObj, Filter;
  }

  /** What firing amounts to. */
  lemma FireIsOr(s: Timed, o: Obj, due: seq<int>, rest: seq<Obj>)
    requires s.loop.pc == Firing(o, due, rest) && |s.batch| == |due| && o in s.fired
    ensures CanDo(s, Fire)
    ensures due == [] || o in s.loop.lists.deletion || o !in s.loop.lists.main ==>
              Do(s, Fire) == s.(loop := s.loop.(pc := EventLoop.Timeouts(rest)))
    ensures due != [] && o !in s.loop.lists.deletion && o in s.loop.lists.main ==>
              Do(s, Fire) == Timed(s.loop.(pc := InTimeout(o, due[1..], rest)), s.timers, s.batch[1..],
                                   s.fired[o := s.fired[o] + [s.batch[0]]])
  {
    hide T.Step, T.Kinds;
  }

  lemma Skipped(s: Timed, o: Obj, rest: seq<Obj>, now: int)
    requires s.loop.pc == EventLoop.Timeouts([o] + rest) && o in s.timers
    requires o in s.loop.lists.deletion || o !in s.loop.lists.main
    ensures CanDo(s, TakeOut(now)) && Do(s, TakeOut(now)) == s.(loop := s.loop.(pc := EventLoop.Timeouts(rest)))
  {
  }

  /** What taking out amounts to. */
  lemma TookOut(s: Timed, o: Obj, rest: seq<Obj>, now: int)
    requires s.loop.pc == EventLoop.Timeouts([o] + rest) && o in s.timers
    requires o !in s.loop.lists.deletion && o in s.loop.lists.main
    ensures var q := s.timers[o].pending; var due := q[..T.Ripe(q, now)];
            CanDo(s, TakeOut(now)) && Do(s, TakeOut(now)) ==
              Timed(s.loop.(pc := Firing(o, T.Kinds(due), rest)),
                    s.timers[o := T.Step(s.timers[o], T.Expire(now))], due, s.fired)
  {
    hide T.Step, T.Kinds;
  }

  lemma ElementsAppend(xs: seq<Obj>, o: Obj)
    requires o !in xs
    ensures Elements(xs + [o]) == Elements(xs) + {o} && |Elements(xs + [o])| == |Elements(xs)| + 1
  {
    assert Elements(xs + [o]) == Elements(xs) + {o};
  }

  lemma ElementsAre(xs: seq<Obj>, s: set<Obj>)
    requires forall o :: o in xs <==> o in s
    ensures Elements(xs) == s
  {
  }

  lemma FilterOne(o: Obj)
    ensures Filter([o], {o}) == []
  {
  }

  lemma FilterErase(xs: seq<Obj>, i: nat, o: Obj)
    requires i < |xs| && xs[i] == o
    ensures Filter(xs[..i] + xs[i + 1..], {o}) == Filter(xs, {o})
  {
    hide *;
    assert xs == xs[..i] + ([o] + xs[i + 1..]);
    FilterOne(o);
    FilterAppend(xs[..i], [o] + xs[i + 1..], {o});
    FilterAppend([o], xs[i + 1..], {o});
    FilterAppend(xs[..i], xs[i + 1..], {o});
  }
}
