/** What the deeds of a timed run tell by themselves: which timers were registered for an object, and for which
    kinds its handler is called. */
module TimerHistories {
  import opened EventLoop
  import opened TimerLoop
  import T = Timers

  /** The timers that the deeds register for o, in order: due so long after the reading of the clock. */
  function Asked(ds: seq<Deed>, o: Obj): seq<T.Timer> {
    if ds == [] then []
    else Asked(ds[..|ds| - 1], o) + AskedNow(ds[|ds| - 1], o)
  }

  function AskedNow(d: Deed, o: Obj): seq<T.Timer> {
    if !d.OfTimer? || d.o != o then []
    else match d.op
      case Register(kind, delay, now) => [T.Timer(now + delay, kind)]
      case Reset(kind, delay, now) => [T.Timer(now + delay, kind)]
      case _ => []
  }

  /** Takes timers of o away before they are due. */
  predicate Cancels(d: Deed, o: Obj) {
    d.OfTimer? && d.o == o && (d.op.CancelOne? || d.op.CancelAll? || d.op.Reset?)
  }

  predicate NeverCancelled(ds: seq<Deed>, o: Obj) {
    forall i :: 0 <= i < |ds| ==> !Cancels(ds[i], o)
  }

  /** What is recorded of o is what the deeds ask for. */
  predicate Recorded(s: Timed, ds: seq<Deed>, o: Obj) {
    && (o in s.timers ==> T.TimersOf(s.timers[o].issued) == Asked(ds, o))
    && (o in s.timers && NeverCancelled(ds, o) ==> s.timers[o].dropped == multiset{})
    && (o !in s.timers ==> Asked(ds, o) == [])
  }

  lemma AskedNext(ds: seq<Deed>, d: Deed, o: Obj)
    ensures Asked(ds + [d], o) == Asked(ds, o) + AskedNow(d, o)
    ensures NeverCancelled(ds + [d], o) ==> NeverCancelled(ds, o) && !Cancels(d, o)
  {
    assert (ds + [d])[..|ds|] == ds && (ds + [d])[|ds|] == d;
    if NeverCancelled(ds + [d], o) {
      forall i | 0 <= i < |ds| ensures !Cancels(ds[i], o) {
        assert (ds + [d])[i] == ds[i];
      }
    }
  }

  /** What an operation adds to the timers registered. */
  lemma OpIssues(w: T.World, op: T.Op)
    ensures var v := T.Step(w, op);
            T.TimersOf(v.issued) == T.TimersOf(w.issued) + match op
              case Register(kind, delay, now) => [T.Timer(now + delay, kind)]
              case Reset(kind, delay, now) => [T.Timer(now + delay, kind)]
              case _ => []
    ensures op.Register? || op.Expire? ==> T.Step(w, op).dropped == w.dropped
  {
    hide T.Join, T.Leave, T.Ripe;
  }

  /** The timers of one object change by an operation asked for, by being taken out, or not at all. */
  lemma DoChanges(s: Timed, d: Deed, o: Obj)
    requires Inv(s.loop) && CanDo(s, d) && s.timers.Keys == s.loop.sig.events.Keys
    ensures var q := Do(s, d);
            if o in s.timers then
              o in q.timers && (if d.OfTimer? && d.o == o then q.timers[o] == T.Step(s.timers[o], d.op)
                                else q.timers[o] == s.timers[o]
                                     || exists now :: q.timers[o] == T.Step(s.timers[o], T.Expire(now)))
            else
              !(d.OfTimer? && d.o == o) && (o in q.timers ==> q.timers[o] == T.NO_TIMERS)
  {
    hide Inv, Do, CanDo, T.Step, Step, Enabled, T.Ripe, T.Kinds;
    match d {
      case Loop(a) => LoopIs(s, a); OtherKeepsLives(s.loop, a);
      case TakeOut(now) => TakeOutOthers(s, now);
      case Fire => FireKeepsTimers(s);
      case OfTimer(p, op) => OfTimerIs(s, p, op);
    }
  }

  lemma DoRecords(s: Timed, d: Deed, ds: seq<Deed>, o: Obj)
    requires TimedInv(s) && CanDo(s, d) && Recorded(s, ds, o)
    ensures Recorded(Do(s, d), ds + [d], o)
  {
    hide Inv, Listed, AllAccounted, Do, CanDo, T.Step, T.TimersOf, Asked, NeverCancelled;
    AskedNext(ds, d, o);
    DoChanges(s, d, o);
    var q := Do(s, d);
    if o in s.timers {
      if d.OfTimer? && d.o == o {
        OpIssues(s.timers[o], d.op);
        NoExpiry(s, o, d.op);
      } else if q.timers[o] != s.timers[o] {
        var now :| q.timers[o] == T.Step(s.timers[o], T.Expire(now));
        OpIssues(s.timers[o], T.Expire(now));
      }
    } else {
      NoTimersYet();
    }
  }

  lemma NoTimersYet()
    ensures T.TimersOf(T.NO_TIMERS.issued) == [] && T.NO_TIMERS.dropped == multiset{}
  {
  }

  lemma {:induction false} RunRecords(s: Timed, ds: seq<Deed>, before: seq<Deed>, o: Obj)
    requires TimedInv(s) && Feasible(s, ds) && Recorded(s, before, o)
    ensures Recorded(Outcome(s, ds), before + ds, o)
    decreases |ds|
  {
    hide TimedInv, CanDo, Do, Recorded;
    if ds == [] {
      assert before + [] == before;
    } else {
      DoKeeps(s, ds[0]);
      DoRecords(s, ds[0], before, o);
      RunRecords(Do(s, ds[0]), ds[1..], before + [ds[0]], o);
      assert before + [ds[0]] + ds[1..] == before + ds;
    }
  }

  // ---- what the handler is called for -------------------------------------------------------------

  /** The kind of timer that this deed calls o's handler for, if it does. */
  function CalledNow(s: Timed, q: Timed, o: Obj): seq<int> {
    if s.loop.pc.Firing? && s.loop.pc.due != [] && q.loop.pc.InTimeout? && q.loop.pc.o == o
    then [s.loop.pc.due[0]] else []
  }

  /** The kinds of timer that o's handler is called for in this run. */
  ghost function CalledWith(s: Timed, ds: seq<Deed>, o: Obj): seq<int>
    requires Feasible(s, ds)
    decreases |ds|
  {
    if ds == [] then []
    else CalledNow(s, Do(s, ds[0]), o) + CalledWith(Do(s, ds[0]), ds[1..], o)
  }

  lemma KindsAppend(a: seq<T.Ticket>, x: T.Ticket)
    ensures T.Kinds(a + [x]) == T.Kinds(a) + [x.timer.kind]
  {
  }

  lemma FiringFires(s: Timed, o: Obj)
    requires TimedInv(s) && CanDo(s, Fire) && o in s.fired
    ensures var q := Do(s, Fire);
            o in q.fired && T.Kinds(q.fired[o]) == T.Kinds(s.fired[o]) + CalledNow(s, q, o)
  {
    hide Inv, AllAccounted, Do, CanDo;
    FiringIs(s);
    FireIs(s);
    if s.batch != [] {
      KindsAppend(s.fired[s.loop.pc.o], s.batch[0]);
    }
  }

  /** Deeds other than firing call no handler and record none. */
  lemma ElseFiresNothing(s: Timed, d: Deed, o: Obj)
    requires TimedInv(s) && CanDo(s, d) && !d.Fire?
    ensures var q := Do(s, d);
            && CalledNow(s, q, o) == []
            && (if o in s.fired then o in q.fired && q.fired[o] == s.fired[o] else o in q.fired ==> q.fired[o] == [])
  {
    hide AllAccounted, Do, CanDo, Step, Enabled, T.Step, T.Kinds, T.Ripe, Inv;
    match d {
      case Loop(a) =>
        LoopIs(s, a);
        OtherKeepsBatch(s.loop, a);
        OtherKeepsLives(s.loop, a);
        if s.loop.pc.Firing? {
          StaysOutOfHandler(s.loop, a);
        }
      case TakeOut(now) => TakeOutIs(s, now);
      case OfTimer(p, op) => OfTimerIs(s, p, op);
    }
  }

  lemma StaysOutOfHandler(s: State, a: Action)
    requires Enabled(s, a) && s.pc.Firing? && !(a.Polling? && (a.l.TimeoutNext? || a.l.FireNext?))
    ensures !Step(s, a).pc.InTimeout?
  {
  }

  lemma {:induction false} RunFires(s: Timed, ds: seq<Deed>, o: Obj)
    requires TimedInv(s) && Feasible(s, ds)
    ensures var q := Outcome(s, ds); var was := if o in s.fired then T.Kinds(s.fired[o]) else [];
            && (o in q.fired ==> T.Kinds(q.fired[o]) == was + CalledWith(s, ds, o))
            && (o in s.fired ==> o in q.fired)
    decreases |ds|
  {
    hide TimedInv, CanDo, Do, CalledNow, T.Kinds;
    if ds == [] {
      assert o in s.fired ==> T.Kinds(s.fired[o]) + [] == T.Kinds(s.fired[o]);
    } else {
      DoKeeps(s, ds[0]);
      DoFires(s, ds[0], o);
      var q := Do(s, ds[0]);
      RunFires(q, ds[1..], o);
      var was := if o in s.fired then T.Kinds(s.fired[o]) else [];
      assert was + CalledWith(s, ds, o) == (was + CalledNow(s, q, o)) + CalledWith(q, ds[1..], o);
    }
  }

  lemma DoFires(s: Timed, d: Deed, o: Obj)
    requires TimedInv(s) && CanDo(s, d)
    ensures var q := Do(s, d); var was := if o in s.fired then T.Kinds(s.fired[o]) else [];
            && (o in q.fired ==> T.Kinds(q.fired[o]) == was + CalledNow(s, q, o))
            && (o in s.fired ==> o in q.fired)
            && (o !in q.fired ==> CalledNow(s, q, o) == [])
  {
    hide TimedInv, CanDo, Do, CalledNow;
    if d.Fire? {
      if o in s.fired {
        FiringFires(s, o);
      } else {
        FiringOnlyKnown(s, o);
      }
    } else {
      ElseFiresNothing(s, d, o);
      assert T.Kinds([]) == [];
    }
  }

  lemma FiringOnlyKnown(s: Timed, o: Obj)
    requires CanDo(s, Fire) && o !in s.fired
    ensures CalledNow(s, Do(s, Fire), o) == [] && o !in Do(s, Fire).fired
  {
  }

  lemma StartRecords(o: Obj)
    ensures TimedInv(START) && Recorded(START, [], o) && o !in START.fired
  {
    StartInv();
  }

  /** In every run: the timers recorded as registered for an object are those that the deeds register, each due its
      delay after the reading of the clock; as long as nobody cancels or resets any, none is lost, so that all
      are pending or taken out; and what is recorded as fired is what the handler is called for. */
  lemma RegisteredAsAsked(ds: seq<Deed>, o: Obj)
    requires Feasible(START, ds) && o in Outcome(START, ds).loop.sig.events
    ensures var s := Outcome(START, ds);
            && o in s.timers && o in s.fired
            && T.TimersOf(s.timers[o].issued) == Asked(ds, o)
            && T.Kinds(s.fired[o]) == CalledWith(START, ds, o)
            && (NeverCancelled(ds, o) ==>
                  multiset(s.timers[o].issued) == multiset(s.timers[o].pending) + multiset(s.timers[o].taken))
  {
    hide TimedInv, Recorded, T.TimersOf, T.Kinds, Asked, CalledWith, Feasible, Outcome;
    StartRecords(o);
    RunRecords(START, ds, [], o);
    RunFires(START, ds, o);
    FiredAsTaken(ds, o);
    assert [] + ds == ds && [] + CalledWith(START, ds, o) == CalledWith(START, ds, o);
    RecordedIs(Outcome(START, ds), ds, o);
  }

  lemma RecordedIs(s: Timed, ds: seq<Deed>, o: Obj)
    requires Recorded(s, ds, o) && o in s.timers
    ensures T.TimersOf(s.timers[o].issued) == Asked(ds, o)
    ensures NeverCancelled(ds, o) ==> s.timers[o].dropped == multiset{}
  {
  }

  // ---- what cancelling takes away -------------------------------------------------------------------

  /** Place i of the queue holds the first timer of this kind. */
  predicate FirstOfKind(q: seq<T.Ticket>, i: nat, kind: int) {
    i < |q| && q[i].timer.kind == kind && forall j :: 0 <= j < i ==> q[j].timer.kind != kind
  }

  lemma {:induction false} LeavesFirst(q: seq<T.Ticket>, i: nat, kind: int)
    requires FirstOfKind(q, i, kind)
    ensures T.Leave(q, kind) == q[..i] + q[i + 1..]
    decreases |q|
  {
    if i > 0 {
      assert FirstOfKind(q[1..], i - 1, kind);
      LeavesFirst(q[1..], i - 1, kind);
      assert q[..i] == [q[0]] + q[1..][..i - 1];
    }
  }

  lemma {:induction false} LeavesAll(q: seq<T.Ticket>, kind: int)
    requires forall j :: 0 <= j < |q| ==> q[j].timer.kind != kind
    ensures T.Leave(q, kind) == q
    decreases |q|
  {
    if q != [] {
      LeavesAll(q[1..], kind);
    }
  }

  /** Cancelling a kind takes away the first pending timer of the kind and no other; cancelling all takes away all. */
  lemma CancelTakesFirst(w: T.World, kind: int)
    ensures var v := T.Step(w, T.CancelOne(kind));
            && (forall i: nat :: FirstOfKind(w.pending, i, kind) ==>
                  v.pending == w.pending[..i] + w.pending[i + 1..] && v.dropped == w.dropped + multiset{w.pending[i]})
            && ((forall j :: 0 <= j < |w.pending| ==> w.pending[j].timer.kind != kind) ==> v == w)
    ensures var v := T.Step(w, T.CancelAll); v.pending == [] && v.dropped == w.dropped + multiset(w.pending)
  {
    hide T.Leave;
    forall i: nat | FirstOfKind(w.pending, i, kind)
      ensures var v := T.Step(w, T.CancelOne(kind));
              v.pending == w.pending[..i] + w.pending[i + 1..] && v.dropped == w.dropped + multiset{w.pending[i]}
    {
      LeavesFirst(w.pending, i, kind);
      OneGone(w.pending, i);
    }
    if forall j :: 0 <= j < |w.pending| ==> w.pending[j].timer.kind != kind {
      LeavesAll(w.pending, kind);
    }
  }

  lemma OneGone(q: seq<T.Ticket>, i: nat)
    requires i < |q|
    ensures multiset(q) - multiset(q[..i] + q[i + 1..]) == multiset{q[i]}
  {
    assert q == q[..i] + ([q[i]] + q[i + 1..]);
  }
}
