/** The timers of one object. The source keeps a std::map from deadlines to lists of timer kinds; here
    it is the sequence of its entries in iteration order. */
module Timers {

  datatype Slot = Slot(deadline: int, kinds: seq<int>)

  datatype Timer = Timer(deadline: int, kind: int)

  predicate Ascending(ts: seq<Slot>) {
    forall i, j :: 0 <= i < j < |ts| ==> ts[i].deadline < ts[j].deadline
  }

  // ---- what a timer list means: the pending timers in firing order ----------------------------

  function Tagged(deadline: int, kinds: seq<int>): (r: seq<Timer>)
    ensures |r| == |kinds|
    ensures forall i :: 0 <= i < |r| ==> r[i] == Timer(deadline, kinds[i])
  {
    seq(|kinds|, i requires 0 <= i < |kinds| => Timer(deadline, kinds[i]))
  }

  function Flat(ts: seq<Slot>): (r: seq<Timer>)
    ensures ts == [] ==> r == []
  {
    if ts == [] then [] else Tagged(ts[0].deadline, ts[0].kinds) + Flat(ts[1..])
  }

  predicate Sorted(q: seq<Timer>) {
    forall i, j :: 0 <= i < j < |q| ==> q[i].deadline <= q[j].deadline
  }

  /** t goes behind everything that is due no later than it. */
  function Enqueue(q: seq<Timer>, t: Timer): (r: seq<Timer>) {
    if q == [] || t.deadline < q[0].deadline then [t] + q else [q[0]] + Enqueue(q[1..], t)
  }

  function RemoveFirst(q: seq<Timer>, kind: int): (r: seq<Timer>) {
    if q == [] then [] else if q[0].kind == kind then q[1..] else [q[0]] + RemoveFirst(q[1..], kind)
  }

  function Count(q: seq<Timer>, kind: int): nat {
    if q == [] then 0 else (if q[0].kind == kind then 1 else 0) + Count(q[1..], kind)
  }

  /** The timers due at now, which come first, and the others. */
  function Due(q: seq<Timer>, now: int): (r: seq<Timer>) {
    if q == [] || q[0].deadline > now then [] else [q[0]] + Due(q[1..], now)
  }

  // ---- the operations on the entries ----------------------------------------------------------

  function Add(ts: seq<Slot>, deadline: int, kind: int): (r: seq<Slot>) {
    if ts == [] || deadline < ts[0].deadline then [Slot(deadline, [kind])] + ts
    else if deadline == ts[0].deadline then [Slot(deadline, ts[0].kinds + [kind])] + ts[1..]
    else [ts[0]] + Add(ts[1..], deadline, kind)
  }

  function IndexOf(kinds: seq<int>, kind: int): (i: nat)
    ensures i <= |kinds|
    ensures i < |kinds| ==> kinds[i] == kind
    ensures kind !in kinds[..i]
  {
    if kinds == [] || kinds[0] == kind then 0 else
      var i := 1 + IndexOf(kinds[1..], kind);
      assert kinds[..i] == [kinds[0]] + kinds[1..][..i - 1];
      i
  }

  /** Erases the first timer of this kind; an entry that loses its last timer stays. */
  function Cancel(ts: seq<Slot>, kind: int): (r: seq<Slot>)
    ensures |r| == |ts| && forall i :: 0 <= i < |ts| ==> r[i].deadline == ts[i].deadline
  {
    if ts == [] then []
    else
      var i := IndexOf(ts[0].kinds, kind);
      if i < |ts[0].kinds| then [Slot(ts[0].deadline, ts[0].kinds[..i] + ts[0].kinds[i + 1..])] + ts[1..]
      else [ts[0]] + Cancel(ts[1..], kind)
  }

  lemma {:induction false} FlatDeadlines(ts: seq<Slot>, i: nat)
    requires Ascending(ts) && i < |Flat(ts)|
    ensures ts != [] && Flat(ts)[i].deadline >= ts[0].deadline
  {
    if ts != [] && i >= |ts[0].kinds| {
      FlatDeadlines(ts[1..], i - |ts[0].kinds|);
    }
  }

  lemma {:induction false} FlatSorted(ts: seq<Slot>)
    requires Ascending(ts)
    ensures Sorted(Flat(ts))
  {
    if ts != [] {
      FlatSorted(ts[1..]);
      var n := |ts[0].kinds|;
      forall i, j | 0 <= i < j < |Flat(ts)|
        ensures Flat(ts)[i].deadline <= Flat(ts)[j].deadline
      {
        if j >= n {
          FlatDeadlines(ts[1..], j - n);
        }
      }
    }
  }

  lemma {:induction false} EnqueueBehind(p: seq<Timer>, q: seq<Timer>, t: Timer)
    requires forall i :: 0 <= i < |p| ==> p[i].deadline <= t.deadline
    ensures Enqueue(p + q, t) == p + Enqueue(q, t)
  {
    if p == [] {
      assert p + q == q;
    } else {
      EnqueueBehind(p[1..], q, t);
      assert (p + q)[1..] == p[1..] + q;
      assert p[0].deadline <= t.deadline;
    }
  }

  lemma {:induction false} AddAscending(ts: seq<Slot>, deadline: int, kind: int)
    requires Ascending(ts)
    ensures Ascending(Add(ts, deadline, kind))
    ensures Add(ts, deadline, kind)[0].deadline ==
            if ts == [] || deadline < ts[0].deadline then deadline else ts[0].deadline
  {
    if ts != [] && deadline > ts[0].deadline {
      AddAscending(ts[1..], deadline, kind);
    }
  }

  lemma TaggedAppend(d: int, a: seq<int>, b: seq<int>)
    ensures Tagged(d, a + b) == Tagged(d, a) + Tagged(d, b)
  {
  }

  lemma FlatCons(slot: Slot, ts: seq<Slot>)
    ensures Flat([slot] + ts) == Tagged(slot.deadline, slot.kinds) + Flat(ts)
  {
    assert ([slot] + ts)[1..] == ts;
  }

  lemma EnqueueFront(ts: seq<Slot>, t: Timer)
    requires Ascending(ts) && (ts == [] || t.deadline < ts[0].deadline)
    ensures Enqueue(Flat(ts), t) == [t] + Flat(ts)
  {
    if Flat(ts) != [] {
      FlatDeadlines(ts, 0);
    }
  }

  /** register_timer keeps the entries in order and puts the new timer behind every timer due no later. */
  lemma {:induction false} AddEnqueues(ts: seq<Slot>, deadline: int, kind: int)
    requires Ascending(ts)
    ensures Flat(Add(ts, deadline, kind)) == Enqueue(Flat(ts), Timer(deadline, kind))
  {
    var t := Timer(deadline, kind);
    assert Tagged(deadline, [kind]) == [t];
    if ts == [] || deadline < ts[0].deadline {
      EnqueueFront(ts, t);
      FlatCons(Slot(deadline, [kind]), ts);
    } else {
      var p, tail := Tagged(ts[0].deadline, ts[0].kinds), ts[1..];
      EnqueueBehind(p, Flat(tail), t);
      hide Tagged, Flat, Enqueue;
      FlatCons(ts[0], tail);
      assert ts == [ts[0]] + tail;
      if deadline == ts[0].deadline {
        EnqueueFront(tail, t);
        TaggedAppend(deadline, ts[0].kinds, [kind]);
        FlatCons(Slot(deadline, ts[0].kinds + [kind]), tail);
        assert p + [t] + Flat(tail) == p + ([t] + Flat(tail));
      } else {
        AddEnqueues(tail, deadline, kind);
        FlatCons(ts[0], Add(tail, deadline, kind));
      }
    }
  }

  lemma {:induction false} RemoveFirstBehind(p: seq<Timer>, q: seq<Timer>, kind: int)
    requires forall i :: 0 <= i < |p| ==> p[i].kind != kind
    ensures RemoveFirst(p + q, kind) == p + RemoveFirst(q, kind)
  {
    if p == [] {
      assert p + q == q;
    } else {
      RemoveFirstBehind(p[1..], q, kind);
      assert (p + q)[1..] == p[1..] + q;
      assert p[0].kind != kind;
    }
  }

  lemma TaggedLacks(d: int, kinds: seq<int>, kind: int)
    requires kind !in kinds
    ensures forall i :: 0 <= i < |kinds| ==> Tagged(d, kinds)[i].kind != kind
  {
  }

  lemma RemoveMiddle(d: int, a: seq<int>, kind: int, b: seq<int>, rest: seq<Timer>)
    requires kind !in a
    ensures RemoveFirst(Tagged(d, a + [kind] + b) + rest, kind) == Tagged(d, a + b) + rest
  {
    var p, t, q := Tagged(d, a), Timer(d, kind), Tagged(d, b) + rest;
    assert Tagged(d, [kind]) == [t];
    TaggedLacks(d, a, kind);
    RemoveFirstBehind(p, [t] + q, kind);
    assert RemoveFirst([t] + q, kind) == q;
    hide Tagged, RemoveFirst;
    TaggedAppend(d, a, b);
    TaggedAppend(d, a, [kind]);
    TaggedAppend(d, a + [kind], b);
    assert p + [t] + Tagged(d, b) + rest == p + ([t] + q);
    assert p + Tagged(d, b) + rest == p + q;
  }

  /** cancel_timer removes the first pending timer of the kind, and no other. */
  lemma {:induction false} CancelRemoves(ts: seq<Slot>, kind: int)
    ensures Flat(Cancel(ts, kind)) == RemoveFirst(Flat(ts), kind)
  {
    hide Flat, Cancel, Tagged, RemoveFirst;
    if ts == [] {
      CancelNone(kind);
    } else {
      var slot, tail := ts[0], ts[1..];
      assert ts == [slot] + tail;
      if kind in slot.kinds {
        CancelledHere(slot, tail, kind);
      } else {
        CancelSkips(slot, tail, kind);
        FlatCons(slot, tail);
        TaggedLacks(slot.deadline, slot.kinds, kind);
        RemoveFirstBehind(Tagged(slot.deadline, slot.kinds), Flat(tail), kind);
        CancelRemoves(tail, kind);
        FlatCons(slot, Cancel(tail, kind));
      }
    }
  }

  lemma CancelNone(kind: int)
    ensures Cancel([], kind) == [] && Flat([]) == [] && RemoveFirst([], kind) == []
  {
  }

  lemma CancelledHere(slot: Slot, tail: seq<Slot>, kind: int)
    requires kind in slot.kinds
    ensures Flat(Cancel([slot] + tail, kind)) == RemoveFirst(Flat([slot] + tail), kind)
  {
    hide Flat, Cancel, Tagged, RemoveFirst;
    var d, ks := slot.deadline, slot.kinds;
    var i := IndexOf(ks, kind);
    IndexIsInside(ks, kind);
    assert ks == ks[..i] + [kind] + ks[i + 1..];
    CancelIsHere(slot, tail, kind, i);
    FlatCons(slot, tail);
    RemoveMiddle(d, ks[..i], kind, ks[i + 1..], Flat(tail));
    FlatCons(Slot(d, ks[..i] + ks[i + 1..]), tail);
  }

  lemma IndexIsInside(kinds: seq<int>, kind: int)
    requires kind in kinds
    ensures IndexOf(kinds, kind) < |kinds|
  {
    assert kinds[..|kinds|] == kinds;
  }

  lemma CancelIsHere(slot: Slot, tail: seq<Slot>, kind: int, i: nat)
    requires i == IndexOf(slot.kinds, kind) < |slot.kinds|
    ensures Cancel([slot] + tail, kind) == [Slot(slot.deadline, slot.kinds[..i] + slot.kinds[i + 1..])] + tail
  {
    assert ([slot] + tail)[1..] == tail;
  }

  lemma {:induction false} CountEnqueue(q: seq<Timer>, t: Timer, kind: int)
    ensures Count(Enqueue(q, t), kind) == Count(q, kind) + if t.kind == kind then 1 else 0
  {
    if q == [] || t.deadline < q[0].deadline {
      assert ([t] + q)[1..] == q;
    } else {
      CountEnqueue(q[1..], t, kind);
      assert ([q[0]] + Enqueue(q[1..], t))[1..] == Enqueue(q[1..], t);
    }
  }

  lemma {:induction false} CountRemove(q: seq<Timer>, kind: int, other: int)
    ensures Count(RemoveFirst(q, kind), other) ==
            Count(q, other) - if kind == other && Count(q, kind) > 0 then 1 else 0
  {
    if q != [] && q[0].kind != kind {
      CountRemove(q[1..], kind, other);
      assert ([q[0]] + RemoveFirst(q[1..], kind))[1..] == RemoveFirst(q[1..], kind);
    }
  }

  /** reset_timer leaves exactly one timer of the kind if and only if at most one was pending; timers
      of other kinds stay. */
  lemma ResetLeavesOneIff(ts: seq<Slot>, deadline: int, kind: int, other: int)
    requires Ascending(ts)
    ensures var n := Count(Flat(Add(Cancel(ts, kind), deadline, kind)), kind);
            && (n == 1 <==> Count(Flat(ts), kind) <= 1)
            && (Count(Flat(ts), kind) > 0 ==> n == Count(Flat(ts), kind))
    ensures other != kind ==> Count(Flat(Add(Cancel(ts, kind), deadline, kind)), other) == Count(Flat(ts), other)
  {
    CancelRemoves(ts, kind);
    AddEnqueues(Cancel(ts, kind), deadline, kind);
    var q := RemoveFirst(Flat(ts), kind);
    CountRemove(Flat(ts), kind, kind);
    CountRemove(Flat(ts), kind, other);
    CountEnqueue(q, Timer(deadline, kind), kind);
    CountEnqueue(q, Timer(deadline, kind), other);
  }

  /** Two timers of a kind registered, one reset of the kind: two are still pending. */
  lemma ResetLeavesTwo()
    ensures var ts := Add(Add([], 10, 1), 20, 1);
            Ascending(ts) && Count(Flat(Add(Cancel(ts, 1), 30, 1)), 1) == 2
  {
    AddAscending([], 10, 1);
    AddAscending(Add([], 10, 1), 20, 1);
    AddEnqueues([], 10, 1);
    AddEnqueues(Add([], 10, 1), 20, 1);
    var ts := Add(Add([], 10, 1), 20, 1);
    CountEnqueue([], Timer(10, 1), 1);
    CountEnqueue(Enqueue([], Timer(10, 1)), Timer(20, 1), 1);
    assert Count(Flat(ts), 1) == 2;
    ResetLeavesOneIff(ts, 30, 1, 1);
  }

  /** The first entry's deadline, which next_timeout looks at, is no later than any pending timer's. */
  lemma HeadIsEarliest(ts: seq<Slot>, i: nat)
    requires Ascending(ts) && i < |Flat(ts)|
    ensures ts != [] && ts[0].deadline <= Flat(ts)[i].deadline
  {
    FlatDeadlines(ts, i);
  }

  // ---- expiry ---------------------------------------------------------------------------------

  predicate Monotone(clock: seq<int>) {
    forall i, j :: 0 <= i < j < |clock| ==> clock[i] <= clock[j]
  }

  /** How many entries the loop of __handle_timeout takes out, reading the clock once for each entry it
      looks at. */
  function Taken(ts: seq<Slot>, clock: seq<int>): (n: nat)
    requires |ts| <= |clock|
    ensures n <= |ts|
    ensures forall i :: 0 <= i < n ==> ts[i].deadline <= clock[i]
    ensures n < |ts| ==> clock[n] < ts[n].deadline
  {
    if ts == [] || clock[0] < ts[0].deadline then 0
    else
      var n := 1 + Taken(ts[1..], clock[1..]);
      assert forall i :: 0 < i < n ==> ts[1..][i - 1] == ts[i] && clock[1..][i - 1] == clock[i];
      n
  }

  /** The last reading the loop took; any reading does when there was no entry to look at. */
  function LastReading(ts: seq<Slot>, clock: seq<int>): int
    requires |ts| <= |clock| && ts != []
  {
    var n := Taken(ts, clock);
    if n < |ts| then clock[n] else clock[n - 1]
  }

  lemma {:induction false} FlatSplit(ts: seq<Slot>, n: nat)
    requires n <= |ts|
    ensures Flat(ts) == Flat(ts[..n]) + Flat(ts[n..])
  {
    if n > 0 {
      FlatSplit(ts[1..], n - 1);
      assert ts[1..][..n - 1] == ts[..n][1..] && ts[1..][n - 1..] == ts[n..];
    } else {
      assert ts[n..] == ts;
    }
  }

  lemma {:induction false} FlatBelow(ts: seq<Slot>, i: nat, d: int)
    requires i < |Flat(ts)| && forall k :: 0 <= k < |ts| ==> ts[k].deadline <= d
    ensures Flat(ts)[i].deadline <= d
  {
    if ts != [] && i >= |ts[0].kinds| {
      FlatBelow(ts[1..], i - |ts[0].kinds|, d);
    }
  }

  lemma {:induction false} DueSplit(p: seq<Timer>, q: seq<Timer>, now: int)
    requires forall i :: 0 <= i < |p| ==> p[i].deadline <= now
    requires q == [] || q[0].deadline > now
    ensures Due(p + q, now) == p
  {
    if p == [] {
      assert p + q == q;
    } else {
      DueSplit(p[1..], q, now);
      assert (p + q)[1..] == p[1..] + q && p[0].deadline <= now;
    }
  }

  /** With a clock that does not run backwards, the loop takes out exactly the timers due at the last
      reading it took, in (deadline, registration) order, and leaves the others. */
  lemma TakenIsDue(ts: seq<Slot>, clock: seq<int>)
    requires Ascending(ts) && Monotone(clock) && |ts| <= |clock| && ts != []
    ensures var n := Taken(ts, clock); var now := LastReading(ts, clock);
            && Flat(ts[..n]) == Due(Flat(ts), now)
            && Flat(ts) == Flat(ts[..n]) + Flat(ts[n..])
            && forall t :: t in Flat(ts[n..]) ==> t.deadline > now
  {
    var n, now := Taken(ts, clock), LastReading(ts, clock);
    FlatSplit(ts, n);
    forall i | 0 <= i < |Flat(ts[..n])| ensures Flat(ts[..n])[i].deadline <= now {
      FlatBelow(ts[..n], i, now);
    }
    forall i | 0 <= i < |Flat(ts[n..])| ensures Flat(ts[n..])[i].deadline > now {
      FlatDeadlines(ts[n..], i);
    }
    DueSplit(Flat(ts[..n]), Flat(ts[n..]), now);
  }

  lemma AscendingFrom(ts: seq<Slot>, n: nat)
    requires Ascending(ts) && n <= |ts|
    ensures Ascending(ts[n..])
  {
  }

  lemma TakeOne(ts: seq<Slot>, clock: seq<int>, n: nat)
    requires n < |ts| <= |clock| && ts[n].deadline <= clock[n]
    ensures Flat(ts[..n + 1]) == Flat(ts[..n]) + Tagged(ts[n].deadline, ts[n].kinds)
    ensures Taken(ts[n..], clock[n..]) == 1 + Taken(ts[n + 1..], clock[n + 1..])
  {
    FlatSplit(ts[..n + 1], n);
    assert ts[..n + 1][..n] == ts[..n] && ts[..n + 1][n..] == [ts[n]];
    FlatCons(ts[n], []);
    assert ts[n..][1..] == ts[n + 1..] && clock[n..][1..] == clock[n + 1..];
  }

  // ---- what becomes of the timers of one object -------------------------------------------------

  /** A timer and the place it has among all those registered for the object. */
  datatype Ticket = Ticket(timer: Timer, serial: nat)

  predicate Before(a: Ticket, b: Ticket) {
    a.timer.deadline < b.timer.deadline || (a.timer.deadline == b.timer.deadline && a.serial < b.serial)
  }

  /** Strictly by deadline, and by order of registration among equal deadlines. */
  predicate Ordered(q: seq<Ticket>) {
    forall i, j :: 0 <= i < j < |q| ==> Before(q[i], q[j])
  }

  function TimersOf(q: seq<Ticket>): (r: seq<Timer>)
    ensures |r| == |q|
    ensures forall i :: 0 <= i < |q| ==> r[i] == q[i].timer
  {
    seq(|q|, i requires 0 <= i < |q| => q[i].timer)
  }

  function Kinds(q: seq<Ticket>): (r: seq<int>)
    ensures |r| == |q|
    ensures forall i :: 0 <= i < |q| ==> r[i] == q[i].timer.kind
  {
    seq(|q|, i requires 0 <= i < |q| => q[i].timer.kind)
  }

  // The operations of the queue, on tickets.

  function Join(q: seq<Ticket>, x: Ticket): seq<Ticket> {
    if q == [] || x.timer.deadline < q[0].timer.deadline then [x] + q else [q[0]] + Join(q[1..], x)
  }

  function Leave(q: seq<Ticket>, kind: int): seq<Ticket> {
    if q == [] then [] else if q[0].timer.kind == kind then q[1..] else [q[0]] + Leave(q[1..], kind)
  }

  /** How many tickets at the front are due. */
  function Ripe(q: seq<Ticket>, now: int): (n: nat)
    ensures n <= |q|
    ensures forall i :: 0 <= i < n ==> q[i].timer.deadline <= now
    ensures n < |q| ==> q[n].timer.deadline > now
  {
    if q == [] || q[0].timer.deadline > now then 0 else 1 + Ripe(q[1..], now)
  }

  lemma TimersOfCons(x: Ticket, q: seq<Ticket>)
    ensures TimersOf([x] + q) == [x.timer] + TimersOf(q)
  {
  }

  lemma {:induction false} JoinEnqueues(q: seq<Ticket>, x: Ticket)
    ensures TimersOf(Join(q, x)) == Enqueue(TimersOf(q), x.timer)
  {
    if q == [] || x.timer.deadline < q[0].timer.deadline {
      TimersOfCons(x, q);
    } else {
      JoinEnqueues(q[1..], x);
      TimersOfCons(q[0], Join(q[1..], x));
      assert TimersOf(q)[1..] == TimersOf(q[1..]);
    }
  }

  lemma {:induction false} LeaveRemoves(q: seq<Ticket>, kind: int)
    ensures TimersOf(Leave(q, kind)) == RemoveFirst(TimersOf(q), kind)
  {
    if q != [] {
      assert TimersOf(q)[1..] == TimersOf(q[1..]);
      if q[0].timer.kind != kind {
        LeaveRemoves(q[1..], kind);
        TimersOfCons(q[0], Leave(q[1..], kind));
      }
    }
  }

  lemma RipeIsDue(q: seq<Ticket>, now: int)
    ensures TimersOf(q[..Ripe(q, now)]) == Due(TimersOf(q), now)
    ensures TimersOf(q) == Due(TimersOf(q), now) + TimersOf(q[Ripe(q, now)..])
  {
    hide Due;
    var n := Ripe(q, now);
    assert TimersOf(q) == TimersOf(q[..n]) + TimersOf(q[n..]);
    DueSplit(TimersOf(q[..n]), TimersOf(q[n..]), now);
  }

  datatype Op =
    | Register(kind: int, delay: int, now: int)
    | Reset(kind: int, delay: int, now: int)
    | CancelOne(kind: int)
    | CancelAll
    | Expire(now: int)

  /** The pending timers, and what became of every timer registered so far: taken out on expiry, or
      cancelled. clock is the latest reading. */
  datatype World = World(pending: seq<Ticket>, taken: seq<Ticket>, dropped: multiset<Ticket>,
                         issued: seq<Ticket>, clock: int)

  const NO_TIMERS := World([], [], multiset{}, [], 0)

  function Enter(w: World, t: Timer): World {
    var x := Ticket(t, |w.issued|);
    w.(pending := Join(w.pending, x), issued := w.issued + [x])
  }

  function Drop(w: World, kind: int): World {
    var q := Leave(w.pending, kind);
    w.(pending := q, dropped := w.dropped + (multiset(w.pending) - multiset(q)))
  }

  function Step(w: World, op: Op): World {
    match op
    case Register(k, d, now) => Enter(w, Timer(now + d, k)).(clock := now)
    case Reset(k, d, now) => Enter(Drop(w, k), Timer(now + d, k)).(clock := now)
    case CancelOne(k) => Drop(w, k)
    case CancelAll => w.(pending := [], dropped := w.dropped + multiset(w.pending))
    case Expire(now) =>
      var n := Ripe(w.pending, now);
      w.(pending := w.pending[n..], taken := w.taken + w.pending[..n], clock := now)
  }

  // What the operations do to the timers pending.

  lemma RegisterIs(w: World, kind: int, delay: int, now: int)
    ensures TimersOf(Step(w, Register(kind, delay, now)).pending) ==
            Enqueue(TimersOf(w.pending), Timer(now + delay, kind))
  {
    JoinEnqueues(w.pending, Ticket(Timer(now + delay, kind), |w.issued|));
  }

  lemma CancelIs(w: World, kind: int)
    ensures TimersOf(Step(w, CancelOne(kind)).pending) == RemoveFirst(TimersOf(w.pending), kind)
  {
    LeaveRemoves(w.pending, kind);
  }

  lemma ResetIs(w: World, kind: int, delay: int, now: int)
    ensures TimersOf(Step(w, Reset(kind, delay, now)).pending) ==
            Enqueue(RemoveFirst(TimersOf(w.pending), kind), Timer(now + delay, kind))
  {
    var x := Ticket(Timer(now + delay, kind), |w.issued|);
    assert Step(w, Reset(kind, delay, now)).pending == Join(Leave(w.pending, kind), x);
    hide *;
    LeaveRemoves(w.pending, kind);
    JoinEnqueues(Leave(w.pending, kind), x);
  }

  lemma ExpireIs(w: World, now: int)
    ensures var n := Ripe(w.pending, now); var q := TimersOf(w.pending);
            && Step(w, Expire(now)).pending == w.pending[n..] && TimersOf(w.pending[..n]) == Due(q, now)
            && q == Due(q, now) + TimersOf(w.pending[n..])
            && (w.pending == [] ==> Due(q, now) == [])
  {
    RipeIsDue(w.pending, now);
  }

  lemma NothingDue(now: int)
    ensures Due([], now) == []
  {
  }

  /** What a list is split into when what is due is taken out. */
  lemma ExpiredIs(w: World, now: int, expired: seq<Timer>, left: seq<Timer>)
    requires TimersOf(w.pending) == expired + left && expired == Due(TimersOf(w.pending), now)
    ensures expired == TimersOf(w.pending[..Ripe(w.pending, now)])
    ensures left == TimersOf(Step(w, Expire(now)).pending)
  {
    hide Due, TimersOf, Ripe;
    ExpireIs(w, now);
    var rest := TimersOf(Step(w, Expire(now)).pending);
    assert left == (expired + left)[|expired|..] && rest == (expired + rest)[|expired|..];
  }

  /** The clock does not run backwards and no delay is negative. */
  predicate InTime(w: World, op: Op) {
    match op
    case Register(_, d, now) => w.clock <= now && 0 <= d
    case Reset(_, d, now) => w.clock <= now && 0 <= d
    case Expire(now) => w.clock <= now
    case _ => true
  }

  lemma {:induction false} JoinContents(q: seq<Ticket>, x: Ticket)
    ensures multiset(Join(q, x)) == multiset(q) + multiset{x}
    ensures forall y :: y in Join(q, x) <==> y in q || y == x
  {
    if q != [] && q[0].timer.deadline <= x.timer.deadline {
      JoinContents(q[1..], x);
      assert q == [q[0]] + q[1..];
    }
  }

  lemma {:induction false} JoinOrdered(q: seq<Ticket>, x: Ticket)
    requires Ordered(q) && forall y :: y in q ==> y.serial < x.serial
    ensures Ordered(Join(q, x))
  {
    if q != [] && q[0].timer.deadline <= x.timer.deadline {
      JoinOrdered(q[1..], x);
      JoinContents(q[1..], x);
      OrderedCons(q[0], Join(q[1..], x));
    } else if q != [] {
      forall y | y in q ensures Before(x, y) {
        var i :| 0 <= i < |q| && q[i] == y;
        assert i > 0 ==> Before(q[0], q[i]);
      }
      OrderedCons(x, q);
    }
  }

  lemma OrderedCons(x: Ticket, q: seq<Ticket>)
    requires Ordered(q) && forall y :: y in q ==> Before(x, y)
    ensures Ordered([x] + q)
  {
  }

  lemma {:induction false} LeaveContents(q: seq<Ticket>, kind: int)
    ensures multiset(Leave(q, kind)) <= multiset(q)
    ensures forall y :: y in Leave(q, kind) ==> y in q
  {
    if q != [] {
      assert q == [q[0]] + q[1..];
      if q[0].timer.kind != kind {
        LeaveContents(q[1..], kind);
      }
    }
  }

  lemma {:induction false} LeaveOrdered(q: seq<Ticket>, kind: int)
    requires Ordered(q)
    ensures Ordered(Leave(q, kind))
  {
    if q != [] && q[0].timer.kind != kind {
      LeaveOrdered(q[1..], kind);
      LeaveContents(q[1..], kind);
      OrderedCons(q[0], Leave(q[1..], kind));
    }
  }

  /** Every timer registered is pending, or has been taken out, or was cancelled, and is so once; those pending
      are in order. */
  predicate Accounted(w: World) {
    && multiset(w.issued) == multiset(w.pending) + multiset(w.taken) + w.dropped
    && (forall i :: 0 <= i < |w.issued| ==> w.issued[i].serial == i)
    && Ordered(w.pending) && (forall y :: y in w.pending ==> y.serial < |w.issued|)
  }

  /** Timers taken out were due by the clock, and come by deadline and order of registration, before
      everything pending. */
  predicate Punctual(w: World) {
    && Ordered(w.pending) && Ordered(w.taken)
    && (forall i :: 0 <= i < |w.taken| ==> w.taken[i].timer.deadline <= w.clock && w.taken[i].serial < |w.issued|)
    && (forall i :: 0 <= i < |w.pending| ==> w.pending[i].serial < |w.issued|)
    && (forall i, j :: 0 <= i < |w.taken| && 0 <= j < |w.pending| ==> Before(w.taken[i], w.pending[j]))
  }

  lemma EnterAccounts(w: World, t: Timer)
    requires Accounted(w)
    ensures Accounted(Enter(w, t))
  {
    JoinContents(w.pending, Ticket(t, |w.issued|));
    JoinOrdered(w.pending, Ticket(t, |w.issued|));
    hide Ordered, Join;
  }

  lemma Moved<T>(whole: multiset<T>, p: multiset<T>, q: multiset<T>, f: multiset<T>, d: multiset<T>)
    requires whole == p + f + d && q <= p
    ensures whole == q + f + (d + (p - q))
  {
  }

  lemma DropAccounts(w: World, kind: int)
    requires Accounted(w)
    ensures Accounted(Drop(w, kind))
  {
    hide Ordered, Leave;
    LeaveContents(w.pending, kind);
    LeaveOrdered(w.pending, kind);
    Moved(multiset(w.issued), multiset(w.pending), multiset(Leave(w.pending, kind)), multiset(w.taken), w.dropped);
  }

  lemma OrderedFrom(q: seq<Ticket>, n: nat)
    requires Ordered(q) && n <= |q|
    ensures Ordered(q[n..]) && forall y :: y in q[n..] ==> y in q
  {
    forall i, j | 0 <= i < j < |q| - n ensures Before(q[n..][i], q[n..][j]) {
      assert q[n..][i] == q[n + i] && q[n..][j] == q[n + j];
    }
  }

  lemma SplitContents(q: seq<Ticket>, n: nat)
    requires n <= |q|
    ensures multiset(q) == multiset(q[..n]) + multiset(q[n..])
  {
    assert q == q[..n] + q[n..];
  }

  lemma ExpireAccounts(w: World, now: int)
    requires Accounted(w)
    ensures Accounted(Step(w, Expire(now)))
  {
    hide Ordered;
    var n := Ripe(w.pending, now);
    OrderedFrom(w.pending, n);
    SplitContents(w.pending, n);
    assert multiset(w.taken + w.pending[..n]) == multiset(w.taken) + multiset(w.pending[..n]);
  }

  /** Whatever is done with the timers of an object, each of them is accounted for once. */
  lemma StepAccounts(w: World, op: Op)
    requires Accounted(w)
    ensures Accounted(Step(w, op))
  {
    hide Enter, Drop;
    match op
    case Register(k, d, now) => EnterAccounts(w, Timer(now + d, k));
    case Reset(k, d, now) =>
      DropAccounts(w, k);
      EnterAccounts(Drop(w, k), Timer(now + d, k));
    case CancelOne(k) => DropAccounts(w, k);
    case CancelAll =>
    case Expire(now) => ExpireAccounts(w, now);
  }

  lemma EnterPunctual(w: World, t: Timer, now: int)
    requires Punctual(w) && w.clock <= now <= t.deadline
    ensures Punctual(Enter(w, t).(clock := now))
  {
    var x := Ticket(t, |w.issued|);
    JoinContents(w.pending, x);
    JoinOrdered(w.pending, x);
    var q := Join(w.pending, x);
    hide Ordered, Join;
    forall j | 0 <= j < |q|
      ensures q[j].serial <= |w.issued| && forall i :: 0 <= i < |w.taken| ==> Before(w.taken[i], q[j])
    {
      assert q[j] in q && (q[j] in w.pending || q[j] == x);
    }
  }

  lemma DropPunctual(w: World, kind: int)
    requires Punctual(w)
    ensures Punctual(Drop(w, kind)) && Drop(w, kind).clock == w.clock
  {
    LeaveContents(w.pending, kind);
    LeaveOrdered(w.pending, kind);
    var q := Leave(w.pending, kind);
    hide Ordered, Leave, Before;
    forall j | 0 <= j < |q|
      ensures q[j].serial < |w.issued| && forall i :: 0 <= i < |w.taken| ==> Before(w.taken[i], q[j])
    {
      assert q[j] in q && q[j] in w.pending;
    }
  }

  lemma ExpirePunctual(w: World, now: int)
    requires Punctual(w) && w.clock <= now
    ensures Punctual(Step(w, Expire(now)))
  {
    hide Before;
    var n := Ripe(w.pending, now);
    assert forall i, j :: 0 <= i < n <= j < |w.pending| ==> Before(w.pending[i], w.pending[j]);
  }

  /** With a clock that does not run backwards and delays that are not negative, no timer is taken out
      early or out of order. */
  lemma StepPunctual(w: World, op: Op)
    requires Punctual(w) && InTime(w, op)
    ensures Punctual(Step(w, op))
  {
    hide Enter, Drop;
    match op
    case Register(k, d, now) => EnterPunctual(w, Timer(now + d, k), now);
    case Reset(k, d, now) =>
      DropPunctual(w, k);
      EnterPunctual(Drop(w, k), Timer(now + d, k), now);
    case CancelOne(k) => DropPunctual(w, k);
    case CancelAll =>
    case Expire(now) => ExpirePunctual(w, now);
  }

  // ---- the object -----------------------------------------------------------------------------

  class TimerList {
    var entries: seq<Slot>

    ghost function Pending(): seq<Timer>
      reads this
    {
      Flat(entries)
    }

    /** The entries are in order, and the timers pending are these. */
    ghost predicate Holds(q: seq<Timer>)
      reads this
    {
      Ascending(entries) && Pending() == q
    }

    constructor ()
      ensures entries == [] && Pending() == []
    {
      entries := [];
    }

    method RegisterTimer(kind: int, delay: int, now: int)
      requires Ascending(entries)
      modifies this
      ensures Ascending(entries) && Pending() == Enqueue(old(Pending()), Timer(now + delay, kind))
    {
      AddEnqueues(entries, now + delay, kind);
      AddAscending(entries, now + delay, kind);
      entries := Add(entries, now + delay, kind);
    }

    /** Walks the entries in deadline order and erases the first timer of the kind it meets. */
    method CancelTimer(kind: int)
      requires Ascending(entries)
      modifies this
      ensures Ascending(entries) && entries == Cancel(old(entries), kind)
      ensures Pending() == RemoveFirst(old(Pending()), kind)
    {
      CancelRemoves(entries, kind);
      hide Cancel, Flat, RemoveFirst;
      var i := 0;
      assert entries[0..] == entries;
      while i < |entries|
        invariant 0 <= i <= |entries| && entries == old(entries)
        invariant Cancel(entries, kind) == entries[..i] + Cancel(entries[i..], kind)
      {
        var kinds := entries[i].kinds;
        var j := 0;
        while j < |kinds|
          invariant 0 <= j <= |kinds| && entries == old(entries) && kind !in kinds[..j]
        {
          if kinds[j] == kind {
            CancelHere(entries, i, j, kind);
            entries := entries[i := Slot(entries[i].deadline, kinds[..j] + kinds[j + 1..])];
            return;
          }
          j := j + 1;
        }
        assert kinds[..j] == kinds;
        CancelLater(entries, i, kind);
        i := i + 1;
      }
      CancelEmpty(kind);
    }

    method ResetTimer(kind: int, delay: int, now: int)
      requires Ascending(entries)
      modifies this
      ensures Ascending(entries)
      ensures Pending() == Enqueue(RemoveFirst(old(Pending()), kind), Timer(now + delay, kind))
    {
      CancelTimer(kind);
      RegisterTimer(kind, delay, now);
    }

    method CancelAllTimer()
      modifies this
      ensures entries == [] && Pending() == []
    {
      entries := [];
    }

    method PendingTimer(kind: int) returns (found: bool)
      ensures found <==> exists t :: t in Pending() && t.kind == kind
    {
      var i := 0;
      while i < |entries|
        invariant 0 <= i <= |entries|
        invariant forall t :: t in Flat(entries[..i]) ==> t.kind != kind
      {
        FlatSplit(entries, i);
        FlatSplit(entries[..i + 1], i);
        assert entries[..i + 1][..i] == entries[..i] && entries[..i + 1][i..] == [entries[i]];
        FlatCons(entries[i], []);
        if kind in entries[i].kinds {
          var j :| 0 <= j < |entries[i].kinds| && entries[i].kinds[j] == kind;
          FlatSplit(entries, i + 1);
          assert Tagged(entries[i].deadline, entries[i].kinds)[j] in Flat(entries[..i + 1]);
          return true;
        }
        i := i + 1;
      }
      assert entries[..i] == entries;
      return false;
    }

    /** The first half of __handle_timeout: takes entries out for as long as they are due, reading the
        clock before each, and collects their timers. */
    method TakeExpired(clock: seq<int>) returns (expired: seq<Timer>)
      requires Ascending(entries) && Monotone(clock) && |entries| <= |clock|
      modifies this
      ensures Ascending(entries) && old(Pending()) == expired + Pending()
      ensures old(entries) != [] ==>
                var now := LastReading(old(entries), clock);
                expired == Due(old(Pending()), now) && forall t :: t in Pending() ==> t.deadline > now
    {
      hide Due, Tagged, LastReading, Flat, Ascending, Monotone;
      assert old(entries)[0..] == entries && clock[0..] == clock;
      expired := [];
      var n := 0;
      while entries != [] && entries[0].deadline <= clock[n]
        invariant 0 <= n <= |old(entries)| && entries == old(entries)[n..]
        invariant expired == Flat(old(entries)[..n])
        invariant Taken(old(entries), clock) == n + Taken(entries, clock[n..])
        decreases |entries|
      {
        TakeOne(old(entries), clock, n);
        expired := expired + Tagged(entries[0].deadline, entries[0].kinds);
        entries := entries[1..];
        n := n + 1;
      }
      FlatSplit(old(entries), n);
      AscendingFrom(old(entries), n);
      if old(entries) != [] {
        TakenIsDue(old(entries), clock);
      }
    }
  }

  lemma {:induction false} IndexIs(kinds: seq<int>, kind: int, j: nat)
    requires j < |kinds| && kinds[j] == kind && kind !in kinds[..j]
    ensures IndexOf(kinds, kind) == j
  {
    if j > 0 {
      assert kinds[0] == kinds[..j][0] != kind;
      assert kinds[1..][..j - 1] == kinds[..j][1..];
      IndexIs(kinds[1..], kind, j - 1);
    }
  }

  lemma CancelEmpty(kind: int)
    ensures Cancel([], kind) == []
  {
  }

  lemma CancelLater(ts: seq<Slot>, i: nat, kind: int)
    requires i < |ts| && kind !in ts[i].kinds
    ensures ts[..i] + Cancel(ts[i..], kind) == ts[..i + 1] + Cancel(ts[i + 1..], kind)
  {
    hide Cancel;
    CancelSkips(ts[i], ts[i + 1..], kind);
    assert ts[i..] == [ts[i]] + ts[i + 1..];
    OneMore(ts, i, Cancel(ts[i + 1..], kind));
  }

  lemma OneMore<T>(s: seq<T>, i: nat, rest: seq<T>)
    requires i < |s|
    ensures s[..i] + ([s[i]] + rest) == s[..i + 1] + rest
  {
  }

  lemma CancelSkips(slot: Slot, ts: seq<Slot>, kind: int)
    requires kind !in slot.kinds
    ensures Cancel([slot] + ts, kind) == [slot] + Cancel(ts, kind)
  {
    assert ([slot] + ts)[1..] == ts;
  }

  lemma CancelHere(ts: seq<Slot>, i: nat, j: nat, kind: int)
    requires i < |ts| && j < |ts[i].kinds| && ts[i].kinds[j] == kind && kind !in ts[i].kinds[..j]
    ensures ts[..i] + Cancel(ts[i..], kind) ==
            ts[i := Slot(ts[i].deadline, ts[i].kinds[..j] + ts[i].kinds[j + 1..])]
  {
    IndexIs(ts[i].kinds, kind, j);
    assert ts[i..][0] == ts[i] && ts[i..][1..] == ts[i + 1..];
  }
}
