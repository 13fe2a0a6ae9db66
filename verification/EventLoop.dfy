/** The event loop of one I/O thread and the threads that notify its objects, as a state machine with
    one step per lock region. Objects are identities that are never reused. Handlers return normally;
    while one runs, the loop thread may create and destroy objects and change their descriptors. */
module EventLoop {

  type Obj(==,!new)
  type Tid(==,!new)
  type Event(==,!new)
  type Fd = int

  /** Where a thread is inside notify: not in it; event queued but object not yet put up for wakeup;
      the flag set by this call but the token not yet written to the pipe. */
  datatype Phase = Idle | Posted(o: Obj) | MustWrite

  /** Where the loop thread is. The lists are the local copies the code works through. */
  datatype Control =
    | Top
    | Armed
    | Cleared
    | Draining(rest: seq<Obj>)
    | Delivering(o: Obj, batch: seq<Event>, rest: seq<Obj>)
    | InEvent(o: Obj, batch: seq<Event>, rest: seq<Obj>)
    | ReadFds(fds: seq<Fd>)
    | InRead(o: Obj, fd: Fd, fds: seq<Fd>)
    | WriteFds(fds: seq<Fd>)
    | InWrite(o: Obj, fd: Fd, fds: seq<Fd>)
    | Timeouts(rest: seq<Obj>)
    | Firing(o: Obj, due: seq<int>, rest: seq<Obj>)
    | InTimeout(o: Obj, due: seq<int>, rest: seq<Obj>)

  /** What the wakeup protocol is made of: the event queues, the wakeup set, the flag, the octets in
      the pipe, and where each notifying thread is. */
  datatype Signals = Signals(events: map<Obj, seq<Event>>, wakeup: set<Obj>, flag: bool, tokens: int,
                             notifiers: map<Tid, Phase>)

  /** The thread's lists of objects and its descriptor maps. */
  datatype Lists = Lists(insertion: set<Obj>, main: set<Obj>, deletion: set<Obj>,
                         rfds: map<Fd, Obj>, wfds: map<Fd, Obj>, timeouts: seq<Obj>)

  /** History: which objects live, what was posted to each object, what its handler was given. */
  datatype History = History(alive: set<Obj>, posted: map<Obj, seq<Event>>, delivered: map<Obj, seq<Event>>)

  datatype State = State(sig: Signals, lists: Lists, pc: Control, hist: History)

  /** A notifying thread queues its event, puts the object up for wakeup, writes the token. */
  datatype Notify = Post(t: Tid, o: Obj, e: Event) | Enlist(t: Tid) | WriteToken(t: Tid)

  /** handle_events: reset the flag, copy the wakeup set, look at an object, call its handler for one
      event, come back from it, read the token. */
  datatype Pass = StartEvents | Copy(order: seq<Obj>) | NextObject | Deliver | EventDone | ReceiveToken

  /** The rest of the loop: fdset and next_timeout, then descriptors or timeouts. */
  datatype Poll =
    | Arm(due: seq<Obj>) | StartFds | StartTimeouts
    | ReadNext(ready: bool) | ReadDone | WriteNext(ready: bool) | WriteDone
    | TimeoutNext(expired: seq<int>) | FireNext | TimeoutDone

  /** What the loop thread does inside a handler, or before the loop starts. */
  datatype Work =
    | Create(o: Obj) | Destroy(o: Obj)
    | RegisterR(o: Obj, fd: Fd) | DeregisterR(fd: Fd) | RegisterW(o: Obj, fd: Fd) | DeregisterW(fd: Fd)

  datatype Action = Notifier(n: Notify) | EventPass(p: Pass) | Polling(l: Poll) | Handler(w: Work)

  /** Between the reset of the flag and the reading of the token. */
  predicate InWindow(pc: Control) {
    pc.Cleared? || pc.Draining? || pc.Delivering? || pc.InEvent?
  }

  predicate InHandler(pc: Control) {
    pc.InEvent? || pc.InRead? || pc.InWrite? || pc.InTimeout?
  }

  function PhaseOf(ns: map<Tid, Phase>, t: Tid): Phase {
    if t in ns then ns[t] else Idle
  }

  /** The objects handle_events copies: put up for wakeup, not scheduled for deletion, in the main list. */
  function Awake(s: State): set<Obj> {
    (s.sig.wakeup - s.lists.deletion) * s.lists.main
  }

  function Elements(xs: seq<Obj>): set<Obj> {
    set x | x in xs
  }

  function Filter(xs: seq<Obj>, gone: set<Obj>): (r: seq<Obj>)
    ensures forall x :: x in r <==> x in xs && x !in gone
  {
    if xs == [] then []
    else if xs[0] in gone then Filter(xs[1..], gone) else [xs[0]] + Filter(xs[1..], gone)
  }

  lemma {:induction false} FilterNothing(xs: seq<Obj>, gone: set<Obj>)
    requires forall x :: x in xs ==> x !in gone
    ensures Filter(xs, gone) == xs
  {
    if xs != [] {
      assert xs[0] in xs && forall x :: x in xs[1..] ==> x in xs;
      FilterNothing(xs[1..], gone);
    }
  }

  function RemoveObj(m: map<Fd, Obj>, o: Obj): map<Fd, Obj> {
    map fd | fd in m && m[fd] != o :: m[fd]
  }

  function NextBatch(o: Obj, batch: seq<Event>, rest: seq<Obj>): Control {
    if batch == [] then Draining(rest) else Delivering(o, batch, rest)
  }

  // ---- the steps ----------------------------------------------------------------------------

  predicate CanNotify(s: State, a: Notify) {
    match a
    case Post(t, o, e) =>
      PhaseOf(s.sig.notifiers, t) == Idle && o in s.hist.alive && o in s.sig.events && o in s.hist.posted
    case Enlist(t) => PhaseOf(s.sig.notifiers, t).Posted?
    case WriteToken(t) => PhaseOf(s.sig.notifiers, t) == MustWrite
  }

  function NotifyStep(s: State, a: Notify): State
    requires CanNotify(s, a)
  {
    var g := s.sig;
    match a
    case Post(t, o, e) =>
      s.(sig := g.(events := g.events[o := g.events[o] + [e]], notifiers := g.notifiers[t := Posted(o)]),
         hist := s.hist.(posted := s.hist.posted[o := s.hist.posted[o] + [e]]))
    case Enlist(t) =>
      s.(sig := g.(wakeup := g.wakeup + {PhaseOf(g.notifiers, t).o}, flag := true,
                   notifiers := g.notifiers[t := if g.flag then Idle else MustWrite]))
    case WriteToken(t) =>
      s.(sig := g.(tokens := g.tokens + 1, notifiers := g.notifiers[t := Idle]))
  }

  predicate CanPass(s: State, a: Pass) {
    match a
    case StartEvents => s.pc.Armed? && s.sig.tokens > 0
    case Copy(order) => s.pc.Cleared? && Elements(order) == Awake(s) && |order| == |Awake(s)|
    case NextObject => s.pc.Draining? && s.pc.rest != [] && s.pc.rest[0] in s.sig.events
    case Deliver => s.pc.Delivering? && s.pc.batch != [] && s.pc.o in s.hist.delivered
    case EventDone => s.pc.InEvent?
    case ReceiveToken => s.pc.Draining? && s.pc.rest == []
  }

  ghost function PassStep(s: State, a: Pass): State
    requires CanPass(s, a)
  {
    var g := s.sig;
    match a
    case StartEvents => s.(sig := g.(flag := false), pc := Cleared)
    case Copy(order) => s.(sig := g.(wakeup := {}), pc := Draining(order))
    case NextObject =>
      var o, rest := s.pc.rest[0], s.pc.rest[1..];
      if o in s.lists.deletion then s.(pc := Draining(rest))
      else s.(sig := g.(events := g.events[o := []]), pc := NextBatch(o, g.events[o], rest))
    case Deliver =>
      s.(hist := s.hist.(delivered := s.hist.delivered[s.pc.o := s.hist.delivered[s.pc.o] + [s.pc.batch[0]]]),
         pc := InEvent(s.pc.o, s.pc.batch[1..], s.pc.rest))
    case EventDone =>
      s.(pc := if s.pc.o in s.lists.deletion then Draining(s.pc.rest) else NextBatch(s.pc.o, s.pc.batch, s.pc.rest))
    case ReceiveToken =>
      // reading an empty pipe returns at once
      s.(sig := g.(tokens := if g.tokens > 0 then g.tokens - 1 else g.tokens),
          pc := ReadFds(SortedKeys(s.lists.rfds.Keys)))
  }

  predicate CanPoll(l: Lists, pc: Control, a: Poll) {
    match a
    case Arm(due) => pc.Top? && Elements(due) <= (l.main + l.insertion) - l.deletion
    case StartFds => pc.Armed?
    case StartTimeouts => pc.Armed?
    case ReadNext(_) => pc.ReadFds?
    case ReadDone => pc.InRead?
    case WriteNext(_) => pc.WriteFds?
    case WriteDone => pc.InWrite?
    case TimeoutNext(_) => pc.Timeouts?
    case FireNext => pc.Firing?
    case TimeoutDone => pc.InTimeout?
  }

  ghost function PollPc(l: Lists, pc: Control, a: Poll): Control
    requires CanPoll(l, pc, a)
  {
    match a
    case Arm(_) => Armed
    case StartFds => ReadFds(SortedKeys(l.rfds.Keys))
    case StartTimeouts => Timeouts(Filter(l.timeouts, l.deletion))
    case ReadNext(ready) =>
      if pc.fds == [] then WriteFds(SortedKeys(l.wfds.Keys))
      else if ready && pc.fds[0] in l.rfds && l.rfds[pc.fds[0]] !in l.deletion
      then InRead(l.rfds[pc.fds[0]], pc.fds[0], pc.fds[1..])
      else ReadFds(pc.fds[1..])
    case ReadDone => ReadFds(pc.fds)
    case WriteNext(ready) =>
      if pc.fds == [] then Top
      else if ready && pc.fds[0] in l.wfds && l.wfds[pc.fds[0]] !in l.deletion
      then InWrite(l.wfds[pc.fds[0]], pc.fds[0], pc.fds[1..])
      else WriteFds(pc.fds[1..])
    case WriteDone => WriteFds(pc.fds)
    case TimeoutNext(expired) =>
      if pc.rest == [] then Top
      else if pc.rest[0] in l.deletion || pc.rest[0] !in l.main then Timeouts(pc.rest[1..])
      else Firing(pc.rest[0], expired, pc.rest[1..])
    case FireNext =>
      if pc.due == [] || pc.o in l.deletion || pc.o !in l.main then Timeouts(pc.rest)
      else InTimeout(pc.o, pc.due[1..], pc.rest)
    case TimeoutDone => Firing(pc.o, pc.due, pc.rest)
  }

  /** m without the descriptor fd when its owner is scheduled for deletion. */
  function Purge(m: map<Fd, Obj>, fds: seq<Fd>, deletion: set<Obj>): map<Fd, Obj> {
    if fds != [] && fds[0] in m && m[fds[0]] in deletion then m - {fds[0]} else m
  }

  ghost function PollLists(l: Lists, pc: Control, a: Poll): Lists
    requires CanPoll(l, pc, a)
  {
    match a
    case Arm(due) => l.(main := (l.main + l.insertion) - l.deletion, insertion := {}, deletion := {}, timeouts := due)
    case StartTimeouts => l.(timeouts := [])
    case ReadNext(_) => l.(rfds := Purge(l.rfds, pc.fds, l.deletion))
    case WriteNext(_) => l.(wfds := Purge(l.wfds, pc.fds, l.deletion))
    case _ => l
  }

  predicate CanWork(s: State, a: Work) {
    && (InHandler(s.pc) || s.pc.Top?)
    && match a
       case Create(o) => o !in s.sig.events
       case Destroy(o) => o in s.hist.alive
       case RegisterR(o, _) => o in s.hist.alive
       case RegisterW(o, _) => o in s.hist.alive
       case _ => true
  }

  function WorkLists(l: Lists, a: Work): Lists {
    match a
    case Create(o) => l.(insertion := l.insertion + {o})
    case Destroy(o) =>
      l.(deletion := l.deletion + {o}, rfds := RemoveObj(l.rfds, o), wfds := RemoveObj(l.wfds, o),
         timeouts := Filter(l.timeouts, {o}))
    case RegisterR(o, fd) => l.(rfds := l.rfds[fd := o])
    case DeregisterR(fd) => l.(rfds := l.rfds - {fd})
    case RegisterW(o, fd) => l.(wfds := l.wfds[fd := o])
    case DeregisterW(fd) => l.(wfds := l.wfds - {fd})
  }

  function WorkHistory(h: History, a: Work): History {
    match a
    case Create(o) => History(h.alive + {o}, h.posted[o := []], h.delivered[o := []])
    case Destroy(o) => h.(alive := h.alive - {o})
    case _ => h
  }

  predicate Enabled(s: State, a: Action) {
    match a
    case Notifier(n) => CanNotify(s, n)
    case EventPass(p) => CanPass(s, p)
    case Polling(l) => CanPoll(s.lists, s.pc, l)
    case Handler(w) => CanWork(s, w)
  }

  ghost function Step(s: State, a: Action): State
    requires Enabled(s, a)
  {
    match a
    case Notifier(n) => NotifyStep(s, n)
    case EventPass(p) => PassStep(s, p)
    case Polling(l) => s.(lists := PollLists(s.lists, s.pc, l), pc := PollPc(s.lists, s.pc, l))
    case Handler(w) =>
      s.(sig := if w.Create? then s.sig.(events := s.sig.events[w.o := []]) else s.sig,
         lists := WorkLists(s.lists, w), hist := WorkHistory(s.hist, w))
  }

  const INIT := State(Signals(map[], {}, false, 0, map[]), Lists({}, {}, {}, map[], map[], []), Top,
                      History({}, map[], map[]))

  ghost predicate Least(ks: set<Fd>, k: Fd) {
    k in ks && forall j :: j in ks ==> k <= j
  }

  /** The keys in ascending order, as iterating a std::map gives them. */
  ghost function SortedKeys(ks: set<Fd>): (r: seq<Fd>)
    decreases |ks|
  {
    if exists k :: k in ks then
      LeastExists(ks);
      var k :| Least(ks, k);
      [k] + SortedKeys(ks - {k})
    else []
  }

  lemma {:induction false} LeastExists(ks: set<Fd>)
    requires exists k :: k in ks
    ensures exists k :: Least(ks, k)
    decreases |ks|
  {
    var k :| k in ks;
    var others := ks - {k};
    assert forall j :: j in ks ==> j == k || j in others;
    if exists j :: j in others {
      LeastExists(others);
      var l :| Least(others, l);
      assert Least(ks, if k <= l then k else l);
    } else {
      assert Least(ks, k);
    }
  }

  // ---- the invariant ------------------------------------------------------------------------

  /** The notifiers that set the flag and still owe the token. */
  function Writers(ns: map<Tid, Phase>): set<Tid> {
    set t | t in ns && ns[t] == MustWrite
  }

  function One(b: bool): nat { if b then 1 else 0 }

  /** Tokens in the pipe and tokens owed account for the flag and for the window. */
  predicate TokensBalance(g: Signals, pc: Control) {
    && 0 <= g.tokens
    && g.tokens + |Writers(g.notifiers)| == One(g.flag) + One(InWindow(pc))
    && (InWindow(pc) ==> g.tokens > 0)
  }

  predicate WakeupSignalled(g: Signals, pc: Control) {
    g.wakeup != {} ==> g.flag || pc.Cleared?
  }

  /** The objects the current pass of handle_events still has to look at. */
  function ToDrain(pc: Control): seq<Obj> {
    if pc.Draining? || pc.Delivering? || pc.InEvent? then pc.rest else []
  }

  /** Somebody will look at o's queue: it is put up for wakeup, or in the pass, or about to be put up. */
  predicate Covered(g: Signals, pc: Control, o: Obj) {
    o in g.wakeup || o in ToDrain(pc) || exists t :: t in g.notifiers && g.notifiers[t] == Posted(o)
  }

  predicate AllCovered(g: Signals, pc: Control, alive: set<Obj>) {
    forall o :: o in alive && o in g.events && g.events[o] != [] ==> Covered(g, pc, o)
  }

  /** The events taken from o's queue whose handler calls are still to come. */
  function InFlight(pc: Control, o: Obj): seq<Event> {
    if (pc.Delivering? || pc.InEvent?) && pc.o == o then pc.batch else []
  }

  /** What was posted to a live object is what its handler got, then what is in flight, then what is
      queued; a destroyed object's handler got a prefix. */
  predicate InOrder(g: Signals, pc: Control, h: History) {
    && g.events.Keys == h.posted.Keys == h.delivered.Keys
    && (forall o :: o in h.posted ==> h.delivered[o] <= h.posted[o])
    && (forall o :: o in h.alive && o in h.posted ==> h.posted[o] == h.delivered[o] + InFlight(pc, o) + g.events[o])
  }

  predicate AllIn(xs: seq<Obj>, a: set<Obj>) {
    forall o :: o in xs ==> o in a
  }

  predicate ValuesIn(m: map<Fd, Obj>, a: set<Obj>) {
    forall fd :: fd in m ==> m[fd] in a
  }

  /** The lists and maps of the thread: the descriptor maps and the timeout list hold only live
      objects; a destroyed object still in the insertion or main list is in the deletion list. */
  predicate Registered(l: Lists, alive: set<Obj>, born: set<Obj>) {
    && (forall o :: o in alive ==> o in born && o !in l.deletion && (o in l.insertion || o in l.main))
    && (forall o :: o in l.deletion ==> o in born && o !in alive)
    && (forall o :: o in l.insertion ==> o in alive || o in l.deletion)
    && (forall o :: o in l.main ==> o in alive || o in l.deletion)
    && ValuesIn(l.rfds, alive) && ValuesIn(l.wfds, alive)
    && AllIn(l.timeouts, alive)
  }

  /** No handler has run since fdset emptied the insertion and deletion lists. */
  predicate Settled(l: Lists, pc: Control) {
    pc.Armed? || pc.Cleared? ==> l.insertion == {} && l.deletion == {}
  }

  /** What the loop thread holds in local variables is alive or scheduled for deletion, and alive
      where its handler is about to be called. */
  predicate Held(pc: Control, alive: set<Obj>, deletion: set<Obj>) {
    && (pc.Draining? || pc.Delivering? || pc.InEvent? || pc.Timeouts? || pc.Firing? || pc.InTimeout? ==>
          AllIn(pc.rest, alive + deletion))
    && (pc.Delivering? ==> pc.o in alive && pc.batch != [])
    && (pc.Firing? || InHandler(pc) ==> pc.o in alive + deletion)
  }

  predicate Protocol(g: Signals, pc: Control, h: History) {
    TokensBalance(g, pc) && WakeupSignalled(g, pc) && AllCovered(g, pc, h.alive) && InOrder(g, pc, h)
  }

  predicate Lifetimes(s: State) {
    && Registered(s.lists, s.hist.alive, s.sig.events.Keys)
    && Settled(s.lists, s.pc)
    && Held(s.pc, s.hist.alive, s.lists.deletion)
  }

  predicate Inv(s: State) {
    Protocol(s.sig, s.pc, s.hist) && Lifetimes(s)
  }

  lemma InitInv()
    ensures Inv(INIT)
  {
    assert Writers(INIT.sig.notifiers) == {};
  }

  // ---- every step keeps it ------------------------------------------------------------------

  lemma WritersUpdate(ns: map<Tid, Phase>, t: Tid, p: Phase)
    ensures |Writers(ns[t := p])| == |Writers(ns)| - One(PhaseOf(ns, t) == MustWrite) + One(p == MustWrite)
  {
    var w := Writers(ns);
    var v := Writers(ns[t := p]);
    if p == MustWrite {
      assert v == w + {t};
    } else {
      assert v == w - {t};
    }
  }

  /** Notifier t moved on; another thread that covered o still does. */
  lemma CoveredStays(g: Signals, k: Signals, pc: Control, o: Obj, t: Tid)
    requires Covered(g, pc, o) && g.wakeup <= k.wakeup
    requires PhaseOf(g.notifiers, t) == Posted(o) ==> o in k.wakeup
    requires forall u :: u in g.notifiers && u != t ==> u in k.notifiers && k.notifiers[u] == g.notifiers[u]
    ensures Covered(k, pc, o)
  {
    if o !in g.wakeup && o !in ToDrain(pc) {
      var u :| u in g.notifiers && g.notifiers[u] == Posted(o);
      if u != t {
        assert k.notifiers[u] == Posted(o);
      }
    }
  }

  lemma NotifyTokens(s: State, a: Notify)
    requires TokensBalance(s.sig, s.pc) && WakeupSignalled(s.sig, s.pc) && CanNotify(s, a)
    ensures TokensBalance(NotifyStep(s, a).sig, s.pc) && WakeupSignalled(NotifyStep(s, a).sig, s.pc)
  {
    var q := NotifyStep(s, a);
    WritersUpdate(s.sig.notifiers, a.t, q.sig.notifiers[a.t]);
  }

  lemma NotifyCovers(s: State, a: Notify)
    requires AllCovered(s.sig, s.pc, s.hist.alive) && CanNotify(s, a)
    ensures AllCovered(NotifyStep(s, a).sig, s.pc, s.hist.alive)
  {
    var q := NotifyStep(s, a);
    hide Covered;
    forall o | o in q.hist.alive && o in q.sig.events && q.sig.events[o] != []
      ensures Covered(q.sig, q.pc, o)
    {
      if a.Post? && o == a.o {
        PostedCovers(q.sig, q.pc, o, a.t);
      } else {
        CoveredStays(s.sig, q.sig, s.pc, o, a.t);
      }
    }
  }

  lemma PostedCovers(g: Signals, pc: Control, o: Obj, t: Tid)
    requires t in g.notifiers && g.notifiers[t] == Posted(o)
    ensures Covered(g, pc, o)
  {
  }

  lemma NotifyOrder(s: State, a: Notify)
    requires InOrder(s.sig, s.pc, s.hist) && CanNotify(s, a)
    ensures InOrder(NotifyStep(s, a).sig, s.pc, NotifyStep(s, a).hist)
    ensures NotifyStep(s, a).sig.events.Keys == s.sig.events.Keys
  {
    if a.Post? {
      var q := NotifyStep(s, a);
      assert q.sig.events.Keys == s.sig.events.Keys && q.hist.posted.Keys == s.hist.posted.Keys;
      forall o | o in q.hist.alive && o in q.hist.posted
        ensures q.hist.posted[o] == q.hist.delivered[o] + InFlight(s.pc, o) + q.sig.events[o]
      {
        assert s.hist.posted[o] == s.hist.delivered[o] + InFlight(s.pc, o) + s.sig.events[o];
      }
    }
  }

  /** Whichever of its three lock regions a notifier takes next, the invariant holds again. */
  lemma NotifyKeeps(s: State, a: Notify)
    requires Inv(s) && CanNotify(s, a)
    ensures Inv(NotifyStep(s, a))
  {
    NotifyTokens(s, a);
    NotifyCovers(s, a);
    NotifyOrder(s, a);
    NotifyElsewhere(s, a);
    hide CanNotify, NotifyStep, TokensBalance, WakeupSignalled, AllCovered, InOrder, Registered, Held, Settled;
  }

  lemma NotifyElsewhere(s: State, a: Notify)
    requires CanNotify(s, a)
    ensures var q := NotifyStep(s, a); q.lists == s.lists && q.pc == s.pc && q.hist.alive == s.hist.alive
  {
  }

  /** The control moved on, but the list to drain did not lose an object with pending events. */
  lemma StillCovered(g: Signals, k: Signals, pc: Control, pd: Control, was: set<Obj>, alive: set<Obj>)
    requires AllCovered(g, pc, was) && k.notifiers == g.notifiers
    requires forall o :: o in alive && o in k.events && k.events[o] != [] ==>
            o in was && o in g.events && g.events[o] != []
    requires forall o :: o in alive && o in k.events && k.events[o] != [] ==>
               (o in g.wakeup ==> o in k.wakeup || o in ToDrain(pd)) && (o in ToDrain(pc) ==> o in ToDrain(pd))
    ensures AllCovered(k, pd, alive)
  {
    forall o | o in alive && o in k.events && k.events[o] != []
      ensures Covered(k, pd, o)
    {
      assert Covered(g, pc, o);
    }
  }

  /** Object o is next: its queue becomes the batch, or o is destroyed and its queue is left alone. */
  lemma NextProtocol(g: Signals, o: Obj, rest: seq<Obj>, h: History, live: bool)
    requires Protocol(g, Draining([o] + rest), h) && o in g.events && (live || o !in h.alive)
    ensures !live ==> Protocol(g, Draining(rest), h)
    ensures live ==> Protocol(g.(events := g.events[o := []]), NextBatch(o, g.events[o], rest), h)
  {
    var k := if live then g.(events := g.events[o := []]) else g;
    var pd := if live then NextBatch(o, g.events[o], rest) else Draining(rest);
    assert ToDrain(pd) == rest;
    StillCovered(g, k, Draining([o] + rest), pd, h.alive, h.alive);
    assert InOrder(k, pd, h) by {
      hide Covered, AllCovered, WakeupSignalled, TokensBalance;
      assert k.events.Keys == g.events.Keys;
      forall p | p in h.alive && p in h.posted
        ensures h.posted[p] == h.delivered[p] + InFlight(pd, p) + k.events[p]
      {
        assert h.posted[p] == h.delivered[p] + [] + g.events[p] == h.delivered[p] + g.events[p] + [];
      }
    }
  }

  lemma NextKeeps(s: State, a: Pass)
    requires Inv(s) && a.NextObject? && CanPass(s, a)
    ensures Inv(PassStep(s, a))
  {
    hide Protocol;
    var q := PassStep(s, a);
    var o, rest := s.pc.rest[0], s.pc.rest[1..];
    assert s.pc == Draining([o] + rest);
    assert o in s.pc.rest && (o in s.lists.deletion || o in s.hist.alive);
    NextProtocol(s.sig, o, rest, s.hist, o !in s.lists.deletion);
    assert q.sig.events.Keys == s.sig.events.Keys;
  }

  /** One more event has gone from the batch to the handler. */
  lemma DeliverOrder(g: Signals, o: Obj, e: Event, batch: seq<Event>, rest: seq<Obj>, h: History)
    requires InOrder(g, Delivering(o, [e] + batch, rest), h) && o in h.delivered && o in h.alive
    ensures InOrder(g, InEvent(o, batch, rest), h.(delivered := h.delivered[o := h.delivered[o] + [e]]))
  {
    var k := h.(delivered := h.delivered[o := h.delivered[o] + [e]]);
    assert h.posted[o] == h.delivered[o] + ([e] + batch) + g.events[o];
    assert h.delivered[o] + ([e] + batch) == h.delivered[o] + [e] + batch;
    assert k.delivered.Keys == h.delivered.Keys;
  }

  lemma DeliverProtocol(g: Signals, o: Obj, e: Event, batch: seq<Event>, rest: seq<Obj>, h: History)
    requires Protocol(g, Delivering(o, [e] + batch, rest), h) && o in h.delivered && o in h.alive
    ensures Protocol(g, InEvent(o, batch, rest), h.(delivered := h.delivered[o := h.delivered[o] + [e]]))
  {
    hide InOrder, Covered, AllCovered, Writers;
    DeliverOrder(g, o, e, batch, rest, h);
    StillCovered(g, g, Delivering(o, [e] + batch, rest), InEvent(o, batch, rest), h.alive, h.alive);
  }

  lemma DeliverKeeps(s: State, a: Pass)
    requires Inv(s) && a.Deliver? && CanPass(s, a)
    ensures Inv(PassStep(s, a))
  {
    hide Registered, Protocol;
    var batch := s.pc.batch;
    assert s.pc == Delivering(s.pc.o, [batch[0]] + batch[1..], s.pc.rest);
    DeliverProtocol(s.sig, s.pc.o, batch[0], batch[1..], s.pc.rest, s.hist);
  }

  /** The control moved on without changing what is in flight. */
  lemma SameOrder(g: Signals, k: Signals, pc: Control, pd: Control, h: History)
    requires InOrder(g, pc, h) && k.events == g.events
    requires forall o :: o in h.alive ==> InFlight(pc, o) == InFlight(pd, o)
    ensures InOrder(k, pd, h)
  {
  }

  /** The copy holds every live object that was put up. */
  lemma CopyTakesAll(s: State, order: seq<Obj>)
    requires Lifetimes(s) && CanPass(s, Copy(order))
    ensures forall o :: o in s.hist.alive && o in s.sig.wakeup ==> o in order
    ensures AllIn(order, s.hist.alive + s.lists.deletion)
  {
    hide Held;
    assert forall o :: o in order <==> o in Elements(order);
  }

  lemma CopyProtocol(s: State, order: seq<Obj>)
    requires Inv(s) && CanPass(s, Copy(order))
    ensures Protocol(PassStep(s, Copy(order)).sig, Draining(order), s.hist)
  {
    hide InOrder, Covered, AllCovered, Elements, Lifetimes, Awake, Writers;
    var q := PassStep(s, Copy(order));
    CopyTakesAll(s, order);
    SameOrder(s.sig, q.sig, s.pc, q.pc, s.hist);
    StillCovered(s.sig, q.sig, s.pc, q.pc, s.hist.alive, s.hist.alive);
  }

  /** Copying the wakeup set and clearing it keeps the invariant. */
  lemma CopyKeeps(s: State, a: Pass)
    requires Inv(s) && a.Copy? && CanPass(s, a)
    ensures Inv(PassStep(s, a))
  {
    hide Protocol, Registered, Elements, Awake, AllIn;
    CopyProtocol(s, a.order);
    CopyTakesAll(s, a.order);
  }

  lemma PassProtocol(s: State, a: Pass)
    requires Inv(s) && (a.StartEvents? || a.EventDone? || a.ReceiveToken?) && CanPass(s, a)
    ensures Protocol(PassStep(s, a).sig, PassStep(s, a).pc, s.hist)
  {
    hide InOrder, Covered, AllCovered, Lifetimes, Writers;
    var q := PassStep(s, a);
    if a.EventDone? {
      CalledIsGone(s);
    }
    SameOrder(s.sig, q.sig, s.pc, q.pc, s.hist);
    StillCovered(s.sig, q.sig, s.pc, q.pc, s.hist.alive, s.hist.alive);
  }

  lemma CalledIsGone(s: State)
    requires Lifetimes(s) && s.pc.InEvent?
    ensures s.pc.o in s.lists.deletion ==> s.pc.o !in s.hist.alive
  {
  }

  lemma PassKeeps(s: State, a: Pass)
    requires Inv(s) && (a.StartEvents? || a.EventDone? || a.ReceiveToken?) && CanPass(s, a)
    ensures Inv(PassStep(s, a))
  {
    hide Protocol;
    PassProtocol(s, a);
  }

  /** The poll steps run outside the event pass. */
  lemma PollOutside(l: Lists, pc: Control, a: Poll)
    requires CanPoll(l, pc, a)
    ensures !InWindow(pc) && !InWindow(PollPc(l, pc, a))
  {
  }

  lemma OutsideProtocol(g: Signals, pc: Control, pd: Control, h: History)
    requires Protocol(g, pc, h) && !InWindow(pc) && !InWindow(pd)
    ensures Protocol(g, pd, h)
  {
    StillCovered(g, g, pc, pd, h.alive, h.alive);
  }

  lemma PollRegistered(l: Lists, pc: Control, a: Poll, alive: set<Obj>, born: set<Obj>)
    requires Registered(l, alive, born) && CanPoll(l, pc, a)
    ensures Registered(PollLists(l, pc, a), alive, born)
  {
    if a.Arm? {
      assert forall o :: o in a.due ==> o in Elements(a.due);
    }
  }

  lemma PollHeld(l: Lists, pc: Control, a: Poll, alive: set<Obj>, born: set<Obj>)
    requires Registered(l, alive, born) && Held(pc, alive, l.deletion) && Settled(l, pc) && CanPoll(l, pc, a)
    ensures Held(PollPc(l, pc, a), alive, PollLists(l, pc, a).deletion)
    ensures Settled(PollLists(l, pc, a), PollPc(l, pc, a))
  {
    if (pc.ReadFds? || pc.WriteFds?) && pc.fds != [] {
      var fd := pc.fds[0];
      assert fd in l.rfds ==> l.rfds[fd] in alive;
      assert fd in l.wfds ==> l.wfds[fd] in alive;
    } else if pc.Timeouts? && pc.rest != [] {
      assert pc.rest[0] in pc.rest;
    }
  }

  lemma PollKeeps(s: State, a: Poll)
    requires Inv(s) && CanPoll(s.lists, s.pc, a)
    ensures Inv(Step(s, Polling(a)))
  {
    hide CanPoll, PollPc, PollLists, Protocol, Registered, Held, Settled, InWindow;
    PollOutside(s.lists, s.pc, a);
    OutsideProtocol(s.sig, s.pc, PollPc(s.lists, s.pc, a), s.hist);
    PollRegistered(s.lists, s.pc, a, s.hist.alive, s.sig.events.Keys);
    PollHeld(s.lists, s.pc, a, s.hist.alive, s.sig.events.Keys);
  }

  /** A new object has no events yet; a destroyed one is nobody's concern any more. */
  lemma WorkOrder(g: Signals, pc: Control, h: History, a: Work)
    requires InOrder(g, pc, h) && (forall o :: o in h.alive ==> o in g.events)
    requires a.Create? ==> a.o !in g.events && InFlight(pc, a.o) == []
    ensures InOrder(if a.Create? then g.(events := g.events[a.o := []]) else g, pc, WorkHistory(h, a))
  {
  }

  lemma WorkTokens(s: State, a: Work)
    requires TokensBalance(s.sig, s.pc) && WakeupSignalled(s.sig, s.pc) && CanWork(s, a)
    ensures var q := Step(s, Handler(a)); TokensBalance(q.sig, q.pc) && WakeupSignalled(q.sig, q.pc)
  {
    hide WorkLists, WorkHistory, Writers;
  }

  lemma WorkCovers(s: State, a: Work)
    requires AllCovered(s.sig, s.pc, s.hist.alive) && CanWork(s, a)
    ensures var q := Step(s, Handler(a)); AllCovered(q.sig, q.pc, q.hist.alive)
  {
    hide WorkLists, Covered, AllCovered;
    var q := Step(s, Handler(a));
    StillCovered(s.sig, q.sig, s.pc, s.pc, s.hist.alive, q.hist.alive);
  }

  lemma WorkProtocol(s: State, a: Work)
    requires Inv(s) && CanWork(s, a)
    ensures var q := Step(s, Handler(a)); Protocol(q.sig, q.pc, q.hist)
  {
    hide WorkLists, WorkHistory, InOrder, AllCovered, TokensBalance, WakeupSignalled;
    WorkTokens(s, a);
    WorkCovers(s, a);
    BornAndFlying(s, a);
    WorkOrder(s.sig, s.pc, s.hist, a);
  }

  lemma BornAndFlying(s: State, a: Work)
    requires Lifetimes(s) && CanWork(s, a)
    ensures forall o :: o in s.hist.alive ==> o in s.sig.events
    ensures a.Create? ==> a.o !in s.sig.events && InFlight(s.pc, a.o) == []
  {
  }

  lemma WorkRegistered(l: Lists, a: Work, h: History, born: set<Obj>)
    requires Registered(l, h.alive, born)
    requires a.Create? ==> a.o !in born
    requires a.Destroy? || a.RegisterR? || a.RegisterW? ==> a.o in h.alive
    ensures Registered(WorkLists(l, a), WorkHistory(h, a).alive, if a.Create? then born + {a.o} else born)
  {
  }

  lemma WorkHeld(pc: Control, l: Lists, a: Work, h: History)
    requires Held(pc, h.alive, l.deletion) && (InHandler(pc) || pc.Top?)
    ensures Held(pc, WorkHistory(h, a).alive, WorkLists(l, a).deletion)
  {
  }

  lemma WorkKeeps(s: State, a: Work)
    requires Inv(s) && CanWork(s, a)
    ensures Inv(Step(s, Handler(a)))
  {
    hide Protocol, Registered, Held, WorkLists, WorkHistory;
    WorkProtocol(s, a);
    WorkRegistered(s.lists, a, s.hist, s.sig.events.Keys);
    WorkHeld(s.pc, s.lists, a, s.hist);
    assert a.Create? ==> s.sig.events[a.o := []].Keys == s.sig.events.Keys + {a.o};
  }

  /** Whatever any thread does next, the invariant holds again. */
  lemma StepKeeps(s: State, a: Action)
    requires Inv(s) && Enabled(s, a)
    ensures Inv(Step(s, a))
  {
    hide Inv, CanNotify, CanPass, CanPoll, CanWork, NotifyStep, PassStep;
    match a
    case Notifier(n) => NotifyKeeps(s, n);
    case EventPass(p) =>
      if p.Copy? {
        CopyKeeps(s, p);
      } else if p.NextObject? {
        NextKeeps(s, p);
      } else if p.Deliver? {
        DeliverKeeps(s, p);
      } else {
        PassKeeps(s, p);
      }
    case Polling(l) => PollKeeps(s, l);
    case Handler(w) => WorkKeeps(s, w);
  }

  // ---- whole runs ---------------------------------------------------------------------------

  /** The actions can be taken one after the other, by whatever threads they belong to. */
  ghost predicate Runs(s: State, acts: seq<Action>)
    decreases |acts|
  {
    acts == [] || (Enabled(s, acts[0]) && Runs(Step(s, acts[0]), acts[1..]))
  }

  ghost function After(s: State, acts: seq<Action>): State
    requires Runs(s, acts)
    decreases |acts|
  {
    if acts == [] then s else After(Step(s, acts[0]), acts[1..])
  }

  lemma {:induction false} RunKeeps(s: State, acts: seq<Action>)
    requires Inv(s) && Runs(s, acts)
    ensures Inv(After(s, acts))
    decreases |acts|
  {
    hide Inv, Enabled, Step;
    if acts != [] {
      StepKeeps(s, acts[0]);
      RunKeeps(Step(s, acts[0]), acts[1..]);
    }
  }

  lemma WriterExists(ns: map<Tid, Phase>)
    ensures |Writers(ns)| == 0 || exists t :: t in ns && ns[t] == MustWrite
  {
    if forall t :: t in ns ==> ns[t] != MustWrite {
      assert Writers(ns) == {};
    }
  }

  /** No wakeup is lost: in every interleaving, while a live object has an event queued, a token is in
      the pipe, or a notifier of this very object has yet to put it up for wakeup, or the token is owed by
      the notifier that set the flag. */
  lemma NoLostWakeup(acts: seq<Action>, o: Obj)
    requires Runs(INIT, acts)
    ensures var s := After(INIT, acts);
            o in s.hist.alive && o in s.sig.events && s.sig.events[o] != [] ==>
              s.sig.tokens > 0
              || exists t :: t in s.sig.notifiers
                    && (s.sig.notifiers[t] == Posted(o) || s.sig.notifiers[t] == MustWrite)
  {
    InitInv();
    RunKeeps(INIT, acts);
    var s := After(INIT, acts);
    hide Lifetimes, Step, Enabled, InOrder;
    if o in s.hist.alive && o in s.sig.events && s.sig.events[o] != [] && s.sig.tokens == 0 {
      assert Covered(s.sig, s.pc, o);
      if t :| t in s.sig.notifiers && s.sig.notifiers[t] == Posted(o) {
      } else {
        assert |Writers(s.sig.notifiers)| == 1;
        WriterExists(s.sig.notifiers);
      }
    }
  }

  /** A loop thread that sleeps with an empty pipe while nobody is between queueing an event for o and putting
      o up, and nobody owes the token, has nothing left to do for o: every event ever posted to it has
      been given to its handler, once, in order. */
  lemma AsleepMeansAllDelivered(acts: seq<Action>, o: Obj)
    requires Runs(INIT, acts)
    requires var s := After(INIT, acts);
             && s.pc.Armed? && s.sig.tokens == 0
             && forall t :: t in s.sig.notifiers ==> s.sig.notifiers[t] != Posted(o) && s.sig.notifiers[t] != MustWrite
    ensures var s := After(INIT, acts); o in s.hist.alive ==>
              o in s.hist.posted && o in s.hist.delivered && s.hist.delivered[o] == s.hist.posted[o]
  {
    InitInv();
    RunKeeps(INIT, acts);
    NoLostWakeup(acts, o);
  }

  /** In every interleaving an object's handler has been given a prefix of what was posted to it. */
  lemma DeliveredInOrder(acts: seq<Action>, o: Obj)
    requires Runs(INIT, acts)
    ensures var s := After(INIT, acts); o in s.hist.posted ==>
              o in s.hist.delivered && s.hist.delivered[o] <= s.hist.posted[o]
  {
    InitInv();
    RunKeeps(INIT, acts);
  }

  lemma CalledIsAlive(s: State, a: Action)
    requires Lifetimes(s) && Enabled(s, a) && InHandler(Step(s, a).pc) && !InHandler(s.pc)
    ensures Step(s, a).pc.o in s.hist.alive
  {
    if (s.pc.ReadFds? || s.pc.WriteFds?) && s.pc.fds != [] {
      var fd := s.pc.fds[0];
      assert fd in s.lists.rfds ==> s.lists.rfds[fd] in s.hist.alive;
      assert fd in s.lists.wfds ==> s.lists.wfds[fd] in s.hist.alive;
    }
  }

  /** No handler is ever called on an object that has been destroyed. */
  lemma HandlersSeeLiveObjects(acts: seq<Action>, a: Action)
    requires Runs(INIT, acts) && Enabled(After(INIT, acts), a)
    ensures var s := After(INIT, acts); var q := Step(s, a);
            InHandler(q.pc) && !InHandler(s.pc) ==> q.pc.o in s.hist.alive
  {
    hide Protocol, Lifetimes, Enabled, Step;
    InitInv();
    RunKeeps(INIT, acts);
    var s := After(INIT, acts);
    if InHandler(Step(s, a).pc) && !InHandler(s.pc) {
      CalledIsAlive(s, a);
    }
  }

  /** In every run, an object that has been destroyed is in no descriptor map and no timeout list, and
      is scheduled for deletion as long as the insertion or the main list still holds it. */
  lemma DestroyedIsUnlisted(acts: seq<Action>, o: Obj)
    requires Runs(INIT, acts)
    ensures var s := After(INIT, acts); var l := s.lists;
            o in s.sig.events && o !in s.hist.alive ==>
              && (forall fd :: fd in l.rfds ==> l.rfds[fd] != o)
              && (forall fd :: fd in l.wfds ==> l.wfds[fd] != o)
              && o !in l.timeouts
              && (o in l.insertion || o in l.main ==> o in l.deletion)
  {
    InitInv();
    RunKeeps(INIT, acts);
    hide Protocol, Step, Enabled, Settled, Held;
  }

  lemma {:induction false} Enumerate(os: set<Obj>) returns (order: seq<Obj>)
    ensures Elements(order) == os && |order| == |os|
    decreases |os|
  {
    if exists o :: o in os {
      var o :| o in os;
      var rest := Enumerate(os - {o});
      order := [o] + rest;
      assert forall x :: x in order <==> x == o || x in Elements(rest);
    } else {
      order := [];
    }
  }

  lemma PassCanGoOn(s: State)
    requires Inv(s) && InWindow(s.pc)
    ensures exists p: Pass :: CanPass(s, p)
  {
    if s.pc.Cleared? {
      var order := Enumerate(Awake(s));
      assert CanPass(s, Copy(order));
    } else if s.pc.Draining? {
      assert s.pc.rest != [] ==> s.pc.rest[0] in s.pc.rest;
      assert CanPass(s, if s.pc.rest == [] then ReceiveToken else NextObject);
    } else {
      assert CanPass(s, if s.pc.Delivering? then Deliver else EventDone);
    }
  }

  lemma PollCanGoOn(s: State)
    requires !InWindow(s.pc)
    ensures exists l: Poll :: CanPoll(s.lists, s.pc, l)
  {
    var l := match s.pc
      case Top => Arm([])
      case Armed => StartFds
      case ReadFds(_) => ReadNext(true)
      case InRead(_, _, _) => ReadDone
      case WriteFds(_) => WriteNext(true)
      case InWrite(_, _, _) => WriteDone
      case Timeouts(_) => TimeoutNext([])
      case Firing(_, _, _) => FireNext
      case _ => TimeoutDone;
    assert CanPoll(s.lists, s.pc, l);
  }

  /** In every run the loop thread can take a step of its own, whatever the other threads do: it is never
      stuck. */
  lemma LoopNeverStuck(acts: seq<Action>)
    requires Runs(INIT, acts)
    ensures exists a: Action :: (a.EventPass? || a.Polling?) && Enabled(After(INIT, acts), a)
  {
    InitInv();
    RunKeeps(INIT, acts);
    var s := After(INIT, acts);
    hide Inv, CanPass, CanPoll, Step;
    if InWindow(s.pc) {
      PassCanGoOn(s);
      var p :| CanPass(s, p);
      assert Enabled(s, EventPass(p));
    } else {
      PollCanGoOn(s);
      var l :| CanPoll(s.lists, s.pc, l);
      assert Enabled(s, Polling(l));
    }
  }

  /** The handler calls still to come for the object at hand, twice, and the one under way. */
  function CallsLeft(pc: Control): nat {
    match pc
    case Delivering(_, batch, _) => 2 * |batch|
    case InEvent(_, batch, _) => 2 * |batch| + 1
    case _ => 0
  }

  /** A pass of handle_events ends: until it reads the token, every step of its own brings it closer, and
      no step of another thread or of a handler sets it back. */
  lemma PassEnds(s: State, a: Action)
    requires Enabled(s, a) && (s.pc.Draining? || s.pc.Delivering? || s.pc.InEvent?)
    ensures var q := Step(s, a);
            if a.EventPass? then
              a.p.ReceiveToken? || |ToDrain(q.pc)| < |ToDrain(s.pc)|
              || (|ToDrain(q.pc)| == |ToDrain(s.pc)| && CallsLeft(q.pc) < CallsLeft(s.pc))
            else q.pc == s.pc
  {
  }

  /** o's events number n and below are delivered, or this pass of handle_events will still see to it. */
  predicate Due(s: State, o: Obj, n: int) {
    && o in s.hist.posted && o in s.hist.delivered && n <= |s.hist.posted[o]|
    && (o in s.hist.alive ==>
          || (s.pc.Cleared? && o in s.sig.wakeup)
          || o in ToDrain(s.pc)
          || n <= |s.hist.delivered[o]| + |InFlight(s.pc, o)|)
  }

  lemma DueCopy(s: State, order: seq<Obj>, o: Obj, n: int)
    requires Lifetimes(s) && Due(s, o, n) && CanPass(s, Copy(order))
    ensures Due(PassStep(s, Copy(order)), o, n)
  {
    hide Lifetimes, Awake, Elements;
    CopyTakesAll(s, order);
  }

  lemma DueNext(s: State, o: Obj, n: int)
    requires Inv(s) && Due(s, o, n) && CanPass(s, NextObject)
    ensures Due(PassStep(s, NextObject), o, n)
  {
    hide Lifetimes, AllCovered, TokensBalance, WakeupSignalled;
    NextIsGone(s);
    assert s.pc.rest == [s.pc.rest[0]] + s.pc.rest[1..];
    assert o in s.hist.alive ==> s.hist.posted[o] == s.hist.delivered[o] + InFlight(s.pc, o) + s.sig.events[o];
  }

  /** What is skipped is not alive. */
  lemma NextIsGone(s: State)
    requires Lifetimes(s) && s.pc.Draining? && s.pc.rest != []
    ensures s.pc.rest[0] in s.lists.deletion ==> s.pc.rest[0] !in s.hist.alive
  {
  }

  lemma DueElse(s: State, a: Pass, o: Obj, n: int)
    requires Inv(s) && Due(s, o, n) && CanPass(s, a) && (a.Deliver? || a.EventDone?)
    ensures Due(PassStep(s, a), o, n)
  {
    hide AllCovered, TokensBalance, WakeupSignalled, Held, Settled;
    assert s.pc.o in s.lists.deletion ==> s.pc.o !in s.hist.alive;
  }

  lemma DuePass(s: State, a: Pass, o: Obj, n: int)
    requires Inv(s) && Due(s, o, n) && CanPass(s, a) && InWindow(s.pc) && InWindow(PassStep(s, a).pc)
    ensures Due(PassStep(s, a), o, n)
  {
    hide Protocol, Lifetimes, Due, Awake, Elements;
    match a
    case Copy(order) => DueCopy(s, order, o, n);
    case NextObject => DueNext(s, o, n);
    case _ => DueElse(s, a, o, n);
  }

  lemma DueStep(s: State, a: Action, o: Obj, n: int)
    requires Inv(s) && Due(s, o, n) && Enabled(s, a) && InWindow(s.pc) && InWindow(Step(s, a).pc)
    ensures Due(Step(s, a), o, n)
  {
    match a {
      case EventPass(p) => DuePass(s, p, o, n);
      case Notifier(m) =>
      case Polling(l) => PollOutside(s.lists, s.pc, l);
      case Handler(w) =>
        hide Awake, WorkLists;
        assert Registered(s.lists, s.hist.alive, s.sig.events.Keys);
    }
  }

  /** The loop thread stays in one pass of handle_events throughout. */
  ghost predicate InOnePass(s: State, acts: seq<Action>)
    requires Runs(s, acts)
    decreases |acts|
  {
    InWindow(s.pc) && (acts != [] ==> InOnePass(Step(s, acts[0]), acts[1..]))
  }

  lemma {:induction false} DueRun(s: State, acts: seq<Action>, o: Obj, n: int)
    requires Inv(s) && Due(s, o, n) && Runs(s, acts) && InOnePass(s, acts)
    ensures Due(After(s, acts), o, n)
    decreases |acts|
  {
    hide Inv, Due, Enabled, Step;
    if acts != [] {
      var q := Step(s, acts[0]);
      assert InOnePass(q, acts[1..]);
      StepKeeps(s, acts[0]);
      DueStep(s, acts[0], o, n);
      DueRun(q, acts[1..], o, n);
    }
  }

  /** One pass of handle_events serves every object that was up for wakeup when it began: by the time it
      reads the token, whatever other threads did meanwhile, everything posted to the object before
      the pass has been given to its handler, unless the object has been destroyed. */
  lemma PassServesTheAwake(before: seq<Action>, during: seq<Action>, o: Obj)
    requires Runs(INIT, before)
    requires var s := After(INIT, before); s.pc.Cleared? && o in s.hist.alive && o in s.sig.wakeup && o in s.hist.posted
    requires Runs(After(INIT, before), during) && InOnePass(After(INIT, before), during)
    requires After(After(INIT, before), during).pc == Draining([])
    ensures var s := After(INIT, before); var q := After(s, during);
            o in q.hist.alive ==> o in q.hist.delivered && |s.hist.posted[o]| <= |q.hist.delivered[o]|
  {
    InitInv();
    RunKeeps(INIT, before);
    var s := After(INIT, before);
    assert InOrder(s.sig, s.pc, s.hist);
    DueRun(s, during, o, |s.hist.posted[o]|);
  }
}
