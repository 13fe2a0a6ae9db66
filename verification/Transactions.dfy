/** The transaction identifiers of crofbase: 32-bit, allocated one after the other, and the table of
    requests whose replies are awaited. */
module Transactions {

  const RANGE: int := 0x1_0000_0000
  const USED_MAX: nat := 16

  predicate IsXid(x: int) { 0 <= x < RANGE }

  type Xid = x: int | IsXid(x)

  /** ++ on a 32-bit unsigned integer. */
  function Succ(x: int): (r: int)
    requires IsXid(x)
    ensures IsXid(r)
  {
    if x == RANGE - 1 then 0 else x + 1
  }

  /** How many steps of ++ lead from one identifier to the other. */
  function Steps(from: int, to: int): (r: int)
    requires IsXid(from) && IsXid(to)
    ensures IsXid(r)
  {
    if from <= to then to - from else to - from + RANGE
  }

  /** x is among the n identifiers that end with last. */
  predicate InRun(x: int, last: int, n: int) {
    IsXid(x) && IsXid(last) && Steps(x, last) < n
  }

  // ---- allocation -----------------------------------------------------------------------------

  /** Where allocation stands after k more identifiers. */
  function Allocated(start: int, k: nat): (x: int)
    requires IsXid(start)
    ensures IsXid(x)
  {
    if k == 0 then start else Succ(Allocated(start, k - 1))
  }

  lemma SuccIsMod(n: nat)
    ensures Succ(n % RANGE) == (n + 1) % RANGE
  {
    var q, r := n / RANGE, n % RANGE;
    assert n + 1 == q * RANGE + (r + 1);
  }

  lemma {:induction false} AllocatedIs(start: int, k: nat)
    requires IsXid(start)
    ensures Allocated(start, k) == (start + k) % RANGE
  {
    if k > 0 {
      AllocatedIs(start, k - 1);
      SuccIsMod(start + k - 1);
    }
  }

  /** Any 2^32 consecutive allocations give pairwise distinct identifiers; the next one repeats the
      first of them. */
  lemma AllocationsDistinctIff(start: int, i: nat, j: nat)
    requires 0 <= start <= 0xFFFF_FFFF && i < j <= i + 0x1_0000_0000
    ensures Allocated(start, i) == Allocated(start, j) <==> j - i == 0x1_0000_0000
  {
    AllocatedIs(start, i);
    AllocatedIs(start, j);
  }

  lemma RunStep(x: int, last: int, n: nat)
    requires IsXid(x) && IsXid(last) && n < RANGE
    ensures InRun(x, Succ(last), n + 1) <==> x == Succ(last) || InRun(x, last, n)
    ensures !InRun(Succ(last), last, n)
  {
  }

  /** The loop has already been at x, less than k steps behind last. */
  predicate Tried(x: int, last: int, k: int) {
    IsXid(x) && IsXid(last) && 1 <= Steps(last, x) < k
  }

  // ---- requests and replies -------------------------------------------------------------------

  /** The table after a lookup: operator[] enters a zero for an identifier it does not hold. */
  function Looked(pending: map<int, int>, xid: int): (m: map<int, int>)
    ensures xid in m
  {
    if xid in pending then pending else pending[xid := 0]
  }

  /** ta_pending's answer. */
  predicate IsPending(pending: map<int, int>, xid: int, kind: int) {
    Looked(pending, xid)[xid] == kind
  }

  /** The table after ta_validate; a request validated is removed. */
  function Validated(pending: map<int, int>, xid: int, kind: int): map<int, int> {
    if IsPending(pending, xid, kind) then Looked(pending, xid) - {xid} else Looked(pending, xid)
  }

  /** An identifier never entered in the table is validated if and only if the type asked for is 0. */
  lemma UnknownValidatesIff(pending: map<int, int>, xid: int, kind: int)
    requires xid !in pending
    ensures IsPending(pending, xid, kind) <==> kind == 0
    ensures Validated(pending, xid, kind) == if kind == 0 then pending else pending[xid := 0]
  {
    assert pending[xid := 0] - {xid} == pending;
  }

  datatype Op = Add(kind: int) | Async | Ask(xid: int, kind: int) | Validate(xid: int, kind: int)

  /** The base object's identifiers, and what has happened: the requests sent, by identifier, and how
      often each identifier's reply was accepted. */
  datatype World = World(start: Xid, pending: map<int, int>, allocs: nat, sent: map<int, int>, accepted: multiset<int>)

  predicate Succeeds(w: World, op: Op) {
    op.Validate? && IsPending(w.pending, op.xid, op.kind)
  }

  function Step(w: World, op: Op): World {
    match op
    case Add(kind) =>
      var x := Succ(w.start);
      w.(start := x, allocs := w.allocs + 1, pending := w.pending[x := kind], sent := w.sent[x := kind])
    case Async => w.(start := Succ(w.start), allocs := w.allocs + 1)
    case Ask(xid, _) => w.(pending := Looked(w.pending, xid))
    case Validate(xid, kind) =>
      w.(pending := Validated(w.pending, xid, kind),
         accepted := if Succeeds(w, op) then w.accepted + multiset{xid} else w.accepted)
  }

  function Run(w: World, ops: seq<Op>): World
    decreases |ops|
  {
    if ops == [] then w else Run(Step(w, ops[0]), ops[1..])
  }

  /** How many identifiers the operations allocate. */
  function Allocs(ops: seq<Op>): nat {
    if ops == [] then 0 else (if ops[0].Add? || ops[0].Async? then 1 else 0) + Allocs(ops[1..])
  }

  function Start(start: Xid): World {
    World(start, map[], 0, map[], multiset{})
  }

  /** Requests and validations name a message type other than 0, identifiers have 32 bits. */
  predicate Proper(op: Op) {
    match op
    case Add(kind) => kind != 0
    case Async => true
    case Ask(xid, _) => IsXid(xid)
    case Validate(xid, kind) => IsXid(xid) && kind != 0
  }

  /** The request was sent and its reply has not been accepted. */
  predicate Outstanding(w: World, xid: int, kind: int) {
    xid in w.sent && w.sent[xid] == kind && w.accepted[xid] == 0
  }

  /** What the table holds, apart from zeros, is what is outstanding. */
  predicate Consistent(w: World) {
    && (forall x :: x in w.sent ==> InRun(x, w.start, w.allocs) && w.sent[x] != 0)
    && (forall x :: x in w.accepted ==> x in w.sent && w.accepted[x] == 1)
    && (forall x :: x in w.pending && w.pending[x] != 0 ==> Outstanding(w, x, w.pending[x]))
    && (forall x :: x in w.sent && w.accepted[x] == 0 ==> x in w.pending && w.pending[x] == w.sent[x])
  }

  lemma AddConsistent(w: World, op: Op)
    requires Consistent(w) && op.Add? && op.kind != 0 && w.allocs < RANGE - 1
    ensures Consistent(Step(w, op))
  {
    var v := Step(w, op);
    var x := v.start;
    RunStep(x, w.start, w.allocs);
    assert IsXid(x);
    assert x !in w.sent && x !in w.accepted;
    forall y | y in v.sent ensures InRun(y, v.start, v.allocs) {
      RunStep(y, w.start, w.allocs);
    }
  }

  lemma AsyncConsistent(w: World)
    requires Consistent(w) && w.allocs < RANGE - 1
    ensures Consistent(Step(w, Async))
  {
    var v := Step(w, Async);
    forall y | y in v.sent ensures InRun(y, v.start, v.allocs) {
      RunStep(y, w.start, w.allocs);
    }
  }

  lemma ReplyConsistent(w: World, op: Op)
    requires Consistent(w) && (op.Ask? || op.Validate?) && Proper(op)
    ensures Consistent(Step(w, op))
  {
    hide InRun;
  }

  lemma StepConsistent(w: World, op: Op)
    requires Consistent(w) && Proper(op) && (op.Add? || op.Async? ==> w.allocs < RANGE - 1)
    ensures Consistent(Step(w, op))
    ensures Step(w, op).allocs == w.allocs + if op.Add? || op.Async? then 1 else 0
  {
    hide Consistent;
    if op.Add? {
      AddConsistent(w, op);
    } else if op.Async? {
      AsyncConsistent(w);
    } else {
      ReplyConsistent(w, op);
    }
  }

  /** As long as fewer than 2^32 identifiers have been allocated, every run keeps the table right. */
  lemma {:induction false} RunConsistent(w: World, ops: seq<Op>)
    requires Consistent(w) && w.allocs + Allocs(ops) < RANGE
    requires forall i :: 0 <= i < |ops| ==> Proper(ops[i])
    ensures Consistent(Run(w, ops)) && Run(w, ops).allocs < RANGE
    decreases |ops|
  {
    if ops != [] {
      assert Proper(ops[0]);
      hide Consistent;
      StepConsistent(w, ops[0]);
      RunConsistent(Step(w, ops[0]), ops[1..]);
    }
  }

  /** After any run, ta_validate accepts a reply exactly when its request was sent with that type and no
      reply to it has been accepted; so no request is answered twice. */
  lemma ValidateIffOutstanding(start: Xid, ops: seq<Op>, xid: int, kind: int)
    requires Allocs(ops) < RANGE && kind != 0
    requires forall i :: 0 <= i < |ops| ==> Proper(ops[i])
    ensures var w := Run(Start(start), ops);
            && (Succeeds(w, Validate(xid, kind)) <==> Outstanding(w, xid, kind))
            && (Succeeds(w, Validate(xid, kind)) ==> !Outstanding(Step(w, Validate(xid, kind)), xid, kind))
            && w.accepted[xid] <= 1
  {
    RunConsistent(Start(start), ops);
  }

  // ---- the object -----------------------------------------------------------------------------

  class Base {
    var pending: map<int, int>
    var used: set<int>
    var start: int

    /** The set of used identifiers is a run of at most 17 that ends with the latest. */
    ghost predicate Valid()
      reads this
    {
      && IsXid(start) && |used| <= 17
      && forall x :: x in used <==> InRun(x, start, |used|)
    }

    constructor (start: int)
      requires IsXid(start)
      ensures Valid() && this.start == start && pending == map[] && used == {}
    {
      this.start, pending, used := start, map[], {};
    }

    /** The do-while loop: counts on until it meets an identifier not in use. */
    method FirstUnused()
      requires IsXid(start) && |used| <= 17
      modifies this`start
      ensures IsXid(start) && start !in used && start != old(start)
      ensures forall x :: Tried(x, old(start), Steps(old(start), start)) ==> x in used
      ensures start != Succ(old(start)) ==> Succ(old(start)) in used
    {
      ghost var last, left, k := start, used, 1;
      start := Succ(start);
      while start in used
        invariant IsXid(start) && 1 <= k && |left| + k == |used| + 1 && Steps(last, start) == k
        invariant forall x :: x in left <==> x in used && !Tried(x, last, k)
        invariant forall x :: Tried(x, last, k) ==> x in used
        decreases |left|
      {
        assert start in left;
        left := left - {start};
        start := Succ(start);
        k := k + 1;
      }
      assert k > 1 ==> Tried(Succ(last), last, k);
    }

    /** The loop ends with the successor of the last identifier: that is never among those kept. */
    method NewAsyncXid() returns (xid: int)
      requires Valid()
      modifies this`used, this`start
      ensures Valid() && xid == start == Succ(old(start))
      ensures |used| == if old(|used|) > 16 then 1 else old(|used|) + 1
    {
      if |used| > USED_MAX {
        used := {};
      }
      ghost var last, n := start, |used|;
      FirstUnused();
      RunStep(start, last, n);
      forall x ensures x in used + {start} <==> InRun(x, start, n + 1) {
        if IsXid(x) {
          RunStep(x, last, n);
        }
      }
      used := used + {start};
      return start;
    }

    method AddRequest(kind: int) returns (xid: int)
      requires Valid()
      modifies this
      ensures Valid() && xid == start == Succ(old(start))
      ensures pending == old(pending)[xid := kind]
    {
      xid := NewAsyncXid();
      pending := pending[xid := kind];
    }

    method RemRequest(xid: int)
      modifies this`pending
      ensures pending == old(pending) - {xid}
    {
      pending := pending - {xid};
    }

    method Pending(xid: int, kind: int) returns (yes: bool)
      modifies this`pending
      ensures yes <==> IsPending(old(pending), xid, kind)
      ensures pending == Looked(old(pending), xid)
    {
      if xid !in pending {
        pending := pending[xid := 0];
      }
      return pending[xid] == kind;
    }

    /** eRofBaseXidInval when the answer is false. */
    method TaValidate(xid: int, kind: int) returns (ok: bool)
      modifies this`pending
      ensures ok <==> IsPending(old(pending), xid, kind)
      ensures pending == Validated(old(pending), xid, kind)
    {
      ok := Pending(xid, kind);
      if ok {
        RemRequest(xid);
      }
    }
  }
}
