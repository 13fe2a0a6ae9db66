/** The action set of a packet in the pipeline: one action per slot, one SET_FIELD per field, and the
    metadata register. */
module ActionSet {

  /** The OXM class and field that a SET_FIELD action names. */
  type Field(==,!new)

  /** The rest of an action's contents. */
  type Body(==,!new)

  const SET_FIELD: int := 25

  datatype Act = Act(kind: int, field: Field, body: Body)

  /** Where an action is kept: by its field, or in the slot of its type. */
  datatype Place = InField(f: Field) | InSlot(slot: int)

  /** The slots in order of execution; types without one of their own share the first. */
  function Slot(kind: int): (s: int)
    ensures 0 <= s <= 13
  {
    if kind == 12 then 0        // COPY_TTL_IN
    else if kind == 20 then 1   // POP_MPLS
    else if kind == 18 then 2   // POP_VLAN
    else if kind == 19 then 3   // PUSH_MPLS
    else if kind == 17 then 4   // PUSH_VLAN
    else if kind == 11 then 5   // COPY_TTL_OUT
    else if kind == 16 then 6   // DEC_MPLS_TTL
    else if kind == 24 then 7   // DEC_NW_TTL
    else if kind == 15 then 8   // SET_MPLS_TTL
    else if kind == 23 then 9   // SET_NW_TTL
    else if kind == SET_FIELD then 10
    else if kind == 21 then 11  // SET_QUEUE
    else if kind == 22 then 12  // GROUP
    else if kind == 0 then 13   // OUTPUT
    else 0
  }

  function PlaceOf(a: Act): Place {
    if a.kind == SET_FIELD then InField(a.field) else InSlot(Slot(a.kind))
  }

  function WriteAll(held: map<Place, Act>, acts: seq<Act>): map<Place, Act>
    decreases |acts|
  {
    if acts == [] then held else WriteAll(held[PlaceOf(acts[0]) := acts[0]], acts[1..])
  }

  /** The last action that belongs in the place; -1 if none does. */
  function LastFor(acts: seq<Act>, p: Place): (k: int)
    ensures -1 <= k < |acts|
    ensures 0 <= k ==> PlaceOf(acts[k]) == p
    ensures forall j :: k < j < |acts| ==> PlaceOf(acts[j]) != p
  {
    if acts == [] then -1
    else if PlaceOf(acts[|acts| - 1]) == p then |acts| - 1
    else LastFor(acts[..|acts| - 1], p)
  }

  /** Write-actions leaves in every place the last action of the list that belongs there, and elsewhere
      what was held before. */
  lemma {:induction false} LastWriterWins(held: map<Place, Act>, acts: seq<Act>, p: Place)
    ensures var r := WriteAll(held, acts); var k := LastFor(acts, p);
            if 0 <= k then p in r && r[p] == acts[k]
            else (p in r <==> p in held) && (p in held ==> r[p] == held[p])
    decreases |acts|
  {
    if acts != [] {
      var rest := acts[1..];
      LastWriterWins(held[PlaceOf(acts[0]) := acts[0]], rest, p);
      var l := LastFor(rest, p);
      assert forall j :: 0 < j < |acts| ==> acts[j] == rest[j - 1];
      if 0 <= l {
        LastIs(acts, p, l + 1);
      } else if PlaceOf(acts[0]) == p {
        LastIs(acts, p, 0);
      } else {
        LastIs(acts, p, -1);
      }
    }
  }

  lemma LastIs(acts: seq<Act>, p: Place, k: int)
    requires -1 <= k < |acts| && (0 <= k ==> PlaceOf(acts[k]) == p)
    requires forall j :: k < j < |acts| ==> PlaceOf(acts[j]) != p
    ensures LastFor(acts, p) == k
  {
  }

  predicate Known(kind: int) {
    kind == 0 || kind == 11 || kind == 12 || 15 <= kind <= 24
  }

  /** Two types other than SET_FIELD have slots of their own, unless one of them is COPY_TTL_IN or unknown
      and so is the other. */
  lemma SlotsClashIff(a: int, b: int)
    requires a != SET_FIELD && b != SET_FIELD && a != b
    ensures Slot(a) == Slot(b) <==> (a == 12 || !Known(a)) && (b == 12 || !Known(b))
  {
  }

  /** The types in the order in which OpenFlow 1.2 has the actions of a set executed. */
  const ORDER: seq<int> := [12, 20, 18, 19, 17, 11, 16, 24, 15, 23, 25, 21, 22, 0]

  /** The slots are in that order; any other type shares the first. */
  lemma SlotsInOrder()
    ensures forall i :: 0 <= i < |ORDER| ==> Slot(ORDER[i]) == i
    ensures forall kind :: kind !in ORDER ==> Slot(kind) == 0
  {
    forall kind | kind !in ORDER ensures Slot(kind) == 0 {
      assert forall i :: 0 <= i < 14 ==> kind != ORDER[i];
      assert kind != ORDER[1] && kind != ORDER[2] && kind != ORDER[3] && kind != ORDER[4] && kind != ORDER[5];
      assert kind != ORDER[6] && kind != ORDER[7] && kind != ORDER[8] && kind != ORDER[9];
      assert kind != ORDER[10] && kind != ORDER[11] && kind != ORDER[12] && kind != ORDER[13];
    }
  }

  /** b takes the place of a: both set the same field, or neither sets a field and they are of one type, or both
      of types that share the first slot. */
  predicate Replaces(b: Act, a: Act) {
    if a.kind == 25 then b.kind == 25 && b.field == a.field
    else b.kind != 25 && (b.kind == a.kind || (First(a.kind) && First(b.kind)))
  }

  predicate First(kind: int) {
    kind == 12 || (kind != 0 && kind != 11 && !(15 <= kind <= 24))
  }

  lemma ReplacesIs(b: Act, a: Act)
    ensures Replaces(b, a) <==> PlaceOf(b) == PlaceOf(a)
  {
    if a.kind != SET_FIELD && b.kind != SET_FIELD && a.kind != b.kind {
      SlotsClashIff(a.kind, b.kind);
    }
  }

  /** Of the actions written, those are held that no later one replaces: a SET_FIELD under its field, any other in the
      slot of its type. */
  lemma HeldAre(held: map<Place, Act>, acts: seq<Act>, k: nat)
    requires k < |acts| && forall j :: k < j < |acts| ==> !Replaces(acts[j], acts[k])
    ensures var r, a := WriteAll(held, acts), acts[k];
            && (a.kind == 25 ==> InField(a.field) in r && r[InField(a.field)] == a)
            && (forall i :: 0 <= i < |ORDER| && i != 10 && a.kind == ORDER[i] ==> InSlot(i) in r && r[InSlot(i)] == a)
            && (a.kind !in ORDER ==> InSlot(0) in r && r[InSlot(0)] == a)
  {
    SlotsInOrder();
    var p := PlaceOf(acts[k]);
    forall j | k < j < |acts| ensures PlaceOf(acts[j]) != p {
      ReplacesIs(acts[j], acts[k]);
    }
    LastWriterWins(held, acts, p);
    LastIs(acts, p, k);
    assert ORDER[10] == 25;
  }

  // ---- metadata -------------------------------------------------------------------------------

  /** A register of 64 bits. */
  type Word = bits: seq<bool> | |bits| == 64 witness Clear(64)

  function Clear(n: nat): (r: seq<bool>)
    ensures |r| == n && forall i :: 0 <= i < n ==> !r[i]
  {
    if n == 0 then [] else [false] + Clear(n - 1)
  }

  datatype Masked = Masked(value: Word, mask: Word)

  function Select(mask: Word, ifSet: Word, ifClear: Word): (r: Word)
    ensures forall i :: 0 <= i < 64 ==> r[i] == if mask[i] then ifSet[i] else ifClear[i]
  {
    seq(64, i requires 0 <= i < 64 => if mask[i] then ifSet[i] else ifClear[i])
  }

  /** (metadata & ~mask) | (value & mask), bit for bit. */
  function WriteMetadata(metadata: Word, w: Masked): Word {
    Select(w.mask, w.value, metadata)
  }

  function WriteSeveral(metadata: Word, ws: seq<Masked>): Word
    decreases |ws|
  {
    if ws == [] then metadata else WriteSeveral(WriteMetadata(metadata, ws[0]), ws[1..])
  }

  const ZERO: Word := Clear(64)

  /** Two masked writes as one: the later wins where both write. */
  function Then(v: Masked, w: Masked): Masked {
    Masked(Select(w.mask, w.value, v.value), Select(w.mask, w.mask, v.mask))
  }

  function Folded(ws: seq<Masked>): Masked {
    if ws == [] then Masked(ZERO, ZERO) else Then(ws[0], Folded(ws[1..]))
  }

  lemma ThenIsBoth(metadata: Word, v: Masked, w: Masked)
    ensures WriteMetadata(WriteMetadata(metadata, v), w) == WriteMetadata(metadata, Then(v, w))
  {
  }

  /** Any number of masked metadata writes have the effect of a single one. */
  lemma {:induction false} WritesFold(metadata: Word, ws: seq<Masked>)
    ensures WriteSeveral(metadata, ws) == WriteMetadata(metadata, Folded(ws))
    decreases |ws|
  {
    if ws != [] {
      WritesFold(WriteMetadata(metadata, ws[0]), ws[1..]);
      ThenIsBoth(metadata, ws[0], Folded(ws[1..]));
    }
  }

  /** Write k is the last whose mask has bit i. */
  predicate LastMasking(ws: seq<Masked>, k: nat, i: nat)
    requires i < 64
  {
    k < |ws| && ws[k].mask[i] && forall j :: k < j < |ws| ==> !ws[j].mask[i]
  }

  /** Every bit of the register is that of the last write whose mask has it, or as it was if none has. */
  lemma {:induction false} BitsWritten(metadata: Word, ws: seq<Masked>, i: nat)
    requires i < 64
    ensures forall k: nat :: LastMasking(ws, k, i) ==> WriteSeveral(metadata, ws)[i] == ws[k].value[i]
    ensures (forall k :: 0 <= k < |ws| ==> !ws[k].mask[i]) ==> WriteSeveral(metadata, ws)[i] == metadata[i]
    decreases |ws|
  {
    hide WriteMetadata;
    if ws != [] {
      var rest := ws[1..];
      BitWritten(metadata, ws[0], i);
      BitsWritten(WriteMetadata(metadata, ws[0]), rest, i);
      assert forall j :: 0 <= j < |rest| ==> rest[j] == ws[j + 1];
      forall k: nat | LastMasking(ws, k, i) ensures WriteSeveral(metadata, ws)[i] == ws[k].value[i] {
        if k > 0 {
          assert LastMasking(rest, k - 1, i);
        }
      }
    }
  }

  lemma BitWritten(metadata: Word, w: Masked, i: nat)
    requires i < 64
    ensures WriteMetadata(metadata, w)[i] == if w.mask[i] then w.value[i] else metadata[i]
  {
  }

  // ---- the object -----------------------------------------------------------------------------

  class Cofactionset {
    var acset: map<int, Act>
    var acfields: map<Field, Act>
    var metadata: Word

    constructor ()
      ensures acset == map[] && acfields == map[] && metadata == ZERO
    {
      acset, acfields, metadata := map[], map[], ZERO;
    }

    /** What is held in each place. */
    ghost predicate Holds(held: map<Place, Act>)
      reads this
    {
      && (forall s :: s in acset <==> InSlot(s) in held)
      && (forall s :: s in acset ==> acset[s] == held[InSlot(s)])
      && (forall f :: f in acfields <==> InField(f) in held)
      && (forall f :: f in acfields ==> acfields[f] == held[InField(f)])
    }

    method WriteActions(acts: seq<Act>, ghost held: map<Place, Act>)
      requires Holds(held)
      modifies this`acset, this`acfields
      ensures Holds(WriteAll(held, acts))
    {
      ghost var now := held;
      var i := 0;
      while i < |acts|
        invariant 0 <= i <= |acts| && Holds(now)
        invariant WriteAll(held, acts) == WriteAll(now, acts[i..])
      {
        var a := acts[i];
        assert acts[i..][1..] == acts[i + 1..];
        if a.kind == SET_FIELD {
          acfields := acfields[a.field := a];
        } else {
          acset := acset[Slot(a.kind) := a];
        }
        now := now[PlaceOf(a) := a];
        i := i + 1;
      }
    }

    method WriteMetadataMasked(w: Masked)
      modifies this`metadata
      ensures metadata == WriteMetadata(old(metadata), w)
    {
      metadata := Select(w.mask, w.value, metadata);
    }
  }
}
