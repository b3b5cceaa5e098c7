/**
 Every interleaving of a pool's own steps with readers cloning and dropping frozen
 buffers on other threads. Draining is cut into its single receives, so a drop may
 come between any two of them.
 */
module BufferRuns {
  import opened Outcomes
  import opened Buffers

  // ------------------------------------------------------------------- slot pool

  datatype SlotStep = DrainOne | Take(index: nat, payload: nat) | RecycleEmpty(index: nat)
                    | FillSlot(index: nat, data: Bytes) | CloneOf(id: nat) | DropOf(id: nat)

  function SlotAct(p: SlotPool, a: SlotStep): SlotPool {
    match a
    case DrainOne => if p.wire.channel == [] then p else SlotDrainOne(p)
    case Take(index, payload) => if index < |p.slots| then SlotTake(p, index, payload) else p
    case RecycleEmpty(index) => if index < |p.slots| then SlotRecycleEmpty(p, index) else p
    case FillSlot(index, data) => if index < |p.slots| then SlotFill(p, index, data) else p
    case CloneOf(id) => p.(wire := Clone(p.wire, id))
    case DropOf(id) => p.(wire := Drop(p.wire, id))
  }

  function SlotRun(p: SlotPool, acts: seq<SlotStep>): SlotPool
    decreases |acts|
  {
    if acts == [] then p else SlotRun(SlotAct(p, acts[0]), acts[1..])
  }

  /** Whether the reader's drop gives the buffer back to the allocator: the last drop into a full channel. */
  predicate DropReleases(w: Wire, dropped: nat, id: nat) {
    dropped == id && id in w.live && w.live[id].readers <= 1 && |w.channel| >= w.bound
  }

  /** The list of the received buffer's class is full. */
  predicate Discards(p: SlotPool)
    requires p.wire.channel != []
  {
    if p.wire.channel[0].capacity >= p.shape.headroom + p.shape.largePayload then
      |p.freeLarge| >= p.shape.largeCount
    else |p.freeSmall| >= SmallCount(p)
  }

  /** Whether the step gives the buffer back to the allocator. */
  predicate SlotReleases(p: SlotPool, a: SlotStep, id: nat) {
    match a
    case DrainOne => p.wire.channel != [] && Discards(p) && p.wire.channel[0].id == id
    case RecycleEmpty(index) =>
      index < |p.slots| && p.slots[index].capacity < ClassLength(p.shape, index) && p.slots[index].id == id
    case DropOf(dropped) => DropReleases(p.wire, dropped, id)
    case _ => false
  }

  /** Whether the step allocates the buffer. */
  predicate Allocates(before: Wire, after: Wire, id: nat) {
    after.next != before.next && id == before.next
  }

  lemma DrainConserves(p: SlotPool, id: nat)
    requires p.wire.channel != []
    ensures SlotTimes(SlotDrainOne(p), id) + One(SlotReleases(p, DrainOne, id)) == SlotTimes(p, id)
  {
    var b, sh := p.wire.channel[0], p.shape;
    if b.capacity >= sh.headroom + sh.largePayload {
      TimesPush(p.freeLarge, Resized(b, sh.headroom + sh.largePayload, sh.slack), id);
    } else {
      TimesPush(p.freeSmall, Resized(b, sh.headroom + sh.smallPayload, sh.slack), id);
    }
  }

  lemma SlotNotLive(p: SlotPool, index: nat)
    requires SlotsOnce(p) && index < |p.slots|
    ensures p.slots[index].id !in p.wire.live
  {
    var id := p.slots[index].id;
    TimesReplace(p.slots, index, p.slots[index], id);
    assert OnePlace(SlotTimes(p, id), id, p.wire.next);
  }

  lemma TakeConserves(p: SlotPool, index: nat, payload: nat, id: nat)
    requires SlotsOnce(p) && index < |p.slots|
    ensures var q := SlotTake(p, index, payload);
            SlotTimes(q, id) == SlotTimes(p, id) + One(Allocates(p.wire, q.wire, id))
  {
    SlotNotLive(p, index);
    TimesReplace(p.slots, index, SlotTake(p, index, payload).slots[index], id);
    if FreeFor(p, index) != [] {
      TimesLast(FreeFor(p, index), id);
    }
  }

  lemma RecycleConserves(p: SlotPool, index: nat, id: nat)
    requires index < |p.slots|
    ensures var q := SlotRecycleEmpty(p, index);
            SlotTimes(q, id) + One(SlotReleases(p, RecycleEmpty(index), id)) ==
            SlotTimes(p, id) + One(Allocates(p.wire, q.wire, id))
  {
    TimesReplace(p.slots, index, SlotRecycleEmpty(p, index).slots[index], id);
  }

  lemma DropConserves(w: Wire, dropped: nat, id: nat)
    requires WireInv(w)
    ensures WireTimes(Drop(w, dropped), id) + One(DropReleases(w, dropped, id)) == WireTimes(w, id)
  {
    if dropped in w.live {
      TimesPush(w.channel, w.live[dropped].buffer, id);
    }
  }

  /**
   Conservation: a step adds to the places only what it takes from the allocator and
   removes from them only what it gives back; everything else just moves.
   */
  lemma SlotConservation(p: SlotPool, a: SlotStep, id: nat)
    requires SlotInv(p)
    ensures SlotTimes(SlotAct(p, a), id) + One(SlotReleases(p, a, id)) ==
            SlotTimes(p, id) + One(Allocates(p.wire, SlotAct(p, a).wire, id))
  {
    match a
    case DrainOne => if p.wire.channel != [] { DrainConserves(p, id); }
    case Take(index, payload) => if index < |p.slots| { TakeConserves(p, index, payload, id); }
    case RecycleEmpty(index) => if index < |p.slots| { RecycleConserves(p, index, id); }
    case FillSlot(index, data) =>
      if index < |p.slots| {
        TimesReplace(p.slots, index, SlotFill(p, index, data).slots[index], id);
      }
    case CloneOf(_) =>
    case DropOf(dropped) => DropConserves(p.wire, dropped, id);
  }

  lemma SlotActOnce(p: SlotPool, a: SlotStep)
    requires SlotInv(p)
    ensures SlotsOnce(SlotAct(p, a))
  {
    var q := SlotAct(p, a);
    NextGrows(p, a);
    forall id: nat ensures OnePlace(SlotTimes(q, id), id, q.wire.next) {
      assert OnePlace(SlotTimes(p, id), id, p.wire.next);
      SlotConservation(p, a, id);
    }
  }

  lemma NextGrows(p: SlotPool, a: SlotStep)
    ensures p.wire.next <= SlotAct(p, a).wire.next <= p.wire.next + 1
  {
  }

  lemma SlotActBounds(p: SlotPool, a: SlotStep)
    requires SlotBounds(p)
    ensures SlotBounds(SlotAct(p, a))
    ensures SlotAct(p, a).shape == p.shape && |SlotAct(p, a).slots| == |p.slots|
  {
  }

  lemma SlotActWire(p: SlotPool, a: SlotStep)
    requires WireInv(p.wire)
    ensures WireInv(SlotAct(p, a).wire)
  {
  }

  lemma SlotActKeeps(p: SlotPool, a: SlotStep)
    requires SlotInv(p)
    ensures SlotInv(SlotAct(p, a))
    ensures SlotAct(p, a).shape == p.shape && |SlotAct(p, a).slots| == |p.slots|
  {
    SlotActOnce(p, a);
    SlotActBounds(p, a);
    SlotActWire(p, a);
  }

  /**
   Ownership over every run: each buffer is in exactly one place, and the free lists
   and the channel never outgrow their bounds.
   */
  lemma {:induction false} SlotRunKeeps(p: SlotPool, acts: seq<SlotStep>)
    requires SlotInv(p)
    ensures SlotInv(SlotRun(p, acts))
    ensures SlotRun(p, acts).shape == p.shape && |SlotRun(p, acts).slots| == |p.slots|
    decreases |acts|
  {
    if acts != [] {
      SlotActKeeps(p, acts[0]);
      SlotRunKeeps(SlotAct(p, acts[0]), acts[1..]);
    }
  }

  /**
   Taking never hands out a buffer that still has readers, disturbs no other reader,
   shows exactly the slot's payload, and leaves a read slot of full class length.
   */
  lemma TakeHandsOver(p: SlotPool, index: nat, payload: nat)
    requires SlotInv(p) && index < |p.slots|
    ensures var q, id := SlotTake(p, index, payload), p.slots[index].id;
            && id !in p.wire.live && q.wire.live.Keys == p.wire.live.Keys + {id}
            && (forall other :: other in p.wire.live ==> q.wire.live[other] == p.wire.live[other])
            && Visible(q.wire.live[id]) == Resize(p.slots[index].data, p.shape.headroom + payload)[p.shape.headroom..]
            && |q.slots[index].data| == ClassLength(p.shape, index)
            && q.slots[index].id !in q.wire.live
            && (forall i :: 0 <= i < |p.slots| && i != index ==> q.slots[i] == p.slots[i])
  {
    SlotNotLive(p, index);
    var q, id := SlotTake(p, index, payload), p.slots[index].id;
    SlotActKeeps(p, Take(index, payload));
    SlotNotLive(q, index);
    ResizeTwice(p.slots[index].data, p.shape.headroom + payload);
  }

  lemma ResizeTwice(data: Bytes, n: nat)
    ensures Resize(Resize(data, n), n) == Resize(data, n)
  {
  }

  lemma SlotActUndisturbed(p: SlotPool, a: SlotStep, id: nat)
    requires SlotInv(p) && id in p.wire.live && a != DropOf(id)
    ensures id in SlotAct(p, a).wire.live
    ensures SlotAct(p, a).wire.live[id].buffer == p.wire.live[id].buffer
    ensures SlotAct(p, a).wire.live[id].offset == p.wire.live[id].offset
  {
    if a.Take? && a.index < |p.slots| {
      SlotNotLive(p, a.index);
    }
  }

  /** A reader's bytes stay what they are, whatever the pool and other readers do, until it drops them. */
  lemma {:induction false} ReadersUndisturbed(p: SlotPool, acts: seq<SlotStep>, id: nat)
    requires SlotInv(p) && id in p.wire.live && DropOf(id) !in acts
    ensures id in SlotRun(p, acts).wire.live
    ensures Visible(SlotRun(p, acts).wire.live[id]) == Visible(p.wire.live[id])
    decreases |acts|
  {
    if acts != [] {
      assert acts[0] in acts;
      SlotActUndisturbed(p, acts[0], id);
      SlotActKeeps(p, acts[0]);
      ReadersUndisturbed(SlotAct(p, acts[0]), acts[1..], id);
    }
  }

  /** The pool's own draining loop is a run of single receives. */
  lemma {:induction false} DrainIsRun(p: SlotPool)
    ensures SlotDrain(p) == SlotRun(p, seq(|p.wire.channel|, _ => DrainOne))
    decreases |p.wire.channel|
  {
    if p.wire.channel != [] {
      var acts := seq(|p.wire.channel|, _ => DrainOne);
      DrainIsRun(SlotDrainOne(p));
      assert acts[1..] == seq(|p.wire.channel| - 1, _ => DrainOne);
      assert SlotDrainOne(p).wire.channel == p.wire.channel[1..];
    }
  }

  /** The pool's calls, each draining first, keep every buffer in one place. */
  lemma CallsKeep(p: SlotPool, index: nat, payload: nat)
    requires SlotInv(p) && index < |p.slots|
    ensures SlotInv(SlotDrain(p))
    ensures SlotInv(SlotTake(SlotDrain(p), index, payload))
    ensures SlotInv(SlotRecycleEmpty(SlotDrain(p), index))
  {
    DrainIsRun(p);
    SlotRunKeeps(p, seq(|p.wire.channel|, _ => DrainOne));
    SlotActKeeps(SlotDrain(p), Take(index, payload));
    SlotActKeeps(SlotDrain(p), RecycleEmpty(index));
  }

  // ----------------------------------------------------------------- record pool

  datatype ByteStep = ReceiveOne | Build(writer: Writer) | CloneRecord(id: nat) | DropRecord(id: nat)

  function ByteAct(p: BytePool, a: ByteStep): BytePool {
    match a
    case ReceiveOne => if |p.free| >= p.cached || p.wire.channel == [] then p else ByteDrainOne(p)
    case Build(writer) => ByteBuild(p, writer).0
    case CloneRecord(id) => p.(wire := Clone(p.wire, id))
    case DropRecord(id) => p.(wire := Drop(p.wire, id))
  }

  function ByteRun(p: BytePool, acts: seq<ByteStep>): BytePool
    decreases |acts|
  {
    if acts == [] then p else ByteRun(ByteAct(p, acts[0]), acts[1..])
  }

  predicate ByteReleases(p: BytePool, a: ByteStep, id: nat) {
    match a
    case DropRecord(dropped) => DropReleases(p.wire, dropped, id)
    case Build(writer) => !writer([]).ok && |p.wire.channel| >= p.wire.bound && Prepared(p).id == id
    case _ => false
  }

  lemma PreparedNotLive(p: BytePool)
    requires BytesOnce(p)
    ensures Prepared(p).id !in p.wire.live
  {
    var id := Prepared(p).id;
    assert OnePlace(ByteTimes(p, id), id, p.wire.next);
    if p.free != [] {
      TimesLast(p.free, id);
    }
  }

  lemma BuildConserves(p: BytePool, writer: Writer, id: nat)
    requires BytesOnce(p)
    ensures var q := ByteBuild(p, writer).0;
            ByteTimes(q, id) + One(ByteReleases(p, Build(writer), id)) ==
            ByteTimes(p, id) + One(Allocates(p.wire, q.wire, id))
  {
    PreparedNotLive(p);
    if p.free != [] {
      TimesLast(p.free, id);
    }
    TimesPush(p.wire.channel, Fill(p, Prepared(p), writer([])), id);
  }

  lemma ByteConservation(p: BytePool, a: ByteStep, id: nat)
    requires ByteInv(p)
    ensures ByteTimes(ByteAct(p, a), id) + One(ByteReleases(p, a, id)) ==
            ByteTimes(p, id) + One(Allocates(p.wire, ByteAct(p, a).wire, id))
  {
    match a
    case ReceiveOne => if p.wire.channel != [] { TimesPush(p.free, p.wire.channel[0].(data := []), id); }
    case Build(writer) => BuildConserves(p, writer, id);
    case CloneRecord(_) =>
    case DropRecord(dropped) => DropConserves(p.wire, dropped, id);
  }

  lemma ByteActWire(p: BytePool, a: ByteStep)
    requires WireInv(p.wire) && |p.free| <= p.cached
    ensures WireInv(ByteAct(p, a).wire) && |ByteAct(p, a).free| <= ByteAct(p, a).cached
    ensures p.wire.next <= ByteAct(p, a).wire.next <= p.wire.next + 1
  {
  }

  lemma ByteActKeeps(p: BytePool, a: ByteStep)
    requires ByteInv(p)
    ensures ByteInv(ByteAct(p, a))
  {
    var q := ByteAct(p, a);
    ByteActWire(p, a);
    forall id: nat ensures OnePlace(ByteTimes(q, id), id, q.wire.next) {
      assert OnePlace(ByteTimes(p, id), id, p.wire.next);
      ByteConservation(p, a, id);
    }
  }

  lemma {:induction false} ByteRunKeeps(p: BytePool, acts: seq<ByteStep>)
    requires ByteInv(p)
    ensures ByteInv(ByteRun(p, acts))
    decreases |acts|
  {
    if acts != [] {
      ByteActKeeps(p, acts[0]);
      ByteRunKeeps(ByteAct(p, acts[0]), acts[1..]);
    }
  }

  /** The pool's own draining keeps every buffer in one place and every reader as it is. */
  lemma {:induction false} ByteDrainKeeps(p: BytePool)
    requires ByteInv(p)
    ensures ByteInv(ByteDrain(p)) && ByteDrain(p).wire.live == p.wire.live
    decreases |p.wire.channel|
  {
    if |p.free| < p.cached && p.wire.channel != [] {
      ByteActKeeps(p, ReceiveOne);
      ByteDrainKeeps(ByteDrainOne(p));
    }
  }

  /**
   A record built in a recycled slot is the record a fresh allocation would give, after any
   run and the draining that comes first, whatever the slot held before; the slot had no
   readers, no other reader is disturbed, and a failed writer leaves no record.
   */
  lemma BuildLikeFresh(p: BytePool, acts: seq<ByteStep>, writer: Writer)
    requires ByteInv(p)
    ensures var q := ByteRun(p, acts);
            var (after, record) := ByteBuild(ByteDrain(q), writer);
            && (record.Some? <==> writer([]).ok)
            && (record.Some? ==> record.value !in q.wire.live && record.value in after.wire.live &&
                                 Visible(after.wire.live[record.value]) == writer([]).data)
            && (forall other :: other in q.wire.live ==>
                  other in after.wire.live && after.wire.live[other] == q.wire.live[other])
  {
    ByteRunKeeps(p, acts);
    ByteDrainKeeps(ByteRun(p, acts));
    PreparedNotLive(ByteDrain(ByteRun(p, acts)));
  }
}
