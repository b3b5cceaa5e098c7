/**
 Packet and record buffers that move into shared immutable owners and come back through
 a bounded recycle channel. A buffer has an identity, its bytes and its capacity; the
 identity stands for the allocation wherever it moves.
 */
module Buffers {
  import opened Outcomes

  datatype Buffer = Buffer(id: nat, data: Bytes, capacity: nat)

  function Zeros(n: nat): (z: Bytes)
    ensures |z| == n
  {
    seq(n, _ => 0)
  }

  /** Truncated, or padded with zeros. */
  function Resize(data: Bytes, n: nat): (r: Bytes)
    ensures |r| == n
  {
    if n <= |data| then data[..n] else data + Zeros(n - |data|)
  }

  /** How much more than needed a growing buffer reserves. */
  type Slack = (nat, nat) -> nat

  function Grown(capacity: nat, n: nat, slack: Slack): (c: nat)
    ensures c >= capacity && c >= n
  {
    if n <= capacity then capacity else n + slack(capacity, n)
  }

  function Resized(b: Buffer, n: nat, slack: Slack): (r: Buffer)
    ensures r.id == b.id && |r.data| == n && r.capacity >= n && r.capacity >= b.capacity
  {
    Buffer(b.id, Resize(b.data, n), Grown(b.capacity, n, slack))
  }

  function Zeroed(id: nat, n: nat): (r: Buffer)
    ensures r.id == id && |r.data| == n && r.capacity == n
  {
    Buffer(id, Zeros(n), n)
  }

  // -------------------------------------------- what producer and consumers share

  /** A frozen buffer: what its readers see, and how many of them there are. */
  datatype Owner = Owner(buffer: Buffer, offset: nat, readers: nat)

  /**
   The bounded recycle channel, the frozen buffers still owned by readers, and the
   identity the next fresh allocation will get.
   */
  datatype Wire = Wire(channel: seq<Buffer>, bound: nat, live: map<nat, Owner>, next: nat)

  function TrySend(w: Wire, b: Buffer): Wire {
    if |w.channel| < w.bound then w.(channel := w.channel + [b]) else w
  }

  function Freeze(w: Wire, b: Buffer, offset: nat): Wire {
    w.(live := w.live[b.id := Owner(b, offset, 1)])
  }

  function Clone(w: Wire, id: nat): Wire {
    if id in w.live then w.(live := w.live[id := w.live[id].(readers := w.live[id].readers + 1)]) else w
  }

  /** Only the last reader gives the buffer back, and never waits for room. */
  function Drop(w: Wire, id: nat): Wire {
    if id !in w.live then w
    else if w.live[id].readers > 1 then
      w.(live := w.live[id := w.live[id].(readers := w.live[id].readers - 1)])
    else TrySend(w.(live := w.live - {id}), w.live[id].buffer)
  }

  /** The bytes a reader of the frozen buffer sees. */
  function Visible(o: Owner): Bytes {
    if o.offset <= |o.buffer.data| then o.buffer.data[o.offset..] else []
  }

  // ------------------------------------------------------------- TUN read slots

  const SMALL_TUN_SLOT := 4096
  const LARGE_SLOT_COUNT := 16

  datatype Shape = Shape(largeCount: nat, headroom: nat, smallPayload: nat, largePayload: nat, slack: Slack)

  datatype SlotPool = SlotPool(slots: seq<Buffer>, freeSmall: seq<Buffer>, freeLarge: seq<Buffer>,
                               wire: Wire, shape: Shape)

  function Clamp(x: nat, low: nat, high: nat): nat {
    if x < low then low else if x > high then high else x
  }

  function Max(a: nat, b: nat): nat {
    if a < b then b else a
  }

  function ClassLength(sh: Shape, index: nat): nat {
    sh.headroom + if index < sh.largeCount then sh.largePayload else sh.smallPayload
  }

  function SmallCount(p: SlotPool): nat {
    if |p.slots| < p.shape.largeCount then 0 else |p.slots| - p.shape.largeCount
  }

  /** One buffer taken off the recycle channel: kept in the free list of its class if there is room. */
  function SlotDrainOne(p: SlotPool): SlotPool
    requires p.wire.channel != []
  {
    var b, sh := p.wire.channel[0], p.shape;
    var q := p.(wire := p.wire.(channel := p.wire.channel[1..]));
    if b.capacity >= sh.headroom + sh.largePayload then
      if |p.freeLarge| >= sh.largeCount then q
      else q.(freeLarge := p.freeLarge + [Resized(b, sh.headroom + sh.largePayload, sh.slack)])
    else if |p.freeSmall| >= SmallCount(p) then q
    else q.(freeSmall := p.freeSmall + [Resized(b, sh.headroom + sh.smallPayload, sh.slack)])
  }

  function SlotDrain(p: SlotPool): (q: SlotPool)
    ensures q.wire.channel == [] && q.slots == p.slots && q.shape == p.shape && q.wire.live == p.wire.live
    decreases |p.wire.channel|
  {
    if p.wire.channel == [] then p else SlotDrain(SlotDrainOne(p))
  }

  /** The list a replacement for the slot is taken from. */
  function FreeFor(p: SlotPool, index: nat): seq<Buffer> {
    if index < p.shape.largeCount then p.freeLarge else p.freeSmall
  }

  /** A read slot is frozen for its readers and replaced by a buffer of the slot's class. */
  function SlotTake(p: SlotPool, index: nat, payload: nat): SlotPool
    requires index < |p.slots|
  {
    var sh, free := p.shape, FreeFor(p, index);
    var total := sh.headroom + payload;
    var was := p.slots[index];
    var grown := if |was.data| < total then Resized(was, total, sh.slack) else was;
    var taken := Resized(grown, total, sh.slack);
    if free == [] then
      p.(slots := p.slots[index := Zeroed(p.wire.next, ClassLength(sh, index))],
         wire := Freeze(p.wire, taken, sh.headroom).(next := p.wire.next + 1))
    else
      var slots := p.slots[index := Resized(free[|free| - 1], ClassLength(sh, index), sh.slack)];
      var wire := Freeze(p.wire, taken, sh.headroom);
      if index < sh.largeCount then p.(slots := slots, freeLarge := free[..|free| - 1], wire := wire)
      else p.(slots := slots, freeSmall := free[..|free| - 1], wire := wire)
  }

  /** A slot left empty by a read gets its full class length back, in a new buffer if its own is too small. */
  function SlotRecycleEmpty(p: SlotPool, index: nat): SlotPool
    requires index < |p.slots|
  {
    var length := ClassLength(p.shape, index);
    if p.slots[index].capacity < length then
      p.(slots := p.slots[index := Zeroed(p.wire.next, length)], wire := p.wire.(next := p.wire.next + 1))
    else p.(slots := p.slots[index := Resized(p.slots[index], length, p.shape.slack)])
  }

  /** A read fills a slot. */
  function SlotFill(p: SlotPool, index: nat, data: Bytes): SlotPool
    requires index < |p.slots|
  {
    var b := p.slots[index];
    p.(slots := p.slots[index := Buffer(b.id, data, Grown(b.capacity, |data|, p.shape.slack))])
  }

  // --------------------------------------------------------------- record pool

  datatype BytePool = BytePool(free: seq<Buffer>, wire: Wire, minimum: nat, cached: nat, slack: Slack)

  /** What the caller's writer leaves in the slot it is given, and whether it succeeded. */
  datatype Written = Written(data: Bytes, ok: bool)

  type Writer = Bytes -> Written

  function ByteDrainOne(p: BytePool): BytePool
    requires p.wire.channel != []
  {
    p.(free := p.free + [p.wire.channel[0].(data := [])], wire := p.wire.(channel := p.wire.channel[1..]))
  }

  function ByteDrain(p: BytePool): (q: BytePool)
    ensures |q.free| < q.cached ==> q.wire.channel == []
    decreases |p.wire.channel|
  {
    if |p.free| >= p.cached || p.wire.channel == [] then p else ByteDrain(ByteDrainOne(p))
  }

  /** The slot a record is built in, emptied and with room. */
  function Prepared(p: BytePool): (slot: Buffer)
    ensures slot.data == [] && slot.capacity >= p.minimum
  {
    if p.free == [] then Buffer(p.wire.next, [], p.minimum)
    else
      var b := p.free[|p.free| - 1];
      Buffer(b.id, [], Grown(b.capacity, p.minimum, p.slack))
  }

  function Pop(p: BytePool): BytePool {
    if p.free == [] then p.(wire := p.wire.(next := p.wire.next + 1))
    else p.(free := p.free[..|p.free| - 1])
  }

  function Fill(p: BytePool, slot: Buffer, w: Written): Buffer {
    Buffer(slot.id, w.data, Grown(slot.capacity, |w.data|, p.slack))
  }

  /** The record as its readers get it, or nothing when the writer failed. */
  function ByteBuild(p: BytePool, writer: Writer): (BytePool, Option<nat>) {
    var slot, q := Prepared(p), Pop(p);
    var w := writer(slot.data);
    var filled := Fill(p, slot, w);
    if w.ok then (q.(wire := Freeze(q.wire, filled, 0)), Some(filled.id))
    else (q.(wire := TrySend(q.wire, filled)), None)
  }

  // ------------------------------------------------------------------- the pools

  class PacketSlotPool {
    var slots: seq<Buffer>
    var freeSmall: seq<Buffer>
    var freeLarge: seq<Buffer>
    var wire: Wire
    const shape: Shape

    ghost function View(): SlotPool
      reads this
    {
      SlotPool(slots, freeSmall, freeLarge, wire, shape)
    }

    constructor (batch: nat, headroom: nat, smallPayload: nat, largePayload: nat, slack: Slack)
      ensures SlotInv(View()) && wire.live == map[] && wire.channel == [] && wire.bound == Max(batch, 1)
      ensures |slots| == Max(batch, 1) && freeSmall == freeLarge == []
      ensures shape.largeCount == Clamp(batch, 1, LARGE_SLOT_COUNT) && shape.headroom == headroom
      ensures SMALL_TUN_SLOT <= shape.smallPayload <= shape.largePayload
      ensures forall i :: 0 <= i < |slots| ==> |slots[i].data| == ClassLength(shape, i)
    {
      var large := Clamp(batch, 1, LARGE_SLOT_COUNT);
      var small := if batch < large then 0 else batch - large;
      var largeSize := Max(largePayload, SMALL_TUN_SLOT);
      var smallSize := Clamp(smallPayload, SMALL_TUN_SLOT, largeSize);
      this.shape := Shape(large, headroom, smallSize, largeSize, slack);
      this.slots := seq(large, i requires 0 <= i => Zeroed(i, headroom + largeSize)) +
                    seq(small, i requires 0 <= i => Zeroed(large + i, headroom + smallSize));
      this.freeSmall, this.freeLarge := [], [];
      this.wire := Wire([], Max(batch, 1), map[], large + small);
      new;
      forall i | 0 <= i < |slots| ensures slots[i] == Zeroed(i, ClassLength(shape, i)) {
      }
      FreshSlots(View());
    }

    method DrainRecycled()
      modifies this`freeSmall, this`freeLarge, this`wire
      ensures View() == SlotDrain(old(View()))
    {
      while wire.channel != []
        invariant SlotDrain(View()) == SlotDrain(old(View()))
        decreases |wire.channel|
      {
        var b := wire.channel[0];
        var isLarge := b.capacity >= shape.headroom + shape.largePayload;
        wire := wire.(channel := wire.channel[1..]);
        if isLarge {
          if |freeLarge| >= shape.largeCount {
            continue;
          }
          freeLarge := freeLarge + [Resized(b, shape.headroom + shape.largePayload, shape.slack)];
        } else {
          if |freeSmall| >= (if |slots| < shape.largeCount then 0 else |slots| - shape.largeCount) {
            continue;
          }
          freeSmall := freeSmall + [Resized(b, shape.headroom + shape.smallPayload, shape.slack)];
        }
      }
    }

    /** A buffer of the slot's class: the last one of its free list, or a fresh one. */
    method Replacement(index: nat) returns (b: Buffer)
      modifies this`freeSmall, this`freeLarge, this`wire
      ensures var free, length := old(FreeFor(View(), index)), ClassLength(shape, index);
              if free == [] then
                && b == Zeroed(old(wire).next, length) && wire == old(wire).(next := old(wire).next + 1)
                && freeSmall == old(freeSmall) && freeLarge == old(freeLarge)
              else
                && b == Resized(free[|free| - 1], length, shape.slack) && wire == old(wire)
                && freeLarge == (if index < shape.largeCount then free[..|free| - 1] else old(freeLarge))
                && freeSmall == (if index < shape.largeCount then old(freeSmall) else free[..|free| - 1])
    {
      var length := ClassLength(shape, index);
      if index < shape.largeCount && freeLarge != [] {
        b := Resized(freeLarge[|freeLarge| - 1], length, shape.slack);
        freeLarge := freeLarge[..|freeLarge| - 1];
      } else if index >= shape.largeCount && freeSmall != [] {
        b := Resized(freeSmall[|freeSmall| - 1], length, shape.slack);
        freeSmall := freeSmall[..|freeSmall| - 1];
      } else {
        b := Zeroed(wire.next, length);
        wire := wire.(next := wire.next + 1);
      }
    }

    method Take(index: nat, payload: nat) returns (id: nat)
      requires index < |slots|
      modifies this
      ensures View() == SlotTake(SlotDrain(old(View())), index, payload)
      ensures id == old(slots[index].id) && |slots[index].data| == ClassLength(shape, index)
    {
      DrainRecycled();
      var replacement := Replacement(index);
      var slot := slots[index];
      var total := shape.headroom + payload;
      if |slot.data| < total {
        slot := Resized(slot, total, shape.slack);
      }
      slots := slots[index := replacement];
      var taken := Resized(slot, total, shape.slack);
      wire := Freeze(wire, taken, shape.headroom);
      id := taken.id;
    }

    method RecycleEmpty(index: nat)
      requires index < |slots|
      modifies this
      ensures View() == SlotRecycleEmpty(SlotDrain(old(View())), index)
      ensures |slots[index].data| == ClassLength(shape, index)
    {
      DrainRecycled();
      var length := ClassLength(shape, index);
      if slots[index].capacity < length {
        slots := slots[index := Zeroed(wire.next, length)];
        wire := wire.(next := wire.next + 1);
      } else {
        slots := slots[index := Resized(slots[index], length, shape.slack)];
      }
    }
  }

  class RecyclingBytePool {
    var free: seq<Buffer>
    var wire: Wire
    const minimum: nat
    const cached: nat
    const slack: Slack

    ghost function View(): BytePool
      reads this
    {
      BytePool(free, wire, minimum, cached, slack)
    }

    constructor (preallocate: nat, minimum: nat, slack: Slack)
      ensures ByteInv(View()) && |free| == preallocate && wire.live == map[] && cached == Max(preallocate, 1)
      ensures this.minimum == minimum && wire.bound == cached
    {
      this.free := seq(preallocate, i requires 0 <= i => Buffer(i, [], minimum));
      this.wire := Wire([], Max(preallocate, 1), map[], preallocate);
      this.minimum, this.cached, this.slack := minimum, Max(preallocate, 1), slack;
      new;
      FreshRecords(View());
    }

    method DrainRecycled()
      modifies this
      ensures View() == ByteDrain(old(View()))
    {
      while |free| < cached && wire.channel != []
        invariant ByteDrain(View()) == ByteDrain(old(View()))
        decreases |wire.channel|
      {
        var slot := wire.channel[0];
        wire := wire.(channel := wire.channel[1..]);
        free := free + [slot.(data := [])];
      }
    }

    method Build(writer: Writer) returns (record: Option<nat>)
      modifies this
      ensures (View(), record) == ByteBuild(ByteDrain(old(View())), writer)
    {
      DrainRecycled();
      var slot;
      if free == [] {
        slot := Buffer(wire.next, [], minimum);
        wire := wire.(next := wire.next + 1);
      } else {
        slot := free[|free| - 1];
        free := free[..|free| - 1];
      }
      slot := slot.(data := []);
      if slot.capacity < minimum {
        slot := slot.(capacity := Grown(slot.capacity, minimum, slack));
      }
      var written := writer(slot.data);
      slot := Buffer(slot.id, written.data, Grown(slot.capacity, |written.data|, slack));
      if !written.ok {
        wire := TrySend(wire, slot);
        return None;
      }
      wire := Freeze(wire, slot, 0);
      record := Some(slot.id);
    }
  }

  // ------------------------------------------------------------ where buffers are

  function One(b: bool): nat {
    if b then 1 else 0
  }

  /** How often the buffer `id` is in the list. */
  function Times(bs: seq<Buffer>, id: nat): nat {
    if bs == [] then 0 else One(bs[0].id == id) + Times(bs[1..], id)
  }

  /** How often the buffer is in the channel or with readers. */
  function WireTimes(w: Wire, id: nat): nat {
    Times(w.channel, id) + One(id in w.live)
  }

  /** ... or in the read slots or free lists. */
  function SlotTimes(p: SlotPool, id: nat): nat {
    Times(p.slots, id) + Times(p.freeSmall, id) + Times(p.freeLarge, id) + WireTimes(p.wire, id)
  }

  function ByteTimes(p: BytePool, id: nat): nat {
    Times(p.free, id) + WireTimes(p.wire, id)
  }

  /** A buffer is in one place, and one not yet allocated is in none. */
  predicate OnePlace(times: nat, id: nat, next: nat) {
    times <= 1 && (times > 0 ==> id < next)
  }

  ghost predicate WireInv(w: Wire) {
    && |w.channel| <= w.bound
    && forall id :: id in w.live ==> w.live[id].buffer.id == id && w.live[id].readers >= 1
  }

  ghost predicate SlotsOnce(p: SlotPool) {
    forall id: nat :: OnePlace(SlotTimes(p, id), id, p.wire.next)
  }

  predicate SlotBounds(p: SlotPool) {
    |p.freeLarge| <= p.shape.largeCount && |p.freeSmall| <= SmallCount(p)
  }

  ghost predicate SlotInv(p: SlotPool) {
    SlotsOnce(p) && WireInv(p.wire) && SlotBounds(p)
  }

  ghost predicate BytesOnce(p: BytePool) {
    forall id: nat :: OnePlace(ByteTimes(p, id), id, p.wire.next)
  }

  ghost predicate ByteInv(p: BytePool) {
    BytesOnce(p) && WireInv(p.wire) && |p.free| <= p.cached
  }

  lemma {:induction false} TimesJoin(a: seq<Buffer>, b: seq<Buffer>, id: nat)
    ensures Times(a + b, id) == Times(a, id) + Times(b, id)
    decreases |a|
  {
    if a == [] {
      assert a + b == b;
    } else {
      assert (a + b)[1..] == a[1..] + b;
      TimesJoin(a[1..], b, id);
    }
  }

  lemma TimesPush(bs: seq<Buffer>, b: Buffer, id: nat)
    ensures Times(bs + [b], id) == Times(bs, id) + One(b.id == id)
  {
    TimesJoin(bs, [b], id);
    assert [b][1..] == [];
  }

  lemma TimesLast(bs: seq<Buffer>, id: nat)
    requires bs != []
    ensures Times(bs, id) == Times(bs[..|bs| - 1], id) + One(bs[|bs| - 1].id == id)
  {
    assert bs == bs[..|bs| - 1] + [bs[|bs| - 1]];
    TimesPush(bs[..|bs| - 1], bs[|bs| - 1], id);
  }

  lemma {:induction false} TimesReplace(bs: seq<Buffer>, i: nat, b: Buffer, id: nat)
    requires i < |bs|
    ensures Times(bs[i := b], id) + One(bs[i].id == id) == Times(bs, id) + One(b.id == id)
    ensures Times(bs, id) >= One(bs[i].id == id)
    decreases |bs|
  {
    if i > 0 {
      assert bs[i := b][1..] == bs[1..][i - 1 := b];
      TimesReplace(bs[1..], i - 1, b, id);
    }
  }

  ghost predicate Numbered(bs: seq<Buffer>) {
    forall i :: 0 <= i < |bs| ==> bs[i].id == i
  }

  lemma {:induction false} NumberedOnce(bs: seq<Buffer>, id: nat)
    requires Numbered(bs)
    ensures Times(bs, id) == One(id < |bs|)
    decreases |bs|
  {
    if bs != [] {
      TimesLast(bs, id);
      NumberedOnce(bs[..|bs| - 1], id);
    }
  }

  lemma FreshSlots(p: SlotPool)
    requires Numbered(p.slots) && p.wire.next == |p.slots|
    requires p.freeSmall == p.freeLarge == p.wire.channel == [] && p.wire.live == map[]
    ensures SlotInv(p)
  {
    forall id: nat ensures OnePlace(SlotTimes(p, id), id, p.wire.next) {
      NumberedOnce(p.slots, id);
    }
  }

  lemma FreshRecords(p: BytePool)
    requires Numbered(p.free) && p.wire.next == |p.free| && p.wire.channel == [] && p.wire.live == map[]
    requires |p.free| <= p.cached
    ensures ByteInv(p)
  {
    forall id: nat ensures OnePlace(ByteTimes(p, id), id, p.wire.next) {
      NumberedOnce(p.free, id);
    }
  }
}
