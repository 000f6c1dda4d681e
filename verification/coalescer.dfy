/** FrameCoalescer: batching of input frames, and why a receiver cannot tell the batched
    stream from the raw one (packages/network/src/client/FrameCoalescer.ts). */
module Coalescer {
  import opened Common

  datatype Axis = Vertical | Horizontal | UnknownAxis

  /** The coordinates a move payload may carry; any of them can be missing. */
  datatype Coords = Coords(dx: Option<real>, dy: Option<real>, x: Option<real>, y: Option<real>)

  /** Button, key and every other frame is `Distinct`. */
  datatype Input =
    | MouseMove(at: Coords)
    | MouseDragMove(at: Coords)
    | MouseScroll(axis: Axis, amount: Option<real>)
    | Distinct(t: int, p: string)

  datatype Kind = Move | Drag | Scroll

  datatype Batch = Batch(kind: Kind, dx: real, dy: real, amountX: real, amountY: real, x: Option<real>, y: Option<real>)

  function OrZero(v: Option<real>): real { if v.Some? then v.value else 0.0 }

  function KindOf(f: Input): Kind
    requires !f.Distinct?
  {
    match f case MouseMove(_) => Move case MouseDragMove(_) => Drag case MouseScroll(_, _) => Scroll
  }

  // ---------------------------------------------------------------- the coalescer's steps

  function Empty(kind: Kind): Batch { Batch(kind, 0.0, 0.0, 0.0, 0.0, None, None) }

  function Add(b: Batch, f: Input): Batch
    requires !f.Distinct?
  {
    if f.MouseScroll? then
      if f.axis == Horizontal then b.(amountX := b.amountX + OrZero(f.amount))
      else b.(amountY := b.amountY + OrZero(f.amount))
    else
      b.(dx := b.dx + OrZero(f.at.dx), dy := b.dy + OrZero(f.at.dy),
         x := if f.at.x.Some? then f.at.x else b.x, y := if f.at.y.Some? then f.at.y else b.y)
  }

  /** The frames `flush` sends for a batch: vertical scroll first, zero sums not at all. */
  function Flushed(b: Batch): seq<Input> {
    match b.kind
    case Scroll =>
      (if b.amountY != 0.0 then [MouseScroll(Vertical, Some(b.amountY))] else []) +
      (if b.amountX != 0.0 then [MouseScroll(Horizontal, Some(b.amountX))] else [])
    case Move => [MouseMove(Coords(Some(b.dx), Some(b.dy), None, None))]
    case Drag => [MouseDragMove(Coords(None, None, Some(OrZero(b.x)), Some(OrZero(b.y))))]
  }

  datatype Co = Co(pending: Option<Batch>, disposed: bool, sent: seq<Input>)

  function Flush(s: Co): Co {
    if s.pending.None? then s else s.(pending := None, sent := s.sent + Flushed(s.pending.value))
  }

  function Accumulate(s: Co, f: Input): Co
    requires !f.Distinct?
  {
    var s1 := if s.pending.Some? && s.pending.value.kind != KindOf(f) then Flush(s) else s;
    var b := if s1.pending.Some? then s1.pending.value else Empty(KindOf(f));
    s1.(pending := Some(Add(b, f)))
  }

  function Send(s: Co, f: Input): Co {
    if s.disposed then s
    else if f.Distinct? then var s1 := Flush(s); s1.(sent := s1.sent + [f])
    else Accumulate(s, f)
  }

  function Dispose(s: Co): Co { Flush(s).(disposed := true) }

  /** What the host and the frame clock do to a coalescer. */
  datatype Op = SendFrame(f: Input) | FlushDue

  function Run(ops: seq<Op>): Co {
    if ops == [] then Co(None, false, [])
    else
      var s := Run(ops[..|ops| - 1]);
      match ops[|ops| - 1] case SendFrame(f) => Send(s, f) case FlushDue => Flush(s)
  }

  /** The raw stream of the same run. */
  function Raw(ops: seq<Op>): seq<Input> {
    if ops == [] then []
    else Raw(ops[..|ops| - 1]) + match ops[|ops| - 1] { case SendFrame(f) => [f] case FlushDue => [] }
  }

  // ---------------------------------------------------------------- an abstract receiver

  /** The last absolute position, if any, and the offset since. */
  datatype Cursor = Cursor(anchor: Option<(real, real)>, dx: real, dy: real)

  /** `seen` records every distinct event together with the cursor state it met. */
  datatype Receiver = Receiver(
    cursor: Cursor, head: Option<(real, real)>, scrollX: real, scrollY: real, seen: seq<Observation>)

  datatype Observation = Observation(
    t: int, p: string, cursor: Cursor, head: Option<(real, real)>, scrollX: real, scrollY: real)

  /** The branches of the receiver's input handlers, without clamping and throttling: an
      absolute move wins, a relative one needs both deltas, a drag both coordinates, a scroll
      a known axis and an amount; anything else is ignored. */
  function Receive(r: Receiver, f: Input): Receiver {
    match f
    case MouseMove(at) =>
      if at.x.Some? && at.y.Some? then r.(cursor := Cursor(Some((at.x.value, at.y.value)), 0.0, 0.0))
      else if at.dx.Some? && at.dy.Some? then
        r.(cursor := r.cursor.(dx := r.cursor.dx + at.dx.value, dy := r.cursor.dy + at.dy.value))
      else r
    case MouseDragMove(at) =>
      if at.x.Some? && at.y.Some? then r.(head := Some((at.x.value, at.y.value))) else r
    case MouseScroll(axis, amount) =>
      if amount.None? then r
      else if axis == Vertical then r.(scrollY := r.scrollY + amount.value)
      else if axis == Horizontal then r.(scrollX := r.scrollX + amount.value)
      else r
    case Distinct(t, p) => r.(seen := r.seen + [Observation(t, p, r.cursor, r.head, r.scrollX, r.scrollY)])
  }

  function ReceiveAll(r: Receiver, fs: seq<Input>): Receiver {
    if fs == [] then r else Receive(ReceiveAll(r, fs[..|fs| - 1]), fs[|fs| - 1])
  }

  lemma {:induction false} ReceiveConcat(r: Receiver, a: seq<Input>, b: seq<Input>)
    ensures ReceiveAll(r, a + b) == ReceiveAll(ReceiveAll(r, a), b)
  {
    if b == [] {
      assert a + b == a;
    } else {
      var init := b[..|b| - 1];
      assert (a + b)[..|a + b| - 1] == a + init;
      ReceiveConcat(r, a, init);
    }
  }

  // ---------------------------------------------------------------- which frames survive batching

  /** A move must be relative with both deltas (or move nothing), a drag absolute with both
      coordinates, a scroll on a known axis (or of nothing). */
  predicate Faithful(f: Input) {
    match f
    case MouseMove(at) =>
      && !(at.x.Some? && at.y.Some?)
      && ((at.dx.Some? && at.dy.Some?) || (OrZero(at.dx) == 0.0 && OrZero(at.dy) == 0.0))
    case MouseDragMove(at) => at.x.Some? && at.y.Some?
    case MouseScroll(axis, amount) => axis != UnknownAxis || OrZero(amount) == 0.0
    case Distinct(_, _) => true
  }

  /** A pending drag batch has been given its position. */
  predicate Positioned(pending: Option<Batch>) {
    pending.Some? && pending.value.kind == Drag ==> pending.value.x.Some? && pending.value.y.Some?
  }

  function FlushedOf(pending: Option<Batch>): seq<Input> {
    if pending.Some? then Flushed(pending.value) else []
  }

  /** Adding a frame to a batch is, to a receiver, the same as sending it after the batch. */
  lemma AddIsReceive(r: Receiver, b: Batch, f: Input)
    requires !f.Distinct? && Faithful(f) && KindOf(f) == b.kind && (b == Empty(b.kind) || Positioned(Some(b)))
    ensures ReceiveAll(r, Flushed(Add(b, f))) ==
            Receive(if b == Empty(b.kind) then r else ReceiveAll(r, Flushed(b)), f)
    ensures Positioned(Some(Add(b, f)))
  {
    hide ReceiveAll;
    ReceiveFlushed(r, b);
    ReceiveFlushed(r, Add(b, f));
  }

  lemma ReceiveOne(r: Receiver, f: Input)
    ensures ReceiveAll(r, [f]) == Receive(r, f)
  {
    assert [f][..0] == [];
  }

  lemma ReceiveFlushed(r: Receiver, b: Batch)
    ensures ReceiveAll(r, Flushed(b)) ==
            match b.kind
            case Scroll => r.(scrollX := r.scrollX + b.amountX, scrollY := r.scrollY + b.amountY)
            case Move => r.(cursor := r.cursor.(dx := r.cursor.dx + b.dx, dy := r.cursor.dy + b.dy))
            case Drag => r.(head := Some((OrZero(b.x), OrZero(b.y))))
  {
    match b.kind
    case Scroll =>
      var v, h := MouseScroll(Vertical, Some(b.amountY)), MouseScroll(Horizontal, Some(b.amountX));
      ReceiveOne(r, v);
      ReceiveOne(r, h);
      ReceiveOne(Receive(r, v), h);
      ReceiveConcat(r, [v], [h]);
    case Move => ReceiveOne(r, Flushed(b)[0]);
    case Drag => ReceiveOne(r, Flushed(b)[0]);
  }

  /** Sent plus pending drives a receiver exactly as the raw stream does. */
  ghost predicate Matches(s: Co, raw: seq<Input>) {
    && !s.disposed && Positioned(s.pending)
    && (forall r :: ReceiveAll(r, s.sent + FlushedOf(s.pending)) == ReceiveAll(r, raw))
  }

  lemma FlushKeepsMatch(s: Co, raw: seq<Input>)
    requires Matches(s, raw)
    ensures Matches(Flush(s), raw)
  {
    var s' := Flush(s);
    assert s'.sent + FlushedOf(s'.pending) == s.sent + FlushedOf(s.pending);
  }

  lemma AccumulateKeepsMatch(s: Co, raw: seq<Input>, f: Input)
    requires Matches(s, raw) && !f.Distinct? && Faithful(f)
    requires s.pending.Some? ==> s.pending.value.kind == KindOf(f)
    ensures Matches(Accumulate(s, f), raw + [f])
  {
    var b := if s.pending.Some? then s.pending.value else Empty(KindOf(f));
    forall r ensures ReceiveAll(r, s.sent + Flushed(Add(b, f))) == ReceiveAll(r, raw + [f]) {
      var r1 := ReceiveAll(r, s.sent);
      ReceiveConcat(r, s.sent, Flushed(Add(b, f)));
      ReceiveConcat(r, s.sent, FlushedOf(s.pending));
      assert ReceiveAll(r, s.sent + FlushedOf(s.pending)) == ReceiveAll(r, raw);
      assert (raw + [f])[..|raw|] == raw;
      AddIsReceive(r1, b, f);
      ReceiveFlushed(r1, b);
    }
    AddIsReceive(Receiver(Cursor(None, 0.0, 0.0), None, 0.0, 0.0, []), b, f);
  }

  lemma SendKeepsMatch(s: Co, raw: seq<Input>, f: Input)
    requires Matches(s, raw) && Faithful(f)
    ensures Matches(Send(s, f), raw + [f])
  {
    FlushKeepsMatch(s, raw);
    if f.Distinct? {
      var s1 := Flush(s);
      forall r ensures ReceiveAll(r, s1.sent + [f] + []) == ReceiveAll(r, raw + [f]) {
        assert ReceiveAll(r, s1.sent + FlushedOf(s1.pending)) == ReceiveAll(r, raw);
        assert s1.sent + [] == s1.sent && s1.sent + [f] + [] == s1.sent + [f];
        assert (s1.sent + [f])[..|s1.sent|] == s1.sent && (raw + [f])[..|raw|] == raw;
      }
    } else if s.pending.Some? && s.pending.value.kind != KindOf(f) {
      AccumulateKeepsMatch(Flush(s), raw, f);
    } else {
      AccumulateKeepsMatch(s, raw, f);
    }
  }

  ghost predicate AllFaithful(ops: seq<Op>) {
    forall op :: op in ops && op.SendFrame? ==> Faithful(op.f)
  }

  lemma {:induction false} RunMatches(ops: seq<Op>)
    requires AllFaithful(ops)
    ensures Matches(Run(ops), Raw(ops))
  {
    if ops == [] {
    } else {
      var init, op := ops[..|ops| - 1], ops[|ops| - 1];
      RunMatches(init);
      assert op in ops;
      match op
      case SendFrame(f) => SendKeepsMatch(Run(init), Raw(init), f);
      case FlushDue =>
        FlushKeepsMatch(Run(init), Raw(init));
        assert Raw(ops) == Raw(init);
    }
  }

  /** For every interleaving of faithful frames and flushes, ending in dispose: a receiver in
      any state ends in the same state, having met every click and key with the same cursor
      state, as if every frame had been sent on its own. */
  lemma BatchingIsInvisible(ops: seq<Op>, r: Receiver)
    requires AllFaithful(ops)
    ensures ReceiveAll(r, Dispose(Run(ops)).sent) == ReceiveAll(r, Raw(ops))
  {
    var s := Run(ops);
    RunMatches(ops);
    assert ReceiveAll(r, s.sent + FlushedOf(s.pending)) == ReceiveAll(r, Raw(ops));
    assert Dispose(s).sent == s.sent + FlushedOf(s.pending);
  }

  /** Exactly the faithful frames survive: any other, sent on its own, leaves some receiver
      in a different state. */
  lemma FaithfulExactly(f: Input)
    ensures Faithful(f) <==>
            forall r :: ReceiveAll(r, Dispose(Run([SendFrame(f)])).sent) == ReceiveAll(r, [f])
  {
    hide Run, ReceiveAll, Faithful, Flushed, Dispose, Add;
    var ops := [SendFrame(f)];
    assert ops[..0] == [] && Raw(ops) == [f];
    if Faithful(f) {
      forall r ensures ReceiveAll(r, Dispose(Run(ops)).sent) == ReceiveAll(r, [f]) {
        BatchingIsInvisible(ops, r);
      }
    } else {
      UnfaithfulShows(f);
      assert Dispose(Run(ops)).sent == Flushed(Add(Empty(KindOf(f)), f)) by { OneFrame(f); }
    }
  }

  lemma OneFrame(f: Input)
    requires !f.Distinct?
    ensures Dispose(Run([SendFrame(f)])).sent == Flushed(Add(Empty(KindOf(f)), f))
  {
    assert [SendFrame(f)][..0] == [];
    assert Run([SendFrame(f)]) == Send(Co(None, false, []), f);
  }

  lemma UnfaithfulShows(f: Input)
    requires !Faithful(f)
    ensures !f.Distinct?
    ensures var r := Receiver(Cursor(None, 0.0, 0.0), None, 0.0, 0.0, []);
            ReceiveAll(r, Flushed(Add(Empty(KindOf(f)), f))) != ReceiveAll(r, [f])
  {
    hide ReceiveAll;
    var r := Receiver(Cursor(None, 0.0, 0.0), None, 0.0, 0.0, []);
    ReceiveFlushed(r, Add(Empty(KindOf(f)), f));
    ReceiveOne(r, f);
  }

  /** Batching never sends more frames than it was given. */
  lemma {:induction false} NeverMoreFrames(ops: seq<Op>)
    ensures |Run(ops).sent| + |FlushedOf(Run(ops).pending)| <= |Raw(ops)| && !Run(ops).disposed
    ensures |Dispose(Run(ops)).sent| <= |Raw(ops)|
  {
    if ops != [] {
      NeverMoreFrames(ops[..|ops| - 1]);
    }
  }

  // ---------------------------------------------------------------- the object

  class FrameCoalescer {
    var pending: Option<Batch>
    var disposed: bool
    /** What the send sink was given. */
    var sent: seq<Input>

    function View(): Co
      reads this
    {
      Co(pending, disposed, sent)
    }

    constructor ()
      ensures View() == Co(None, false, [])
    {
      pending, disposed, sent := None, false, [];
    }

    method FlushBatch()
      modifies this`pending, this`sent
      ensures View() == Flush(old(View()))
    {
      var batch := pending;
      pending := None;
      if batch.None? { return; }
      var b := batch.value;
      match b.kind
      case Scroll =>
        if b.amountY != 0.0 { sent := sent + [MouseScroll(Vertical, Some(b.amountY))]; }
        if b.amountX != 0.0 { sent := sent + [MouseScroll(Horizontal, Some(b.amountX))]; }
        assert sent == old(sent) + Flushed(b);
      case Move => sent := sent + [MouseMove(Coords(Some(b.dx), Some(b.dy), None, None))];
      case Drag => sent := sent + [MouseDragMove(Coords(None, None, Some(OrZero(b.x)), Some(OrZero(b.y))))];
    }

    method AccumulateFrame(f: Input)
      requires !f.Distinct?
      modifies this`pending, this`sent
      ensures View() == Accumulate(old(View()), f)
    {
      if pending.Some? && pending.value.kind != KindOf(f) { FlushBatch(); }
      if pending.None? { pending := Some(Empty(KindOf(f))); }
      pending := Some(Add(pending.value, f));
    }

    method Offer(f: Input)
      modifies this`pending, this`sent
      ensures View() == Send(old(View()), f)
    {
      if disposed { return; }
      if !f.Distinct? {
        AccumulateFrame(f);
        return;
      }
      FlushBatch();
      sent := sent + [f];
    }

    method Close()
      modifies this
      ensures View() == Dispose(old(View()))
    {
      FlushBatch();
      disposed := true;
    }
  }
}
