/** That batching batches: exactly which frames the coalescer sends, from the order of calls alone
    (packages/network/src/client/FrameCoalescer.ts). */
module CoalescerGroups {
  import opened Common
  import opened Coalescer

  // ---------------------------------------------------------------- the groups of a run

  /** The coalescible frames of one kind offered since the last flush, distinct frame or change of
      kind. */
  function Group(ops: seq<Op>): seq<Input> {
    if ops == [] then []
    else
      var open := Group(ops[..|ops| - 1]);
      match ops[|ops| - 1]
      case FlushDue => []
      case SendFrame(f) =>
        if f.Distinct? then []
        else if open != [] && SameKind(open[0], f) then open + [f]
        else [f]
  }

  predicate SameKind(f: Input, g: Input) {
    (f.MouseMove? && g.MouseMove?) || (f.MouseDragMove? && g.MouseDragMove?) || (f.MouseScroll? && g.MouseScroll?)
  }

  /** The groups ended so far, each distinct frame making one of its own. */
  function Closed(ops: seq<Op>): seq<seq<Input>> {
    if ops == [] then []
    else
      var init := ops[..|ops| - 1];
      var open := Group(init);
      var ended := if open == [] then Closed(init) else Closed(init) + [open];
      match ops[|ops| - 1]
      case FlushDue => ended
      case SendFrame(f) =>
        if f.Distinct? then ended + [[f]]
        else if open != [] && SameKind(open[0], f) then Closed(init)
        else ended
  }

  // ---------------------------------------------------------------- what a group amounts to

  function SumDx(fs: seq<Input>): real {
    if fs == [] then 0.0
    else
      var f := fs[|fs| - 1];
      SumDx(fs[..|fs| - 1]) + if (f.MouseMove? || f.MouseDragMove?) && f.at.dx.Some? then f.at.dx.value else 0.0
  }

  function SumDy(fs: seq<Input>): real {
    if fs == [] then 0.0
    else
      var f := fs[|fs| - 1];
      SumDy(fs[..|fs| - 1]) + if (f.MouseMove? || f.MouseDragMove?) && f.at.dy.Some? then f.at.dy.value else 0.0
  }

  /** The last of the given coordinates, if any frame has one. */
  function LastX(fs: seq<Input>): Option<real> {
    if fs == [] then None
    else
      var f := fs[|fs| - 1];
      if (f.MouseMove? || f.MouseDragMove?) && f.at.x.Some? then f.at.x else LastX(fs[..|fs| - 1])
  }

  function LastY(fs: seq<Input>): Option<real> {
    if fs == [] then None
    else
      var f := fs[|fs| - 1];
      if (f.MouseMove? || f.MouseDragMove?) && f.at.y.Some? then f.at.y else LastY(fs[..|fs| - 1])
  }

  /** The amounts scrolled horizontally, or in any other direction. */
  function SumAmounts(fs: seq<Input>, horizontal: bool): real {
    if fs == [] then 0.0
    else
      var f := fs[|fs| - 1];
      SumAmounts(fs[..|fs| - 1], horizontal) +
      if f.MouseScroll? && f.amount.Some? && (f.axis == Horizontal <==> horizontal) then f.amount.value else 0.0
  }

  /** The frames a group is sent as: a distinct frame as it is, moves as one frame with their sum,
      drags as one frame at their last position, scrolls as one frame per axis that does not
      cancel out, vertical first. */
  function Rendered(group: seq<Input>): seq<Input>
    requires group != []
  {
    match group[0]
    case Distinct(_, _) => [group[0]]
    case MouseMove(_) => [MouseMove(Coords(Some(SumDx(group)), Some(SumDy(group)), None, None))]
    case MouseDragMove(_) => [MouseDragMove(Coords(None, None, Some(OrZero(LastX(group))), Some(OrZero(LastY(group)))))]
    case MouseScroll(_, _) =>
      var v, h := SumAmounts(group, false), SumAmounts(group, true);
      (if v != 0.0 then [MouseScroll(Vertical, Some(v))] else []) +
      (if h != 0.0 then [MouseScroll(Horizontal, Some(h))] else [])
  }

  predicate NoneEmpty(groups: seq<seq<Input>>) { forall i :: 0 <= i < |groups| ==> groups[i] != [] }

  function RenderedAll(groups: seq<seq<Input>>): seq<Input>
    requires NoneEmpty(groups)
  {
    if groups == [] then [] else RenderedAll(groups[..|groups| - 1]) + Rendered(groups[|groups| - 1])
  }

  // ---------------------------------------------------------------- every run

  /** The group open at the end is what is pending, and nothing of it has been sent. */
  ghost predicate Tallies(s: Co, open: seq<Input>, ended: seq<seq<Input>>) {
    && !s.disposed && NoneEmpty(ended) && s.sent == RenderedAll(ended)
    && (open == [] ==> s.pending == None)
    && (open != [] ==>
          && !open[0].Distinct?
          && s.pending == Some(Batch(KindOf(open[0]), SumDx(open), SumDy(open), SumAmounts(open, true),
                                     SumAmounts(open, false), LastX(open), LastY(open))))
  }

  lemma RenderedPush(ended: seq<seq<Input>>, group: seq<Input>)
    requires NoneEmpty(ended) && group != []
    ensures NoneEmpty(ended + [group]) && RenderedAll(ended + [group]) == RenderedAll(ended) + Rendered(group)
  {
    assert (ended + [group])[..|ended|] == ended;
  }

  lemma AddTallies(open: seq<Input>, f: Input, b: Batch)
    requires !f.Distinct? && (open != [] ==> !open[0].Distinct? && SameKind(open[0], f))
    requires b == Batch(KindOf(f), SumDx(open), SumDy(open), SumAmounts(open, true), SumAmounts(open, false),
                        LastX(open), LastY(open))
    ensures var more := open + [f];
            Add(b, f) == Batch(KindOf(f), SumDx(more), SumDy(more), SumAmounts(more, true), SumAmounts(more, false),
                               LastX(more), LastY(more))
  {
    assert (open + [f])[..|open|] == open;
  }

  lemma FlushTallies(s: Co, open: seq<Input>, ended: seq<seq<Input>>)
    requires Tallies(s, open, ended)
    ensures Tallies(Flush(s), [], if open == [] then ended else ended + [open])
    ensures open != [] ==> Flush(s).sent == s.sent + Rendered(open)
  {
    hide SumDx, SumDy, SumAmounts, LastX, LastY;
    if open != [] { RenderedPush(ended, open); }
  }

  lemma {:induction false} RunTallies(ops: seq<Op>)
    ensures Tallies(Run(ops), Group(ops), Closed(ops))
  {
    hide SumDx, SumDy, SumAmounts, LastX, LastY, RenderedAll, Add, Flush;
    if ops == [] {
      assert RenderedAll([]) == [] by { NothingRendered(); }
    } else {
      var init := ops[..|ops| - 1];
      var s, open, ended := Run(init), Group(init), Closed(init);
      RunTallies(init);
      FlushTallies(s, open, ended);
      var ended' := if open == [] then ended else ended + [open];
      match ops[|ops| - 1]
      case FlushDue =>
      case SendFrame(f) =>
        if f.Distinct? {
          RenderedPush(ended', [f]);
        } else if open != [] && SameKind(open[0], f) {
          AddTallies(open, f, s.pending.value);
        } else {
          NothingAmounts();
          AddTallies([], f, Empty(KindOf(f)));
          assert [] + [f] == [f];
        }
    }
  }

  lemma NothingRendered()
    ensures RenderedAll([]) == []
  {
  }

  lemma NothingAmounts()
    ensures SumDx([]) == SumDy([]) == SumAmounts([], true) == SumAmounts([], false) == 0.0
    ensures LastX([]) == LastY([]) == None
  {
  }

  /** In every run, what has been sent is exactly what the ended groups amount to, in their order,
      and nothing of the open one; a flush, or dispose, then sends just what that amounts to. */
  lemma SentExactly(ops: seq<Op>)
    ensures NoneEmpty(Closed(ops)) && Run(ops).sent == RenderedAll(Closed(ops))
    ensures var flushed := RenderedAll(Closed(ops)) + if Group(ops) == [] then [] else Rendered(Group(ops));
            Run(ops + [FlushDue]).sent == flushed && Dispose(Run(ops)).sent == flushed
  {
    hide Run, Group, Closed, RenderedAll, Rendered;
    RunTallies(ops);
    FlushTallies(Run(ops), Group(ops), Closed(ops));
    FlushRuns(ops);
    assert RenderedAll(Closed(ops)) + [] == RenderedAll(Closed(ops));
  }

  lemma FlushRuns(ops: seq<Op>)
    ensures Run(ops + [FlushDue]) == Flush(Run(ops))
  {
    hide Flush;
    assert (ops + [FlushDue])[..|ops|] == ops;
  }

  // ---------------------------------------------------------------- how many frames

  predicate IsMove(f: Input) { f.MouseMove? || f.MouseDragMove? }

  function MovesIn(fs: seq<Input>): nat {
    if fs == [] then 0 else MovesIn(fs[..|fs| - 1]) + if IsMove(fs[|fs| - 1]) then 1 else 0
  }

  function MoveGroups(groups: seq<seq<Input>>): nat
    requires NoneEmpty(groups)
  {
    if groups == [] then 0
    else MoveGroups(groups[..|groups| - 1]) + if IsMove(groups[|groups| - 1][0]) then 1 else 0
  }

  lemma {:induction false} MovesConcat(a: seq<Input>, b: seq<Input>)
    ensures MovesIn(a + b) == MovesIn(a) + MovesIn(b)
  {
    if b == [] {
      assert a + b == a;
    } else {
      assert (a + b)[..|a + b| - 1] == a + b[..|b| - 1];
      MovesConcat(a, b[..|b| - 1]);
    }
  }

  lemma GroupSize(group: seq<Input>)
    requires group != []
    ensures !group[0].MouseScroll? ==> |Rendered(group)| == 1
    ensures group[0].MouseScroll? ==> |Rendered(group)| <= 2
    ensures MovesIn(Rendered(group)) == if IsMove(group[0]) then 1 else 0
  {
    hide MovesIn, SumDx, SumDy, SumAmounts, LastX, LastY;
    var r := Rendered(group);
    if |r| == 1 {
      assert r == [r[0]];
      MovesOfOne(r[0]);
    } else if |r| == 2 {
      assert r == [r[0]] + [r[1]];
      MovesConcat([r[0]], [r[1]]);
      MovesOfOne(r[0]);
      MovesOfOne(r[1]);
    } else {
      assert MovesIn([]) == 0 by { NoMoves(); }
    }
  }

  lemma NoMoves()
    ensures MovesIn([]) == 0
  {
  }

  lemma MovesOfOne(f: Input)
    ensures MovesIn([f]) == if IsMove(f) then 1 else 0
  {
    assert [f][..0] == [];
  }

  lemma {:induction false} GroupMoves(groups: seq<seq<Input>>)
    requires NoneEmpty(groups)
    ensures MovesIn(RenderedAll(groups)) == MoveGroups(groups)
  {
    hide Rendered;
    if groups != [] {
      var n := |groups| - 1;
      GroupMoves(groups[..n]);
      MovesConcat(RenderedAll(groups[..n]), Rendered(groups[n]));
      GroupSize(groups[n]);
    }
  }

  /** In every run exactly one move or drag frame has been sent for each ended group of them, however
      many frames it had. */
  lemma OneFramePerGroup(ops: seq<Op>)
    ensures NoneEmpty(Closed(ops)) && MovesIn(Run(ops).sent) == MoveGroups(Closed(ops))
  {
    SentExactly(ops);
    GroupMoves(Closed(ops));
  }

  // ---------------------------------------------------------------- after dispose

  /** A coalescer that goes on being used from state s. */
  function Onward(s: Co, ops: seq<Op>): Co {
    if ops == [] then s
    else
      var before := Onward(s, ops[..|ops| - 1]);
      match ops[|ops| - 1] case SendFrame(f) => Send(before, f) case FlushDue => Flush(before)
  }

  /** Whatever is offered or flushed after dispose, nothing more is ever sent. */
  lemma {:induction false} DisposeIsFinal(ops: seq<Op>, later: seq<Op>)
    ensures Onward(Dispose(Run(ops)), later) == Dispose(Run(ops))
  {
    hide Run;
    if later != [] { DisposeIsFinal(ops, later[..|later| - 1]); }
  }
}
