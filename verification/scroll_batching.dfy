/** Where batching on the sender and clamping on the receiver meet: the scroll amounts that
    get through (FrameCoalescer.ts together with MouseController.ts). */
module ScrollBatching {
  import opened Common
  import C = Coalescer
  import M = Mouse

  function Sum(amounts: seq<real>): real {
    if amounts == [] then 0.0 else Sum(amounts[..|amounts| - 1]) + amounts[|amounts| - 1]
  }

  function SumOfClamped(amounts: seq<real>): real {
    if amounts == [] then 0.0 else SumOfClamped(amounts[..|amounts| - 1]) + M.Clamp15(amounts[|amounts| - 1])
  }

  /** The sender offers vertical scrolls one after another, with no flush in between. */
  function Offers(amounts: seq<real>): seq<C.Op> {
    seq(|amounts|, i requires 0 <= i < |amounts| => C.SendFrame(C.MouseScroll(C.Vertical, Some(amounts[i]))))
  }

  /** The vertical amount a controller passes to its provider for these frames. */
  function Scrolled(frames: seq<C.Input>): real {
    if frames == [] then 0.0
    else
      var f := frames[|frames| - 1];
      Scrolled(frames[..|frames| - 1]) +
      if f.MouseScroll? && f.axis == C.Vertical && f.amount.Some? then Told(f.amount.value) else 0.0
  }

  /** What one scroll request adds to the provider's calls. */
  function Told(amount: real): real {
    var calls := M.Step(M.IDLE, M.Turn(M.Scroll(M.Vertical, amount), 0.0, [], 0), 8.0).0.calls;
    if calls == [] || !calls[0].call.Scrolled? then 0.0 else calls[0].call.amount
  }

  lemma {:induction false} BatchHolds(amounts: seq<real>)
    ensures var s := C.Run(Offers(amounts));
            && !s.disposed && s.sent == []
            && s.pending == if amounts == [] then None
                            else Some(C.Batch(C.Scroll, 0.0, 0.0, 0.0, Sum(amounts), None, None))
  {
    if amounts != [] {
      var n := |amounts| - 1;
      BatchHolds(amounts[..n]);
      assert Offers(amounts)[..n] == Offers(amounts[..n]);
    }
  }

  lemma {:induction false} RawScrolls(amounts: seq<real>)
    ensures Scrolled(C.Raw(Offers(amounts))) == SumOfClamped(amounts)
  {
    if amounts != [] {
      var n := |amounts| - 1;
      RawScrolls(amounts[..n]);
      assert Offers(amounts)[..n] == Offers(amounts[..n]);
      var raw := C.Raw(Offers(amounts));
      assert raw[..|raw| - 1] == C.Raw(Offers(amounts[..n]));
    }
  }

  /** What a dispose sends of the batch: one frame, or none for a zero sum. */
  lemma BatchSends(amounts: seq<real>)
    ensures C.Dispose(C.Run(Offers(amounts))).sent ==
            if Sum(amounts) == 0.0 then [] else [C.MouseScroll(C.Vertical, Some(Sum(amounts)))]
  {
    hide C.Run, Offers, Sum;
    BatchHolds(amounts);
    if amounts == [] {
      assert Sum(amounts) == 0.0 by { NothingScrolled(); }
    }
  }

  lemma NothingScrolled()
    ensures Sum([]) == 0.0 && Scrolled([]) == 0.0
  {
  }

  lemma OneScrolled(amount: real)
    ensures Scrolled([C.MouseScroll(C.Vertical, Some(amount))]) == Told(amount) == M.Clamp15(amount)
  {
    hide C.Run;
    assert [C.MouseScroll(C.Vertical, Some(amount))][..0] == [];
    ToldIsClamped(amount);
  }

  lemma ToldIsClamped(amount: real)
    ensures Told(amount) == M.Clamp15(amount)
  {
  }

  lemma BatchScrolls(amounts: seq<real>)
    ensures Scrolled(C.Dispose(C.Run(Offers(amounts))).sent) == M.Clamp15(Sum(amounts))
  {
    hide C.Run, C.Dispose, Offers, Sum, Scrolled, Told;
    BatchSends(amounts);
    NothingScrolled();
    OneScrolled(Sum(amounts));
  }

  predicate AtMostOneNonzero(amounts: seq<real>) {
    forall j, k :: 0 <= j < k < |amounts| ==> amounts[j] == 0.0 || amounts[k] == 0.0
  }

  lemma {:induction false} ClampedSums(amounts: seq<real>)
    requires forall k :: 0 <= k < |amounts| ==> amounts[k] >= 0.0
    ensures 0.0 <= SumOfClamped(amounts) <= Sum(amounts)
    ensures SumOfClamped(amounts) == Sum(amounts) || SumOfClamped(amounts) >= 15.0
    ensures Sum(amounts) == 0.0 <==> forall k :: 0 <= k < |amounts| ==> amounts[k] == 0.0
    ensures AtMostOneNonzero(amounts) ==> SumOfClamped(amounts) <= 15.0
    ensures SumOfClamped(amounts) <= 15.0 && Sum(amounts) > 15.0 ==> AtMostOneNonzero(amounts)
  {
    if amounts != [] {
      var n := |amounts| - 1;
      var before, a := amounts[..n], amounts[n];
      ClampedSums(before);
      assert AtMostOneNonzero(amounts) <==> AtMostOneNonzero(before) && (a == 0.0 || Sum(before) == 0.0) by {
        assert forall k :: 0 <= k < n ==> before[k] == amounts[k];
      }
      assert SumOfClamped(before) == 0.0 <==> Sum(before) == 0.0;
    }
  }

  function Negated(amounts: seq<real>): (n: seq<real>)
    ensures |n| == |amounts| && forall k :: 0 <= k < |n| ==> n[k] == -amounts[k]
  {
    seq(|amounts|, i requires 0 <= i < |amounts| => -amounts[i])
  }

  lemma {:induction false} NegatedSums(amounts: seq<real>)
    ensures Sum(Negated(amounts)) == -Sum(amounts)
    ensures SumOfClamped(Negated(amounts)) == -SumOfClamped(amounts)
  {
    if amounts != [] {
      var n := |amounts| - 1;
      NegatedSums(amounts[..n]);
      assert Negated(amounts)[..n] == Negated(amounts[..n]);
    }
  }

  function Size(v: real): real { if v < 0.0 then -v else v }

  /** What an amount exceeds the clamp by, in its own direction. */
  function Excess(amount: real): real { amount - M.Clamp15(amount) }

  function SumOfExcesses(amounts: seq<real>): real {
    if amounts == [] then 0.0 else SumOfExcesses(amounts[..|amounts| - 1]) + Excess(amounts[|amounts| - 1])
  }

  lemma {:induction false} ClampedPlusExcess(amounts: seq<real>)
    ensures Sum(amounts) == SumOfClamped(amounts) + SumOfExcesses(amounts)
    ensures (forall k :: 0 <= k < |amounts| ==> Size(amounts[k]) <= 15.0) ==> SumOfExcesses(amounts) == 0.0
  {
    if amounts != [] { ClampedPlusExcess(amounts[..|amounts| - 1]); }
  }

  predicate OneDirection(amounts: seq<real>) {
    (forall k :: 0 <= k < |amounts| ==> amounts[k] >= 0.0) || (forall k :: 0 <= k < |amounts| ==> amounts[k] <= 0.0)
  }

  lemma OneDirectionSums(amounts: seq<real>)
    requires OneDirection(amounts)
    ensures Size(M.Clamp15(Sum(amounts))) <= Size(SumOfClamped(amounts))
    ensures M.Clamp15(Sum(amounts)) == SumOfClamped(amounts) <==>
            Size(Sum(amounts)) <= 15.0 || AtMostOneNonzero(amounts)
  {
    hide Sum, SumOfClamped;
    if forall k :: 0 <= k < |amounts| ==> amounts[k] >= 0.0 {
      ClampedSums(amounts);
    } else {
      NegatedSums(amounts);
      ClampedSums(Negated(amounts));
      assert AtMostOneNonzero(Negated(amounts)) <==> AtMostOneNonzero(amounts);
    }
  }

  /** The receiver's clamp meets the sum of a batch instead of each part. The same distance gets
      through if and only if the sum exceeds the clamp by as much as its parts do together: for
      parts within the clamp, when the sum is too; for scrolls of one direction, which never
      gain by batching, when the sum is within it or at most one amount is not zero. */
  lemma BatchedScrollExactly(amounts: seq<real>)
    ensures var batched, raw := C.Dispose(C.Run(Offers(amounts))).sent, C.Raw(Offers(amounts));
            var same := Scrolled(batched) == Scrolled(raw);
            && (same <==> Excess(Sum(amounts)) == SumOfExcesses(amounts))
            && ((forall k :: 0 <= k < |amounts| ==> Size(amounts[k]) <= 15.0) ==>
                (same <==> Size(Sum(amounts)) <= 15.0))
            && (OneDirection(amounts) ==>
                && Size(Scrolled(batched)) <= Size(Scrolled(raw))
                && (same <==> Size(Sum(amounts)) <= 15.0 || AtMostOneNonzero(amounts)))
  {
    hide C.Run, C.Dispose, C.Raw, Offers, Sum, SumOfClamped, SumOfExcesses, Scrolled, AtMostOneNonzero;
    BatchScrolls(amounts);
    RawScrolls(amounts);
    ClampedPlusExcess(amounts);
    if OneDirection(amounts) { OneDirectionSums(amounts); }
  }
}
