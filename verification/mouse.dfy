/** MouseController: the drag state machine, the move throttle, the mapping to screen units and
    the scroll clamp (packages/input-provider/src/controllers/MouseController.ts). */
module Mouse {
  import opened Common

  const SCROLL_CLAMP := 15.0

  datatype Button = Left | Right | Middle | UnknownButton

  datatype Axis = Vertical | Horizontal

  datatype Geometry = Geometry(x: int, y: int, width: nat, height: nat)

  datatype Display = Display(displayIndex: int, geometry: Geometry, primary: bool)

  datatype Target = Target(display: Display, virtualX: int, virtualY: int)

  /** One call on the controller; positions are fractions of a display. */
  datatype Request =
    | MoveAbsolute(x: real, y: real, displayIndex: Option<int>)
    | MoveRelative(dx: real, dy: real)
    | Click(button: Button, action: string)
    | Scroll(axis: Axis, amount: real)
    | DragStart(button: Button)
    | DragMove(x: real, y: real, displayIndex: Option<int>)
    | DragEnd(button: Button)

  /** What a call reads from its surroundings: the clock and the display layout. */
  datatype Turn = Turn(request: Request, now: Millis, displays: seq<Display>, current: int)

  /** The provider's methods, in screen units. */
  datatype Call =
    | MovedTo(x: int, y: int, displayIndex: int)
    | MovedBy(dx: int, dy: int)
    | Clicked(button: Button, action: string)
    | Scrolled(axis: Axis, amount: real)
    | DragStarted(button: Button)
    | DraggedTo(x: int, y: int, displayIndex: int)
    | DragEnded(button: Button)

  datatype Entry = Entry(at: Millis, call: Call)

  datatype Outcome = Ok | InvalidButton | NoDisplays | DragNotStarted | DragAlreadyStarted

  /** `lastMoveAt` is None for the initial -Infinity; `calls` is what the provider was told. */
  datatype Control = Control(dragActive: bool, lastMoveAt: Option<Millis>, calls: seq<Entry>)

  const IDLE := Control(false, None, [])

  // ---------------------------------------------------------------- the controller's steps

  /** `Math.round`: to the nearest integer, halves up. */
  function Round(v: real): int { (v + 0.5).Floor }

  function Clamp01(v: real): real { if v < 0.0 then 0.0 else if v > 1.0 then 1.0 else v }

  function Find(displays: seq<Display>, displayIndex: int): Option<Display> {
    if displays == [] then None
    else if displays[0].displayIndex == displayIndex then Some(displays[0])
    else Find(displays[1..], displayIndex)
  }

  function FindPrimary(displays: seq<Display>): Option<Display> {
    if displays == [] then None
    else if displays[0].primary then Some(displays[0])
    else FindPrimary(displays[1..])
  }

  function Pick(displays: seq<Display>, wanted: Option<int>, current: int): Display
    requires displays != []
  {
    if wanted.Some? && Find(displays, wanted.value).Some? then Find(displays, wanted.value).value
    else if Find(displays, current).Some? then Find(displays, current).value
    else if FindPrimary(displays).Some? then FindPrimary(displays).value
    else displays[0]
  }

  /** Rounds a fraction of [origin, origin + extent] to a screen unit. */
  function Project(origin: int, extent: nat, fraction: real): int {
    Round(origin as real + Clamp01(fraction) * extent as real)
  }

  function Tell(s: Control, now: Millis, call: Call): Control { s.(calls := s.calls + [Entry(now, call)]) }

  predicate Accepts(s: Control, throttle: Millis, now: Millis) {
    s.lastMoveAt.Some? ==> now - s.lastMoveAt.value >= throttle
  }

  /** An absolute move or drag move, once past its guards: the slot is used up even when the
      layout turns out to be empty. */
  function MoveOn(s: Control, t: Turn, throttle: Millis): (Control, Outcome)
    requires t.request.MoveAbsolute? || t.request.DragMove?
  {
    if !Accepts(s, throttle, t.now) then (s, Ok)
    else
      var s1 := s.(lastMoveAt := Some(t.now));
      if t.displays == [] then (s1, NoDisplays)
      else
        var d := Pick(t.displays, t.request.displayIndex, t.current);
        var x := Project(d.geometry.x, d.geometry.width, t.request.x);
        var y := Project(d.geometry.y, d.geometry.height, t.request.y);
        var call := if t.request.DragMove? then DraggedTo(x, y, d.displayIndex) else MovedTo(x, y, d.displayIndex);
        (Tell(s1, t.now, call), Ok)
  }

  function Clamp15(amount: real): real {
    if amount > SCROLL_CLAMP then SCROLL_CLAMP else if amount < -SCROLL_CLAMP then -SCROLL_CLAMP else amount
  }

  predicate CanDrag(b: Button) { b == Left || b == Middle }

  function Step(s: Control, t: Turn, throttle: Millis): (Control, Outcome) {
    match t.request
    case MoveAbsolute(_, _, _) => MoveOn(s, t, throttle)
    case MoveRelative(dx, dy) =>
      if !Accepts(s, throttle, t.now) then (s, Ok)
      else (Tell(s.(lastMoveAt := Some(t.now)), t.now, MovedBy(Round(dx), Round(dy))), Ok)
    case Click(button, action) =>
      if button == UnknownButton then (s, InvalidButton) else (Tell(s, t.now, Clicked(button, action)), Ok)
    case Scroll(axis, amount) =>
      if Clamp15(amount) == 0.0 then (s, Ok) else (Tell(s, t.now, Scrolled(axis, Clamp15(amount))), Ok)
    case DragStart(button) =>
      if !CanDrag(button) then (s, InvalidButton)
      else if s.dragActive then (s, DragAlreadyStarted)
      else (Tell(s.(dragActive := true), t.now, DragStarted(button)), Ok)
    case DragMove(_, _, _) => if !s.dragActive then (s, DragNotStarted) else MoveOn(s, t, throttle)
    case DragEnd(button) =>
      if !CanDrag(button) then (s, InvalidButton)
      else if !s.dragActive then (s, DragNotStarted)
      else (Tell(s.(dragActive := false), t.now, DragEnded(button)), Ok)
  }

  function Run(ts: seq<Turn>, throttle: Millis): Control {
    if ts == [] then IDLE else Step(Run(ts[..|ts| - 1], throttle), ts[|ts| - 1], throttle).0
  }

  // ---------------------------------------------------------------- drags

  /** The calls form (start move* end)*, the last group unfinished exactly when `open`;
      every other call may occur anywhere. */
  predicate DragGrammar(calls: seq<Entry>, open: bool) {
    if calls == [] then !open
    else
      var before := calls[..|calls| - 1];
      match calls[|calls| - 1].call
      case DragStarted(b) => open && DragGrammar(before, false) && CanDrag(b)
      case DraggedTo(_, _, _) => open && DragGrammar(before, true)
      case DragEnded(b) => !open && DragGrammar(before, true) && CanDrag(b)
      case MovedTo(_, _, _) => DragGrammar(before, open)
      case MovedBy(_, _) => DragGrammar(before, open)
      case Clicked(_, _) => DragGrammar(before, open)
      case Scrolled(_, _) => DragGrammar(before, open)
  }

  lemma AppendedCall(calls: seq<Entry>, e: Entry, open: bool)
    ensures DragGrammar(calls + [e], open) <==>
            match e.call
            case DragStarted(b) => open && DragGrammar(calls, false) && CanDrag(b)
            case DraggedTo(_, _, _) => open && DragGrammar(calls, true)
            case DragEnded(b) => !open && DragGrammar(calls, true) && CanDrag(b)
            case MovedTo(_, _, _) => DragGrammar(calls, open)
            case MovedBy(_, _) => DragGrammar(calls, open)
            case Clicked(_, _) => DragGrammar(calls, open)
            case Scrolled(_, _) => DragGrammar(calls, open)
  {
    assert (calls + [e])[..|calls|] == calls;
  }

  /** Each request makes at most one call, of its own kind. */
  lemma CallsOf(s: Control, t: Turn, throttle: Millis) returns (told: Option<Call>)
    ensures var s' := Step(s, t, throttle).0;
            && s'.calls == (if told.Some? then s.calls + [Entry(t.now, told.value)] else s.calls)
            && (told.Some? && IsMove(told.value) ==> Accepts(s, throttle, t.now) && s'.lastMoveAt == Some(t.now))
            && (told.None? || !IsMove(told.value) ==>
                || s'.lastMoveAt == s.lastMoveAt
                || (Accepts(s, throttle, t.now) && s'.lastMoveAt == Some(t.now)))
            && (if told.Some? && told.value.DragStarted? then
                  !s.dragActive && s'.dragActive && CanDrag(told.value.button)
                else if told.Some? && told.value.DragEnded? then
                  s.dragActive && !s'.dragActive && CanDrag(told.value.button)
                else s'.dragActive == s.dragActive && (told.Some? && told.value.DraggedTo? ==> s.dragActive))
  {
    hide Pick, Project, Clamp15, Round;
    var s' := Step(s, t, throttle).0;
    told := if |s'.calls| > |s.calls| then Some(s'.calls[|s.calls|].call) else None;
  }

  predicate IsMove(c: Call) { c.MovedTo? || c.MovedBy? || c.DraggedTo? }

  /** Whatever is called, in whatever order, the provider sees well-bracketed drags, and
      `isDragActive` says exactly whether one is open. */
  lemma {:induction false} DragsAreBracketed(ts: seq<Turn>, throttle: Millis, open: bool)
    ensures DragGrammar(Run(ts, throttle).calls, open) <==> Run(ts, throttle).dragActive == open
  {
    hide Step, DragGrammar;
    if ts == [] {
      assert DragGrammar([], open) <==> !open by { NoCalls(open); }
    } else {
      var before, t := ts[..|ts| - 1], ts[|ts| - 1];
      DragsAreBracketed(before, throttle, open);
      DragsAreBracketed(before, throttle, !open);
      var told := CallsOf(Run(before, throttle), t, throttle);
      if told.Some? { AppendedCall(Run(before, throttle).calls, Entry(t.now, told.value), open); }
    }
  }

  lemma NoCalls(open: bool)
    ensures DragGrammar([], open) <==> !open
  {
  }

  // ---------------------------------------------------------------- the throttle

  /** When the moves of any kind reached the provider. */
  function Moves(calls: seq<Entry>): seq<Millis> {
    if calls == [] then []
    else
      var e := calls[|calls| - 1];
      Moves(calls[..|calls| - 1]) + if IsMove(e.call) then [e.at] else []
  }

  predicate Spaced(times: seq<Millis>, throttle: Millis) {
    forall k :: 0 < k < |times| ==> times[k] - times[k - 1] >= throttle
  }

  lemma {:induction false} MovesAreSpaced(ts: seq<Turn>, throttle: Millis)
    requires throttle > 0.0
    ensures var s := Run(ts, throttle);
            && Spaced(Moves(s.calls), throttle)
            && (Moves(s.calls) != [] ==>
                s.lastMoveAt.Some? && Moves(s.calls)[|Moves(s.calls)| - 1] <= s.lastMoveAt.value)
  {
    hide Step;
    if ts != [] {
      var before, t := ts[..|ts| - 1], ts[|ts| - 1];
      MovesAreSpaced(before, throttle);
      var s := Run(before, throttle);
      var told := CallsOf(s, t, throttle);
      if told.Some? {
        assert (s.calls + [Entry(t.now, told.value)])[..|s.calls|] == s.calls;
      }
    }
  }

  /** How many of `times` lie in [from, from + length]. */
  function InWindow(times: seq<Millis>, from: Millis, length: Millis): nat {
    if times == [] then 0
    else
      var t := times[|times| - 1];
      InWindow(times[..|times| - 1], from, length) + if from <= t <= from + length then 1 else 0
  }

  /** What `n` moves take, one throttle period apart. */
  function Span(n: nat, throttle: Millis): Millis { (n as real - 1.0) * throttle }

  lemma SpanGrows(n: nat, throttle: Millis)
    ensures Span(n + 1, throttle) == Span(n, throttle) + throttle
    ensures Span(1, throttle) == 0.0
  {
  }

  lemma {:induction false} WindowSpan(times: seq<Millis>, throttle: Millis, from: Millis, length: Millis)
    requires throttle > 0.0 && length >= 0.0 && Spaced(times, throttle)
    ensures var n := InWindow(times, from, length);
            n > 0 ==>
            Span(n, throttle) <= length && Span(n, throttle) <= times[|times| - 1] - from
  {
    hide Span;
    if times != [] {
      var before, t := times[..|times| - 1], times[|times| - 1];
      WindowSpan(before, throttle, from, length);
      var n := InWindow(before, from, length);
      SpanGrows(n, throttle);
    }
  }

  /** Any window of the given length holds at most floor(length / throttle) + 1 forwarded
      moves, absolute, relative and drag together, even if the clock runs backwards. */
  lemma ThrottleHolds(ts: seq<Turn>, throttle: Millis, from: Millis, length: Millis)
    requires throttle > 0.0 && length >= 0.0
    ensures InWindow(Moves(Run(ts, throttle).calls), from, length) <= (length / throttle).Floor + 1
  {
    hide Step, Run, Moves;
    var times := Moves(Run(ts, throttle).calls);
    MovesAreSpaced(ts, throttle);
    WindowSpan(times, throttle, from, length);
    var n := InWindow(times, from, length);
    if n > 0 {
      QuotientAtLeast(n - 1, length, throttle);
    }
  }

  lemma Nonnegative(a: real, b: real)
    requires b > 0.0 && a * b >= 0.0
    ensures a >= 0.0
  {
  }

  lemma QuotientAtLeast(n: nat, length: Millis, throttle: Millis)
    requires throttle > 0.0 && n as real * throttle <= length
    ensures n <= (length / throttle).Floor
  {
    var q := length / throttle;
    assert q * throttle == length;
    assert (q - n as real) * throttle >= 0.0;
    assert q >= n as real by { Nonnegative(q - n as real, throttle); }
  }

  predicate IsMoveRequest(r: Request) { r.MoveAbsolute? || r.MoveRelative? || r.DragMove? }

  /** The drag, if it is one, is open, and the last slot is at least one throttle period old. */
  predicate TakesSlot(s: Control, t: Turn, throttle: Millis) {
    (t.request.DragMove? ==> s.dragActive) && Accepts(s, throttle, t.now)
  }

  /** A move of any kind, absolute, relative or drag, reaches the provider exactly when it takes a
      slot and, unless it is relative, a display is connected; without a slot it changes nothing,
      and with one, forwarded or not, it closes the throttle. */
  lemma MoveExactly(ts: seq<Turn>, t: Turn, throttle: Millis)
    requires IsMoveRequest(t.request)
    ensures var s, s' := Run(ts, throttle), Run(ts + [t], throttle);
            var forwarded := TakesSlot(s, t, throttle) && (t.request.MoveRelative? || t.displays != []);
            && Moves(s'.calls) == Moves(s.calls) + (if forwarded then [t.now] else [])
            && (forwarded <==> s'.calls != s.calls)
            && (if TakesSlot(s, t, throttle) then s'.lastMoveAt == Some(t.now) else s' == s)
  {
    hide Pick, Project, Round;
    assert (ts + [t])[..|ts|] == ts;
    var s, s' := Run(ts, throttle), Run(ts + [t], throttle);
    assert s'.calls != s.calls ==> s'.calls[..|s'.calls| - 1] == s.calls;
  }

  /** The controller's header says the latest sample of a burst is always honoured; it is the
      first that is. Here the second of two moves, after which nothing more comes, is lost. */
  lemma LatestSampleCanBeLost()
    ensures var ts := [Turn(MoveRelative(1.0, 0.0), 0.0, [], 0), Turn(MoveRelative(2.0, 0.0), 7.0, [], 0)];
            Run(ts, 8.0).calls == [Entry(0.0, MovedBy(1, 0))]
  {
    var first, second := Turn(MoveRelative(1.0, 0.0), 0.0, [], 0), Turn(MoveRelative(2.0, 0.0), 7.0, [], 0);
    assert [first, second][..1] == [first] && [first][..0] == [];
    assert Run([first], 8.0) == Step(IDLE, first, 8.0).0;
  }

  // ---------------------------------------------------------------- screen units

  lemma Product(a: real, b: real)
    requires a >= 0.0 && b >= 0.0
    ensures a * b >= 0.0
  {
  }

  /** A projected coordinate never leaves [origin, origin + extent]; it is one of the display's
      own `extent` units exactly when the point is not within half a unit of the far edge. */
  lemma ProjectionRange(origin: int, extent: nat, fraction: real)
    ensures origin <= Project(origin, extent, fraction) <= origin + extent
    ensures Project(origin, extent, fraction) < origin + extent <==>
            Clamp01(fraction) * extent as real < extent as real - 0.5
  {
    var c, e := Clamp01(fraction), extent as real;
    Product(c, e);
    Product(1.0 - c, e);
    assert (1.0 - c) * e == e - c * e;
  }

  /** A larger fraction never lands further left. */
  lemma ProjectionMonotone(origin: int, extent: nat, low: real, high: real)
    requires low <= high
    ensures Project(origin, extent, low) <= Project(origin, extent, high)
  {
    var e := extent as real;
    Product(Clamp01(high) - Clamp01(low), e);
    assert (Clamp01(high) - Clamp01(low)) * e == Clamp01(high) * e - Clamp01(low) * e;
  }

  lemma {:induction false} FindFirst(displays: seq<Display>, index: int)
    ensures Find(displays, index).None? <==> forall d :: d in displays ==> d.displayIndex != index
    ensures var f := Find(displays, index);
            f.Some? ==> f.value in displays && f.value.displayIndex == index
  {
    if displays != [] {
      FindFirst(displays[1..], index);
      assert displays == [displays[0]] + displays[1..];
    }
  }

  lemma {:induction false} FindPrimaryFirst(displays: seq<Display>)
    ensures FindPrimary(displays).None? <==> forall d :: d in displays ==> !d.primary
    ensures var f := FindPrimary(displays); f.Some? ==> f.value in displays && f.value.primary
  {
    if displays != [] {
      FindPrimaryFirst(displays[1..]);
      assert displays == [displays[0]] + displays[1..];
    }
  }

  predicate Lists(displays: seq<Display>, index: int) { exists d :: d in displays && d.displayIndex == index }

  /** The display a position refers to: the wanted one if it is connected, otherwise the one
      under the cursor, otherwise a primary one, and always a connected one. */
  lemma PicksConnectedDisplay(displays: seq<Display>, wanted: Option<int>, current: int)
    requires displays != []
    ensures Chosen(displays, wanted, current, Pick(displays, wanted, current))
  {
    if wanted.Some? { FindFirst(displays, wanted.value); }
    FindFirst(displays, current);
    FindPrimaryFirst(displays);
  }

  /** The display that a position on a nonempty layout refers to. */
  ghost predicate Chosen(displays: seq<Display>, wanted: Option<int>, current: int, d: Display) {
    && d in displays
    && (if wanted.Some? && Lists(displays, wanted.value) then d.displayIndex == wanted.value
        else if Lists(displays, current) then d.displayIndex == current
        else d.primary || (d == displays[0] && forall e :: e in displays ==> !e.primary))
  }

  /** The integer nearest to v, the upper one of two. */
  predicate Nearest(x: int, v: real) { v - 0.5 < x as real <= v + 0.5 }

  /** `c` is v limited to [0, 1]. */
  predicate Limited(v: real, c: real) {
    0.0 <= c <= 1.0 && (0.0 <= v <= 1.0 ==> c == v) && (v < 0.0 ==> c == 0.0) && (v > 1.0 ==> c == 1.0)
  }

  /** x is the screen unit nearest to the fraction `v` of [origin, origin + extent]. */
  ghost predicate Lands(origin: int, extent: nat, v: real, x: int) {
    && origin <= x <= origin + extent
    && exists c :: Limited(v, c) && Nearest(x, origin as real + c * extent as real)
  }

  lemma ProjectLands(origin: int, extent: nat, v: real)
    ensures Lands(origin, extent, v, Project(origin, extent, v))
  {
    ProjectionRange(origin, extent, v);
    assert Limited(v, Clamp01(v));
    assert Nearest(Project(origin, extent, v), origin as real + Clamp01(v) * extent as real);
  }

  /** Every absolute position the provider is given is that of the request: the unit nearest to the
      requested point, on or one unit past the display the request refers to, which was connected
      at the time. */
  lemma MovesStayOnDisplays(s: Control, t: Turn, throttle: Millis)
    requires t.request.MoveAbsolute? || t.request.DragMove?
    ensures var s' := Step(s, t, throttle).0;
            s'.calls == s.calls ||
            exists d, x, y ::
              && Chosen(t.displays, t.request.displayIndex, t.current, d)
              && Lands(d.geometry.x, d.geometry.width, t.request.x, x)
              && Lands(d.geometry.y, d.geometry.height, t.request.y, y)
              && s'.calls == s.calls + [Entry(t.now, if t.request.DragMove? then DraggedTo(x, y, d.displayIndex)
                                                     else MovedTo(x, y, d.displayIndex))]
  {
    hide Lands, Pick, Project, Chosen;
    if t.displays != [] {
      var d := Pick(t.displays, t.request.displayIndex, t.current);
      PicksConnectedDisplay(t.displays, t.request.displayIndex, t.current);
      ProjectLands(d.geometry.x, d.geometry.width, t.request.x);
      ProjectLands(d.geometry.y, d.geometry.height, t.request.y);
    }
  }

  // ---------------------------------------------------------------- what each request does

  /** A relative move with a free slot tells the provider one move, by the integers nearest to both
      of its deltas. */
  lemma RelativeEffects(s: Control, t: Turn, throttle: Millis) returns (x: int, y: int)
    requires t.request.MoveRelative?
    ensures Nearest(x, t.request.dx) && Nearest(y, t.request.dy)
    ensures Step(s, t, throttle) ==
            (if TakesSlot(s, t, throttle) then
               Control(s.dragActive, Some(t.now), s.calls + [Entry(t.now, MovedBy(x, y))])
             else s, Ok)
  {
    x, y := Round(t.request.dx), Round(t.request.dy);
  }

  /** How a move to a position ends: a drag move without a drag is an error; one without a slot is
      dropped; without a display it is an error that has taken the slot. */
  lemma PositionEffects(s: Control, t: Turn, throttle: Millis)
    requires t.request.MoveAbsolute? || t.request.DragMove?
    ensures var (s', outcome) := Step(s, t, throttle);
            if t.request.DragMove? && !s.dragActive then s' == s && outcome == DragNotStarted
            else if !TakesSlot(s, t, throttle) then s' == s && outcome == Ok
            else if t.displays == [] then s' == s.(lastMoveAt := Some(t.now)) && outcome == NoDisplays
            else
              && outcome == Ok && |s'.calls| == |s.calls| + 1
              && s' == Control(s.dragActive, Some(t.now), s'.calls)
  {
    hide Pick, Project;
  }

  /** A click with one of the three buttons is passed on as it is; any other is an error. */
  lemma ClickEffects(s: Control, t: Turn, throttle: Millis)
    requires t.request.Click?
    ensures Step(s, t, throttle) ==
            if t.request.button == UnknownButton then (s, InvalidButton)
            else (s.(calls := s.calls + [Entry(t.now, Clicked(t.request.button, t.request.action))]), Ok)
  {
  }

  /** A scroll is passed on along its own axis and in its own direction, by at most 15 lines; a
      scroll of nothing is not. */
  lemma ScrollEffects(s: Control, t: Turn, throttle: Millis) returns (amount: real)
    requires t.request.Scroll?
    ensures var a := t.request.amount;
            && -15.0 <= amount <= 15.0
            && (-15.0 <= a <= 15.0 ==> amount == a) && (a > 15.0 ==> amount == 15.0) && (a < -15.0 ==> amount == -15.0)
            && Step(s, t, throttle) ==
               (if a == 0.0 then s
                else s.(calls := s.calls + [Entry(t.now, Scrolled(t.request.axis, amount))]), Ok)
  {
    amount := Clamp15(t.request.amount);
  }

  /** A drag starts with the left or middle button and only while none is open, and ends likewise
      only while one is; everything else is an error that changes nothing. */
  lemma DragEffects(s: Control, t: Turn, throttle: Millis)
    requires t.request.DragStart? || t.request.DragEnd?
    ensures var b, starts := t.request.button, t.request.DragStart?;
            var call := if starts then DragStarted(b) else DragEnded(b);
            Step(s, t, throttle) ==
            if b != Left && b != Middle then (s, InvalidButton)
            else if starts && s.dragActive then (s, DragAlreadyStarted)
            else if !starts && !s.dragActive then (s, DragNotStarted)
            else (Control(starts, s.lastMoveAt, s.calls + [Entry(t.now, call)]), Ok)
  {
  }

  /** Without a display the move fails, and still the next one is throttled as if it had been made. */
  lemma FailedMoveUsesSlot(s: Control, t: Turn, next: Turn, throttle: Millis)
    requires t.request.MoveAbsolute? && t.displays == [] && Accepts(s, throttle, t.now)
    requires next.request.MoveRelative? && next.now - t.now < throttle
    ensures Step(s, t, throttle).1 == NoDisplays
    ensures Step(Step(s, t, throttle).0, next, throttle).0.calls == s.calls
  {
  }

  // ---------------------------------------------------------------- the object

  class MouseController {
    var dragActive: bool
    var lastMoveAt: Option<Millis>
    const inputThrottleMs: Millis
    /** What the provider was told, each call with the clock's reading. */
    var calls: seq<Entry>

    function View(): Control
      reads this
    {
      Control(dragActive, lastMoveAt, calls)
    }

    constructor (throttle: Millis)
      ensures View() == IDLE && inputThrottleMs == throttle
    {
      dragActive, lastMoveAt, inputThrottleMs, calls := false, None, throttle, [];
    }

    method AcceptMove(now: Millis) returns (ok: bool)
      modifies this`lastMoveAt
      ensures ok == old(Accepts(View(), inputThrottleMs, now))
      ensures lastMoveAt == if ok then Some(now) else old(lastMoveAt)
    {
      if lastMoveAt.Some? && now - lastMoveAt.value < inputThrottleMs { return false; }
      lastMoveAt := Some(now);
      return true;
    }

    /** None for the noDisplays error. */
    method ResolveAbsoluteTarget(x: real, y: real, wanted: Option<int>, displays: seq<Display>, current: int)
      returns (target: Option<Target>)
      ensures target.None? <==> displays == []
      ensures target.Some? ==>
                var g := target.value.display.geometry;
                && target.value.display == Pick(displays, wanted, current)
                && target.value.virtualX == Project(g.x, g.width, x)
                && target.value.virtualY == Project(g.y, g.height, y)
    {
      if displays == [] { return None; }
      var display := Pick(displays, wanted, current);
      var localX := Clamp01(x) * display.geometry.width as real;
      var localY := Clamp01(y) * display.geometry.height as real;
      var virtualX := Round(display.geometry.x as real + localX);
      var virtualY := Round(display.geometry.y as real + localY);
      return Some(Target(display, virtualX, virtualY));
    }

    method DoMoveAbsolute(t: Turn) returns (outcome: Outcome)
      requires t.request.MoveAbsolute?
      modifies this`lastMoveAt, this`calls
      ensures (View(), outcome) == old(Step(View(), t, inputThrottleMs))
    {
      var ok := AcceptMove(t.now);
      if !ok { return Ok; }
      var to := ResolveAbsoluteTarget(t.request.x, t.request.y, t.request.displayIndex, t.displays, t.current);
      if to.None? { return NoDisplays; }
      calls := calls + [Entry(t.now, MovedTo(to.value.virtualX, to.value.virtualY, to.value.display.displayIndex))];
      return Ok;
    }

    method DoMoveRelative(t: Turn) returns (outcome: Outcome)
      requires t.request.MoveRelative?
      modifies this`lastMoveAt, this`calls
      ensures (View(), outcome) == old(Step(View(), t, inputThrottleMs))
    {
      var ok := AcceptMove(t.now);
      if !ok { return Ok; }
      calls := calls + [Entry(t.now, MovedBy(Round(t.request.dx), Round(t.request.dy)))];
      return Ok;
    }

    method DoClick(t: Turn) returns (outcome: Outcome)
      requires t.request.Click?
      modifies this`calls
      ensures (View(), outcome) == old(Step(View(), t, inputThrottleMs))
    {
      if t.request.button == UnknownButton { return InvalidButton; }
      calls := calls + [Entry(t.now, Clicked(t.request.button, t.request.action))];
      return Ok;
    }

    method DoScroll(t: Turn) returns (outcome: Outcome)
      requires t.request.Scroll?
      modifies this`calls
      ensures (View(), outcome) == old(Step(View(), t, inputThrottleMs))
    {
      var amount := t.request.amount;
      var magnitude := if amount < 0.0 then -amount else amount;
      if magnitude > SCROLL_CLAMP { magnitude := SCROLL_CLAMP; }
      var clamped := if amount < 0.0 then -magnitude else magnitude;
      if clamped == 0.0 { return Ok; }
      calls := calls + [Entry(t.now, Scrolled(t.request.axis, clamped))];
      return Ok;
    }

    method DoDragStart(t: Turn) returns (outcome: Outcome)
      requires t.request.DragStart?
      modifies this`dragActive, this`calls
      ensures (View(), outcome) == old(Step(View(), t, inputThrottleMs))
    {
      if !CanDrag(t.request.button) { return InvalidButton; }
      if dragActive { return DragAlreadyStarted; }
      dragActive := true;
      calls := calls + [Entry(t.now, DragStarted(t.request.button))];
      return Ok;
    }

    method DoDragMove(t: Turn) returns (outcome: Outcome)
      requires t.request.DragMove?
      modifies this`lastMoveAt, this`calls
      ensures (View(), outcome) == old(Step(View(), t, inputThrottleMs))
    {
      if !dragActive { return DragNotStarted; }
      var ok := AcceptMove(t.now);
      if !ok { return Ok; }
      var to := ResolveAbsoluteTarget(t.request.x, t.request.y, t.request.displayIndex, t.displays, t.current);
      if to.None? { return NoDisplays; }
      calls := calls + [Entry(t.now, DraggedTo(to.value.virtualX, to.value.virtualY, to.value.display.displayIndex))];
      return Ok;
    }

    method DoDragEnd(t: Turn) returns (outcome: Outcome)
      requires t.request.DragEnd?
      modifies this`dragActive, this`calls
      ensures (View(), outcome) == old(Step(View(), t, inputThrottleMs))
    {
      if !CanDrag(t.request.button) { return InvalidButton; }
      if !dragActive { return DragNotStarted; }
      dragActive := false;
      calls := calls + [Entry(t.now, DragEnded(t.request.button))];
      return Ok;
    }
  }
}
