/** LatencyMetrics: the kept round-trip samples, their median and the loss estimate, against
    the complete log of pings and pongs (packages/network/src/monitoring/index.ts). */
module Latency {
  import opened Common

  const RTT_ROLLING_WINDOW := 32
  const LOSS_WINDOW_MS: Millis := 60000.0

  datatype Event =
    | PingSent(id: nat, now: Millis)
    | PongReceived(id: nat, now: Millis)
    | PingReceived(now: Millis)
    | PongSent
    | Reset

  datatype Metrics = Metrics(
    rtts: seq<Millis>, open: map<nat, Millis>, pongs: nat, pings: nat, lastActivity: Millis)

  const FRESH := Metrics([], map[], 0, 0, 0.0)

  function Step(m: Metrics, e: Event): Metrics {
    match e
    case PingSent(id, now) => m.(open := m.open[id := now], pings := m.pings + 1)
    case PongReceived(id, now) =>
      if id !in m.open then m.(lastActivity := now)
      else
        m.(open := m.open - {id}, pongs := m.pongs + 1, lastActivity := now,
           rtts := Shifted(m.rtts + [now - m.open[id]]))
    case PingReceived(now) => m.(pings := m.pings + 1, lastActivity := now)
    case PongSent => m.(pongs := m.pongs + 1)
    case Reset => FRESH.(lastActivity := m.lastActivity)
  }

  function Shifted(rtts: seq<Millis>): seq<Millis> {
    if |rtts| > RTT_ROLLING_WINDOW then rtts[1..] else rtts
  }

  function Run(es: seq<Event>): Metrics {
    if es == [] then FRESH else Step(Run(es[..|es| - 1]), es[|es| - 1])
  }

  // ---------------------------------------------------------------- the log

  /** When ping `id` was sent, if the log since the last reset shows it still unanswered. */
  function Waiting(es: seq<Event>, id: nat): Option<Millis> {
    if es == [] then None
    else
      match es[|es| - 1]
      case PingSent(q, now) => if q == id then Some(now) else Waiting(es[..|es| - 1], id)
      case PongReceived(q, _) => if q == id then None else Waiting(es[..|es| - 1], id)
      case Reset => None
      case PingReceived(_) => Waiting(es[..|es| - 1], id)
      case PongSent => Waiting(es[..|es| - 1], id)
  }

  datatype Trip = Trip(sentAt: Millis, receivedAt: Millis)

  /** Every round trip completed since the last reset, oldest first. */
  function Trips(es: seq<Event>): seq<Trip> {
    if es == [] || es[|es| - 1].Reset? then []
    else
      var before, e := es[..|es| - 1], es[|es| - 1];
      Trips(before) +
      if e.PongReceived? && Waiting(before, e.id).Some? then [Trip(Waiting(before, e.id).value, e.now)] else []
  }

  function Rtts(trips: seq<Trip>): (r: seq<Millis>)
    ensures |r| == |trips|
  {
    if trips == [] then []
    else Rtts(trips[..|trips| - 1]) + [trips[|trips| - 1].receivedAt - trips[|trips| - 1].sentAt]
  }

  function LastOf<T>(n: nat, s: seq<T>): seq<T> { if |s| <= n then s else s[|s| - n..] }

  /** Pings sent since the last reset. */
  function Sent(es: seq<Event>): nat {
    if es == [] || es[|es| - 1].Reset? then 0
    else Sent(es[..|es| - 1]) + if es[|es| - 1].PingSent? then 1 else 0
  }

  /** Pings sent since the last reset under the number of one still waiting. */
  function Reused(es: seq<Event>): nat {
    if es == [] || es[|es| - 1].Reset? then 0
    else
      var before, e := es[..|es| - 1], es[|es| - 1];
      Reused(before) + if e.PingSent? && Waiting(before, e.id).Some? then 1 else 0
  }

  /** The receiver-side counters are never touched on the sender. */
  predicate SenderSide(es: seq<Event>) { forall e :: e in es ==> !e.PingReceived? && !e.PongSent? }

  // ---------------------------------------------------------------- samples and open pings

  ghost predicate MatchesLog(m: Metrics, es: seq<Event>) {
    && (forall id :: id in m.open <==> Waiting(es, id).Some?)
    && (forall id :: id in m.open ==> Waiting(es, id) == Some(m.open[id]))
    && m.rtts == LastOf(RTT_ROLLING_WINDOW, Rtts(Trips(es)))
  }

  /** Over any run: a ping is open exactly while the log shows no answer to it, and the kept
      samples are the last 32 of all round trips completed since the reset. */
  lemma {:induction false} KeepsLastSamples(es: seq<Event>)
    ensures MatchesLog(Run(es), es)
  {
    if es != [] {
      var before, e := es[..|es| - 1], es[|es| - 1];
      KeepsLastSamples(before);
      var m := Run(before);
      if e.PongReceived? && e.id in m.open {
        var trips, t := Trips(before), Trip(m.open[e.id], e.now);
        assert Trips(es) == trips + [t];
        assert (trips + [t])[..|trips|] == trips;
        assert Rtts(trips + [t]) == Rtts(trips) + [t.receivedAt - t.sentAt];
        ShiftKeepsLast(Rtts(trips), t.receivedAt - t.sentAt);
      } else {
        assert !e.Reset? ==> Trips(es) == Trips(before);
      }
    }
  }

  lemma ShiftKeepsLast(s: seq<Millis>, x: Millis)
    ensures Shifted(LastOf(RTT_ROLLING_WINDOW, s) + [x]) == LastOf(RTT_ROLLING_WINDOW, s + [x])
  {
  }

  /** Conservation on the sender: no pong, however stale, duplicated or made up, can change
      pings = open + answered, apart from pings that overwrote one still waiting. */
  lemma {:induction false} PingsAreAccountedFor(es: seq<Event>)
    requires SenderSide(es)
    ensures Run(es).pings == Sent(es) && Run(es).pongs == |Trips(es)|
    ensures |Run(es).open| + Run(es).pongs + Reused(es) == Run(es).pings
  {
    if es != [] {
      var before, e := es[..|es| - 1], es[|es| - 1];
      PingsAreAccountedFor(before);
      KeepsLastSamples(before);
      var m := Run(before);
      assert e in es;
      match e
      case PingSent(id, now) => assert m.open[id := now].Keys == m.open.Keys + {id};
      case PongReceived(id, _) => assert (m.open - {id}).Keys == m.open.Keys - {id};
      case Reset =>
      case PingReceived(_) =>
      case PongSent =>
    }
  }

  /** Pings received and pongs sent since the last reset, which only a receiver records. */
  function Heard(es: seq<Event>): nat {
    if es == [] || es[|es| - 1].Reset? then 0
    else Heard(es[..|es| - 1]) + if es[|es| - 1].PingReceived? then 1 else 0
  }

  function Ponged(es: seq<Event>): nat {
    if es == [] || es[|es| - 1].Reset? then 0
    else Ponged(es[..|es| - 1]) + if es[|es| - 1].PongSent? then 1 else 0
  }

  /** When a ping or pong last arrived, however long ago and whatever was reset since. */
  function LastHeard(es: seq<Event>): Millis {
    if es == [] then 0.0
    else
      match es[|es| - 1]
      case PongReceived(_, now) => now
      case PingReceived(now) => now
      case PingSent(_, _) => LastHeard(es[..|es| - 1])
      case PongSent => LastHeard(es[..|es| - 1])
      case Reset => LastHeard(es[..|es| - 1])
  }

  /** Over any run, on either side, the counters count what they are named after, and the last
      activity is the last arrival. */
  lemma {:induction false} CountersExactly(es: seq<Event>)
    ensures var m := Run(es);
            m.pings == Sent(es) + Heard(es) && m.pongs == |Trips(es)| + Ponged(es) && m.lastActivity == LastHeard(es)
  {
    if es != [] {
      CountersExactly(es[..|es| - 1]);
      KeepsLastSamples(es[..|es| - 1]);
    }
  }

  /** `seq = ++this.pingSeq`: the pings of a sender carry the numbers 1, 2, 3, … across resets. */
  function PingsEver(es: seq<Event>): nat {
    if es == [] then 0 else PingsEver(es[..|es| - 1]) + if es[|es| - 1].PingSent? then 1 else 0
  }

  ghost predicate Numbered(es: seq<Event>) {
    forall k :: 0 <= k < |es| && es[k].PingSent? ==> es[k].id == PingsEver(es[..k]) + 1
  }

  lemma {:induction false} NumberedNeverReuses(es: seq<Event>)
    requires Numbered(es)
    ensures Reused(es) == 0
    ensures forall id: nat :: Waiting(es, id).Some? ==> id <= PingsEver(es)
  {
    if es != [] {
      var n := |es| - 1;
      assert forall k :: 0 <= k < n ==> es[..n][..k] == es[..k];
      assert forall k :: 0 <= k < n ==> es[..n][k] == es[k];
      NumberedNeverReuses(es[..n]);
    }
  }

  /** On ClientConnection's own pings: open + answered = sent since the reset. */
  lemma PingsAreConserved(es: seq<Event>)
    requires SenderSide(es) && Numbered(es)
    ensures |Run(es).open| + |Trips(es)| == Sent(es)
  {
    PingsAreAccountedFor(es);
    NumberedNeverReuses(es);
  }

  // ---------------------------------------------------------------- the median

  function Insert(x: Millis, t: seq<Millis>): (r: seq<Millis>)
    ensures |r| == |t| + 1
  {
    if t == [] then [x] else if x <= t[0] then [x] + t else [t[0]] + Insert(x, t[1..])
  }

  /** `[...rtts].sort((a, b) => a - b)`. */
  function Ascending(s: seq<Millis>): (r: seq<Millis>)
    ensures |r| == |s|
  {
    if s == [] then [] else Insert(s[0], Ascending(s[1..]))
  }

  function Median(s: seq<Millis>): Option<Millis> {
    if s == [] then None else Some(Ascending(s)[|s| / 2])
  }

  function AtMost(s: seq<Millis>, m: Millis): nat {
    if s == [] then 0 else (if s[0] <= m then 1 else 0) + AtMost(s[1..], m)
  }

  function AtLeast(s: seq<Millis>, m: Millis): nat {
    if s == [] then 0 else (if s[0] >= m then 1 else 0) + AtLeast(s[1..], m)
  }

  predicate IsAscending(t: seq<Millis>) { forall j, k :: 0 <= j < k < |t| ==> t[j] <= t[k] }

  lemma {:induction false} InsertKeepsOrder(x: Millis, t: seq<Millis>)
    requires IsAscending(t)
    ensures IsAscending(Insert(x, t))
    ensures forall y :: y in Insert(x, t) ==> y == x || y in t
  {
    if t != [] && x > t[0] {
      InsertKeepsOrder(x, t[1..]);
      var rest := Insert(x, t[1..]);
      forall k | 0 <= k < |rest| ensures t[0] <= rest[k] {
        assert rest[k] in rest;
      }
    }
  }

  lemma {:induction false} InsertCounts(x: Millis, t: seq<Millis>, m: Millis)
    ensures AtMost(Insert(x, t), m) == AtMost([x] + t, m)
    ensures AtLeast(Insert(x, t), m) == AtLeast([x] + t, m)
  {
    assert ([x] + t)[1..] == t;
    if t != [] && x > t[0] {
      InsertCounts(x, t[1..], m);
      assert ([x] + t[1..])[1..] == t[1..];
      assert ([t[0]] + Insert(x, t[1..]))[1..] == Insert(x, t[1..]);
    }
  }

  lemma {:induction false} SortingFacts(s: seq<Millis>, m: Millis)
    ensures IsAscending(Ascending(s))
    ensures AtMost(Ascending(s), m) == AtMost(s, m) && AtLeast(Ascending(s), m) == AtLeast(s, m)
  {
    if s != [] {
      SortingFacts(s[1..], m);
      InsertKeepsOrder(s[0], Ascending(s[1..]));
      InsertCounts(s[0], Ascending(s[1..]), m);
      assert ([s[0]] + Ascending(s[1..]))[1..] == Ascending(s[1..]);
    }
  }

  lemma {:induction false} AllAtLeast(t: seq<Millis>, m: Millis)
    requires forall k :: 0 <= k < |t| ==> m <= t[k]
    ensures AtLeast(t, m) == |t|
  {
    if t != [] { AllAtLeast(t[1..], m); }
  }

  lemma {:induction false} RankOf(t: seq<Millis>, k: nat)
    requires IsAscending(t) && k < |t|
    ensures AtMost(t, t[k]) >= k + 1 && AtLeast(t, t[k]) >= |t| - k
  {
    if k == 0 {
      AllAtLeast(t, t[0]);
    } else {
      RankOf(t[1..], k - 1);
    }
  }

  lemma {:induction false} RanksClash(s: seq<Millis>, low: Millis, high: Millis)
    requires low < high
    ensures AtMost(s, low) + AtLeast(s, high) <= |s|
  {
    if s != [] { RanksClash(s[1..], low, high); }
  }

  /** The value `rtt` reports is the order statistic at index floor(n/2), and no other value is:
      at least floor(n/2) + 1 samples are at most it and at least n - floor(n/2) at least it. */
  lemma MedianExactly(s: seq<Millis>, m: Millis)
    requires s != []
    ensures Median(s) == Some(m) <==> AtMost(s, m) >= |s| / 2 + 1 && AtLeast(s, m) >= |s| - |s| / 2
  {
    var med := Ascending(s)[|s| / 2];
    SortingFacts(s, med);
    RankOf(Ascending(s), |s| / 2);
    if m < med { RanksClash(s, m, med); }
    if med < m { RanksClash(s, med, m); }
  }

  /** What `rtt` reports after any run: nothing before the first round trip, otherwise the
      order statistic of the last min(32, n) of the n round trips since the reset. */
  lemma RttOfRun(es: seq<Event>, m: Millis)
    ensures var window := LastOf(RTT_ROLLING_WINDOW, Rtts(Trips(es)));
            && |window| == (if |Trips(es)| < 32 then |Trips(es)| else 32)
            && (Median(Run(es).rtts) == Some(m) <==>
                window != [] && AtMost(window, m) >= |window| / 2 + 1 && AtLeast(window, m) >= |window| - |window| / 2)
  {
    KeepsLastSamples(es);
    if Run(es).rtts != [] { MedianExactly(Run(es).rtts, m); }
  }

  // ---------------------------------------------------------------- the loss estimate

  function Recent(open: map<nat, Millis>, ids: set<nat>, cutoff: Millis): set<nat>
    requires ids <= open.Keys
  {
    set id | id in ids && open[id] >= cutoff
  }

  function OpenFrom(open: map<nat, Millis>, cutoff: Millis): set<nat> { Recent(open, open.Keys, cutoff) }

  function Fraction(missed: nat, answered: nat): real {
    if missed == 0 then 0.0 else missed as real / (missed + answered) as real
  }

  /** `lossFraction`: every answered ping counts, however old. */
  function Loss(m: Metrics, now: Millis): real {
    if m.pings == 0 then 0.0 else Fraction(|OpenFrom(m.open, now - LOSS_WINDOW_MS)|, m.pongs)
  }

  function AnsweredFrom(trips: seq<Trip>, cutoff: Millis): (n: nat)
    ensures n <= |trips|
    ensures n == |trips| <==> forall t :: t in trips ==> t.sentAt >= cutoff
  {
    if trips == [] then 0
    else
      var last := trips[|trips| - 1];
      assert trips == trips[..|trips| - 1] + [last];
      AnsweredFrom(trips[..|trips| - 1], cutoff) + if last.sentAt >= cutoff then 1 else 0
  }

  /** What its comment promises: of the pings sent in the last 60 s, the share without a pong. */
  function PromisedLoss(es: seq<Event>, now: Millis): real {
    var cutoff := now - 60_000.0;
    Fraction(|OpenFrom(Run(es).open, cutoff)|, AnsweredFrom(Trips(es), cutoff))
  }

  lemma FractionFalls(missed: nat, few: nat, many: nat)
    requires few <= many
    ensures 0.0 <= Fraction(missed, many) <= Fraction(missed, few) <= 1.0
    ensures Fraction(missed, many) == Fraction(missed, few) <==> missed == 0 || few == many
  {
    if missed > 0 {
      var x, f, g := missed as real, (missed + few) as real, (missed + many) as real;
      DivisionOrder(x, f, f);
      DivisionOrder(x, f, g);
      assert x / x == 1.0;
      DivisionOrder(x, x, f);
    }
  }

  lemma SignOfProduct(a: real, b: real)
    requires b > 0.0
    ensures a > 0.0 <==> a * b > 0.0
    ensures a == 0.0 <==> a * b == 0.0
  {
  }

  lemma DivisionOrder(x: real, f: real, g: real)
    requires 0.0 < x && 0.0 < f <= g
    ensures 0.0 < x / g <= x / f
    ensures f < g ==> x / g < x / f
  {
    var q, r := x / g, x / f;
    assert q * g == x && r * f == x;
    assert (r - q) * f == q * (g - f);
    SignOfProduct(q, g);
    SignOfProduct(r - q, f);
  }

  /** The estimate lies in [0, 1] and never exceeds the promised share; it equals it exactly
      when no recent ping is open or every answered ping was itself sent in the last 60 s. */
  lemma LossNeverOverstated(es: seq<Event>, now: Millis)
    requires SenderSide(es)
    ensures 0.0 <= Loss(Run(es), now) <= PromisedLoss(es, now) <= 1.0
    ensures var cutoff := now - 60_000.0;
            Loss(Run(es), now) == PromisedLoss(es, now) <==>
            || OpenFrom(Run(es).open, cutoff) == {}
            || (forall t :: t in Trips(es) ==> t.sentAt >= cutoff)
  {
    var cutoff := now - LOSS_WINDOW_MS;
    var m := Run(es);
    PingsAreAccountedFor(es);
    if m.pings == 0 {
      assert m.open.Keys == {};
      assert OpenFrom(m.open, cutoff) == {};
    }
    FractionFalls(|OpenFrom(m.open, cutoff)|, AnsweredFrom(Trips(es), cutoff), m.pongs);
  }

  lemma Visit(open: map<nat, Millis>, ids: set<nat>, id: nat, cutoff: Millis)
    requires ids <= open.Keys && id in ids
    ensures |Recent(open, ids, cutoff)| == |Recent(open, ids - {id}, cutoff)| + if open[id] >= cutoff then 1 else 0
  {
    assert Recent(open, ids - {id}, cutoff) == Recent(open, ids, cutoff) - {id};
  }

  // ---------------------------------------------------------------- the object

  class LatencyMetrics {
    var rtts: seq<Millis>
    var pingTimes: map<nat, Millis>
    var pongsReceived: nat
    var pingsSent: nat
    var lastActivity: Millis

    function View(): Metrics
      reads this
    {
      Metrics(rtts, pingTimes, pongsReceived, pingsSent, lastActivity)
    }

    constructor ()
      ensures View() == Run([])
    {
      rtts, pingTimes, pongsReceived, pingsSent, lastActivity := [], map[], 0, 0, 0.0;
    }

    method Touch(now: Millis)
      modifies this`lastActivity
      ensures lastActivity == now
    {
      lastActivity := now;
    }

    method RecordPingSent(id: nat, now: Millis)
      modifies this`pingTimes, this`pingsSent
      ensures View() == Step(old(View()), PingSent(id, now))
    {
      pingTimes := pingTimes[id := now];
      pingsSent := pingsSent + 1;
    }

    method RecordPongReceived(id: nat, now: Millis)
      modifies this
      ensures View() == Step(old(View()), PongReceived(id, now))
    {
      Touch(now);
      var sendAt := if id in pingTimes then Some(pingTimes[id]) else None;
      pingTimes := pingTimes - {id};
      if sendAt.None? { return; }
      pongsReceived := pongsReceived + 1;
      rtts := rtts + [now - sendAt.value];
      if |rtts| > RTT_ROLLING_WINDOW { rtts := rtts[1..]; }
    }

    method RecordPingReceived(now: Millis)
      modifies this`lastActivity, this`pingsSent
      ensures View() == Step(old(View()), PingReceived(now))
    {
      Touch(now);
      pingsSent := pingsSent + 1;
    }

    method RecordPongSent()
      modifies this`pongsReceived
      ensures View() == Step(old(View()), PongSent)
    {
      pongsReceived := pongsReceived + 1;
    }

    method Clear()
      modifies this
      ensures View() == Step(old(View()), Reset)
    {
      rtts, pingTimes, pongsReceived, pingsSent := [], map[], 0, 0;
    }

    /** None without samples, otherwise their order statistic at index floor(n / 2). */
    method Rtt() returns (rtt: Option<Millis>)
      ensures rtt == Median(rtts)
      ensures rtt.None? <==> rtts == []
      ensures rtt.Some? ==>
                && AtMost(rtts, rtt.value) >= |rtts| / 2 + 1
                && AtLeast(rtts, rtt.value) >= |rtts| - |rtts| / 2
    {
      if |rtts| == 0 { return None; }
      var sorted := Ascending(rtts);
      MedianExactly(rtts, sorted[|rtts| / 2]);
      return Some(sorted[|rtts| / 2]);
    }

    method LossFraction(now: Millis) returns (loss: real)
      ensures loss == Loss(View(), now)
    {
      if pingsSent == 0 { return 0.0; }
      var cutoff := now - LOSS_WINDOW_MS;
      var recentPings: nat, recentMissed: nat := 0, 0;
      var unvisited := pingTimes.Keys;
      while unvisited != {}
        invariant unvisited <= pingTimes.Keys
        invariant recentPings == recentMissed
        invariant recentPings + |Recent(pingTimes, unvisited, cutoff)| == |OpenFrom(pingTimes, cutoff)|
        decreases |unvisited|
      {
        var id :| id in unvisited;
        Visit(pingTimes, unvisited, id, cutoff);
        if pingTimes[id] >= cutoff {
          recentPings := recentPings + 1;
          recentMissed := recentMissed + 1;
        }
        unvisited := unvisited - {id};
      }
      if recentPings == 0 { return 0.0; }
      return recentMissed as real / (recentPings + pongsReceived) as real;
    }
  }
}
