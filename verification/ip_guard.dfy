/** Per-address flood protection of the gateway: the connection cap and the sliding-window
    ban, against the complete history of failures and open sockets
    (packages/network/src/server/WssGateway.ts). */
module IpGuard {
  import opened Common

  type Ip = string

  const MAX_CONNECTIONS_PER_IP := 32
  const IP_AUTH_BAN_MS := 600_000
  const IP_AUTH_FAILURE_WINDOW_MS := 60_000
  const IP_AUTH_BAN_THRESHOLD := 10

  // ---------------------------------------------------------------- the gateway's three maps

  datatype Guard = Guard(counts: map<Ip, nat>, failures: map<Ip, seq<nat>>, bans: map<Ip, nat>)

  function CountOf(g: Guard, ip: Ip): nat { if ip in g.counts then g.counts[ip] else 0 }

  function FailuresOf(g: Guard, ip: Ip): seq<nat> { if ip in g.failures then g.failures[ip] else [] }

  predicate Banned(g: Guard, ip: Ip, now: nat) { ip in g.bans && now < g.bans[ip] }

  predicate Accepts(g: Guard, ip: Ip, now: nat) {
    !Banned(g, ip, now) && CountOf(g, ip) < MAX_CONNECTIONS_PER_IP
  }

  function Increment(g: Guard, ip: Ip): Guard { g.(counts := g.counts[ip := CountOf(g, ip) + 1]) }

  function Decrement(g: Guard, ip: Ip): Guard {
    if CountOf(g, ip) <= 1 then g.(counts := g.counts - {ip}) else g.(counts := g.counts[ip := CountOf(g, ip) - 1])
  }

  /** The times later than `after`, in order. */
  function Recent(times: seq<nat>, after: int): seq<nat> {
    if times == [] then []
    else
      var last := times[|times| - 1];
      Recent(times[..|times| - 1], after) + if last > after then [last] else []
  }

  function RecordFailure(g: Guard, ip: Ip, now: nat): Guard {
    var failures := Recent(FailuresOf(g, ip), now - IP_AUTH_FAILURE_WINDOW_MS) + [now];
    var g1 := g.(failures := g.failures[ip := failures]);
    if |failures| >= IP_AUTH_BAN_THRESHOLD then
      g1.(bans := g1.bans[ip := now + IP_AUTH_BAN_MS], counts := g1.counts - {ip})
    else g1
  }

  // ---------------------------------------------------------------- runs

  /** The guard beside the truth about one address: every failure ever recorded for it, and
      its sockets accepted and not yet closed. */
  datatype World = World(guard: Guard, times: seq<nat>, open: nat, now: nat)

  datatype Event =
    | Connects(from: Ip)
    | SocketErrors(from: Ip)
    | SocketCloses(from: Ip)
    | AuthFails(from: Ip)
    | Tick(to: nat)

  const QUIET := World(Guard(map[], map[], map[]), [], 0, 0)

  /** One event, watched for address `ip`. A socket that errored is still open until it
      closes; both events decrement the count. */
  function Step(w: World, e: Event, ip: Ip): World {
    match e
    case Connects(from) =>
      if Accepts(w.guard, from, w.now) then
        w.(guard := Increment(w.guard, from), open := w.open + if from == ip then 1 else 0)
      else w
    case SocketErrors(from) =>
      if from == ip && w.open == 0 then w else w.(guard := Decrement(w.guard, from))
    case SocketCloses(from) =>
      if from != ip then w.(guard := Decrement(w.guard, from))
      else if w.open > 0 then w.(guard := Decrement(w.guard, from), open := w.open - 1)
      else w
    case AuthFails(from) =>
      w.(guard := RecordFailure(w.guard, from, w.now), times := if from == ip then w.times + [w.now] else w.times)
    case Tick(to) => if to >= w.now then w.(now := to) else w
  }

  function Run(es: seq<Event>, ip: Ip): World {
    if es == [] then QUIET else Step(Run(es[..|es| - 1], ip), es[|es| - 1], ip)
  }

  // ---------------------------------------------------------------- the ban

  /** The i-th failure was at least the tenth within the minute that ends with it. */
  predicate Triggers(times: seq<nat>, i: nat)
    requires i < |times|
  {
    var t: int := times[i];
    |Recent(times[..i + 1], t - 60_000)| >= 10
  }

  ghost predicate Ordered(times: seq<nat>, now: nat) {
    && (forall i, j :: 0 <= i < j < |times| ==> times[i] <= times[j])
    && (forall i :: 0 <= i < |times| ==> times[i] <= now)
  }

  /** The pruned list is the full log restricted to the last failure's window. */
  ghost predicate Pruned(times: seq<nat>, failures: seq<nat>) {
    failures == if times == [] then [] else Recent(times, times[|times| - 1] - IP_AUTH_FAILURE_WINDOW_MS)
  }

  /** The ban on record is the latest one triggered. */
  ghost predicate LatestBan(times: seq<nat>, bans: map<Ip, nat>, ip: Ip) {
    && (ip in bans ==> exists i :: 0 <= i < |times| && Triggers(times, i) && bans[ip] == times[i] + IP_AUTH_BAN_MS)
    && (forall i :: 0 <= i < |times| && Triggers(times, i) ==> ip in bans && times[i] + IP_AUTH_BAN_MS <= bans[ip])
  }

  ghost predicate BanOk(w: World, ip: Ip) {
    Ordered(w.times, w.now) && Pruned(w.times, FailuresOf(w.guard, ip)) && LatestBan(w.times, w.guard.bans, ip)
  }

  lemma {:induction false} RecentOfRecent(times: seq<nat>, a: int, b: int)
    requires a <= b
    ensures Recent(Recent(times, a), b) == Recent(times, b)
  {
    if times != [] {
      var init, last := times[..|times| - 1], times[|times| - 1];
      RecentOfRecent(init, a, b);
      if last > a {
        assert (Recent(init, a) + [last])[..|Recent(init, a)|] == Recent(init, a);
      } else {
        assert Recent(times, a) == Recent(init, a) && Recent(times, b) == Recent(init, b);
      }
    }
  }

  function HowOften(times: seq<nat>, t: nat): nat {
    if times == [] then 0
    else HowOften(times[..|times| - 1], t) + if times[|times| - 1] == t then 1 else 0
  }

  lemma HowOftenPush(times: seq<nat>, last: nat, t: nat)
    ensures HowOften(times + [last], t) == HowOften(times, t) + if last == t then 1 else 0
  {
    assert (times + [last])[..|times|] == times;
  }

  lemma NothingOften(t: nat)
    ensures HowOften([], t) == 0
  {
  }

  /** The filter keeps every later time as often as it occurs, and no other. */
  lemma {:induction false} RecentExactly(times: seq<nat>, after: int, t: nat)
    ensures HowOften(Recent(times, after), t) == if t > after then HowOften(times, t) else 0
  {
    hide Recent, HowOften;
    if times == [] {
      RecentOfNone(after);
      NothingOften(t);
    } else {
      var init, last := times[..|times| - 1], times[|times| - 1];
      RecentExactly(init, after, t);
      assert times == init + [last];
      RecentPush(init, last, after);
      HowOftenPush(init, last, t);
      HowOftenPush(Recent(init, after), last, t);
      assert Recent(init, after) + [] == Recent(init, after);
    }
  }

  lemma RecentPush(times: seq<nat>, t: nat, after: int)
    ensures Recent(times + [t], after) == Recent(times, after) + if t > after then [t] else []
  {
    assert (times + [t])[..|times|] == times;
  }

  /** Pruning at every failure keeps exactly what one pruning of the full log would. */
  lemma PruningLosesNothing(times: seq<nat>, failures: seq<nat>, now: nat)
    requires Ordered(times, now) && Pruned(times, failures)
    ensures Pruned(times + [now], Recent(failures, now - IP_AUTH_FAILURE_WINDOW_MS) + [now])
  {
    hide Recent;
    var after := now - IP_AUTH_FAILURE_WINDOW_MS;
    RecentPush(times, now, after);
    if times == [] {
      RecentOfNone(after);
    } else {
      RecentOfRecent(times, times[|times| - 1] - IP_AUTH_FAILURE_WINDOW_MS, after);
    }
  }

  lemma RecentOfNone(after: int)
    ensures Recent([], after) == []
  {
  }

  lemma TriggersPush(times: seq<nat>, t: nat, i: nat)
    requires i < |times|
    ensures Triggers(times + [t], i) == Triggers(times, i)
  {
    assert (times + [t])[..i + 1] == times[..i + 1];
  }

  lemma BanPush(times: seq<nat>, now: nat, bans: map<Ip, nat>, bans': map<Ip, nat>, ip: Ip)
    requires Ordered(times, now) && LatestBan(times, bans, ip)
    requires bans' == if Triggers(times + [now], |times|) then bans[ip := now + IP_AUTH_BAN_MS] else bans
    ensures LatestBan(times + [now], bans', ip)
  {
    hide Triggers;
    var times' := times + [now];
    forall i | 0 <= i < |times| ensures Triggers(times', i) == Triggers(times, i) && times'[i] == times[i] {
      TriggersPush(times, now, i);
    }
    if Triggers(times', |times|) {
      assert bans'[ip] == times'[|times|] + IP_AUTH_BAN_MS;
    } else if ip in bans {
      var i :| 0 <= i < |times| && Triggers(times, i) && bans[ip] == times[i] + IP_AUTH_BAN_MS;
      assert Triggers(times', i);
    }
  }

  lemma FailureKeepsBan(w: World, ip: Ip)
    requires BanOk(w, ip)
    ensures BanOk(Step(w, AuthFails(ip), ip), ip)
  {
    hide Recent, LatestBan;
    var w' := Step(w, AuthFails(ip), ip);
    PruningLosesNothing(w.times, FailuresOf(w.guard, ip), w.now);
    assert w'.times == w.times + [w.now] && w'.times[..|w.times| + 1] == w'.times;
    BanPush(w.times, w.now, w.guard.bans, w'.guard.bans, ip);
  }

  lemma BanFrame(times: seq<nat>, bans: map<Ip, nat>, bans': map<Ip, nat>, ip: Ip)
    requires LatestBan(times, bans, ip)
    requires (ip in bans' <==> ip in bans) && (ip in bans ==> bans'[ip] == bans[ip])
    ensures LatestBan(times, bans', ip)
  {
    hide Triggers;
  }

  lemma StepKeepsBan(w: World, e: Event, ip: Ip)
    requires BanOk(w, ip)
    ensures BanOk(Step(w, e, ip), ip)
  {
    hide LatestBan, Recent, Pruned;
    if e == AuthFails(ip) {
      FailureKeepsBan(w, ip);
    } else {
      var w' := Step(w, e, ip);
      assert FailuresOf(w'.guard, ip) == FailuresOf(w.guard, ip) && w'.times == w.times;
      BanFrame(w.times, w.guard.bans, w'.guard.bans, ip);
    }
  }

  lemma {:induction false} AlwaysBanOk(es: seq<Event>, ip: Ip)
    ensures BanOk(Run(es, ip), ip)
  {
    if es != [] {
      AlwaysBanOk(es[..|es| - 1], ip);
      StepKeepsBan(Run(es[..|es| - 1], ip), es[|es| - 1], ip);
    }
  }

  /** In every run a connection attempt is refused as banned exactly when the full log holds
      a failure less than ten minutes old that was at least the tenth in its own minute. */
  lemma BannedExactly(es: seq<Event>, ip: Ip)
    ensures var w := Run(es, ip);
            Banned(w.guard, ip, w.now) <==>
            exists i :: 0 <= i < |w.times| && Triggers(w.times, i) && w.now < w.times[i] + IP_AUTH_BAN_MS
  {
    AlwaysBanOk(es, ip);
  }

  // ---------------------------------------------------------------- the count

  ghost predicate CountOk(w: World, ip: Ip) {
    && CountOf(w.guard, ip) <= w.open
    && CountOf(w.guard, ip) <= MAX_CONNECTIONS_PER_IP
  }

  /** In every run the count never exceeds the cap nor the number of open sockets. */
  lemma {:induction false} CountNeverOver(es: seq<Event>, ip: Ip)
    ensures CountOk(Run(es, ip), ip)
  {
    if es != [] { CountNeverOver(es[..|es| - 1], ip); }
  }

  /** An event that makes the count drift from the truth: an error of one of the address's
      open sockets, or a ban while it has any. */
  predicate Drifts(w: World, e: Event, ip: Ip) {
    || (e == SocketErrors(ip) && w.open > 0)
    || (e == AuthFails(ip) && w.open > 0 &&
        |Recent(FailuresOf(w.guard, ip), w.now - IP_AUTH_FAILURE_WINDOW_MS)| + 1 >= IP_AUTH_BAN_THRESHOLD)
  }

  predicate Exact(w: World, ip: Ip) { CountOf(w.guard, ip) == w.open }

  ghost predicate ExactThroughout(es: seq<Event>, ip: Ip) {
    es == [] || (ExactThroughout(es[..|es| - 1], ip) && Exact(Run(es, ip), ip))
  }

  ghost predicate NeverDrifts(es: seq<Event>, ip: Ip) {
    es == [] || (NeverDrifts(es[..|es| - 1], ip) && !Drifts(Run(es[..|es| - 1], ip), es[|es| - 1], ip))
  }

  /** From an exact count, one event leaves it exact unless it drifts. */
  lemma DriftsExactly(w: World, e: Event, ip: Ip)
    requires CountOk(w, ip) && Exact(w, ip)
    ensures Exact(Step(w, e, ip), ip) <==> !Drifts(w, e, ip)
  {
    hide Recent;
  }

  /** The count is right after every event of a run exactly when no event of it drifts: every
      socket ends by its close alone and bans only fire while none is open. */
  lemma {:induction false} ExactExactly(es: seq<Event>, ip: Ip)
    ensures ExactThroughout(es, ip) <==> NeverDrifts(es, ip)
    ensures ExactThroughout(es, ip) ==> Exact(Run(es, ip), ip)
  {
    hide Step, Recent;
    if es != [] {
      var w, e := Run(es[..|es| - 1], ip), es[|es| - 1];
      ExactExactly(es[..|es| - 1], ip);
      CountNeverOver(es[..|es| - 1], ip);
      if Exact(w, ip) { DriftsExactly(w, e, ip); }
    }
  }

  // ---------------------------------------------------------------- who is let in

  /** The full log holds a failure less than ten minutes old that was the tenth in its minute. */
  ghost predicate RecentlyTriggered(times: seq<nat>, now: nat) {
    exists i :: 0 <= i < |times| && Triggers(times, i) && now < times[i] + 600_000
  }

  /** In every run a connection from the address is let in, and counted, if and only if fewer than
      32 are counted and the full log of its failures asks for no ban; otherwise nothing changes. */
  lemma AdmittedExactly(es: seq<Event>, ip: Ip)
    ensures var w, w' := Run(es, ip), Step(Run(es, ip), Connects(ip), ip);
            if CountOf(w.guard, ip) < 32 && !RecentlyTriggered(w.times, w.now) then
              && w'.open == w.open + 1 && CountOf(w'.guard, ip) == CountOf(w.guard, ip) + 1
              && w' == w.(open := w'.open, guard := w.guard.(counts := w'.guard.counts))
              && forall other :: other != ip ==> CountOf(w'.guard, other) == CountOf(w.guard, other)
            else w' == w
  {
    hide Triggers;
    BannedExactly(es, ip);
  }

  /** The end of a socket takes one off its own address's count, if there is one to take, and leaves
      failures, bans and every other address alone. */
  lemma EndEffects(g: Guard, ip: Ip, other: Ip)
    ensures var g' := Decrement(g, ip);
            && CountOf(g', ip) == (if CountOf(g, ip) == 0 then 0 else CountOf(g, ip) - 1)
            && (other != ip ==> CountOf(g', other) == CountOf(g, other))
            && g'.failures == g.failures && g'.bans == g.bans
  {
  }

  /** A failure concerns its own address only. */
  lemma FailureEffects(g: Guard, ip: Ip, now: nat, other: Ip)
    requires other != ip
    ensures var g' := RecordFailure(g, ip, now);
            && CountOf(g', other) == CountOf(g, other) && FailuresOf(g', other) == FailuresOf(g, other)
            && (Banned(g', other, now) <==> Banned(g, other, now))
  {
  }

  // ---------------------------------------------------------------- the cap

  /** What a world becomes, and whether it does so without any event that drifts. */
  function After(w: World, more: seq<Event>, ip: Ip): World {
    if more == [] then w else Step(After(w, more[..|more| - 1], ip), more[|more| - 1], ip)
  }

  ghost predicate Steady(w: World, more: seq<Event>, ip: Ip) {
    more == [] ||
    (Steady(w, more[..|more| - 1], ip) && !Drifts(After(w, more[..|more| - 1], ip), more[|more| - 1], ip))
  }

  lemma {:induction false} AfterIsRun(es: seq<Event>, more: seq<Event>, ip: Ip)
    ensures After(Run(es, ip), more, ip) == Run(es + more, ip)
  {
    hide Step;
    if more == [] {
      assert es + more == es;
    } else {
      AfterIsRun(es, more[..|more| - 1], ip);
      assert (es + more)[..|es + more| - 1] == es + more[..|more| - 1];
    }
  }

  lemma SteadyPush(w: World, more: seq<Event>, e: Event, ip: Ip)
    requires Steady(w, more, ip) && !Drifts(After(w, more, ip), e, ip)
    ensures Steady(w, more + [e], ip) && After(w, more + [e], ip) == Step(After(w, more, ip), e, ip)
  {
    hide Step, Drifts;
    assert (more + [e])[..|more|] == more;
  }

  lemma StepKeepsCount(w: World, e: Event, ip: Ip)
    requires CountOk(w, ip)
    ensures CountOk(Step(w, e, ip), ip)
  {
    hide Recent;
  }

  lemma {:induction false} SteadyStaysExact(w: World, more: seq<Event>, ip: Ip)
    requires CountOk(w, ip) && Exact(w, ip) && Steady(w, more, ip)
    ensures CountOk(After(w, more, ip), ip) && Exact(After(w, more, ip), ip)
  {
    hide Step, Drifts, CountOk, Exact;
    if more != [] {
      var init, e := more[..|more| - 1], more[|more| - 1];
      SteadyStaysExact(w, init, ip);
      StepKeepsCount(After(w, init, ip), e, ip);
      DriftsExactly(After(w, init, ip), e, ip);
    }
  }

  /** Connect until the count reaches the cap. */
  lemma FillUp(w: World, more: seq<Event>, ip: Ip) returns (more': seq<Event>)
    requires Steady(w, more, ip)
    requires var w1 := After(w, more, ip);
             !Banned(w1.guard, ip, w1.now) && CountOf(w1.guard, ip) <= MAX_CONNECTIONS_PER_IP
    ensures Steady(w, more', ip)
    ensures var w1, w2 := After(w, more, ip), After(w, more', ip);
            w2.open == w1.open + MAX_CONNECTIONS_PER_IP - CountOf(w1.guard, ip)
    decreases MAX_CONNECTIONS_PER_IP - CountOf(After(w, more, ip).guard, ip)
  {
    hide After, Steady, Recent;
    var w1 := After(w, more, ip);
    if CountOf(w1.guard, ip) == MAX_CONNECTIONS_PER_IP {
      more' := more;
    } else {
      SteadyPush(w, more, Connects(ip), ip);
      more' := FillUp(w, more + [Connects(ip)], ip);
    }
  }

  /** Let any ban run out. */
  lemma WaitOut(w: World, ip: Ip) returns (more: seq<Event>)
    ensures Steady(w, more, ip)
    ensures var w1 := After(w, more, ip);
            && CountOf(w1.guard, ip) == CountOf(w.guard, ip) && w1.open == w.open && !Banned(w1.guard, ip, w1.now)
  {
    if Banned(w.guard, ip, w.now) {
      var tick := Tick(w.guard.bans[ip]);
      SteadyPush(w, [], tick, ip);
      more := [] + [tick];
    } else {
      more := [];
    }
  }

  /** After a run the cap holds from then on, as long as nothing drifts, if and only if the count
      is exact: from any other state sockets that only connect take their number over it. */
  lemma CapHoldsExactly(es: seq<Event>, ip: Ip)
    ensures var w := Run(es, ip);
            Exact(w, ip) <==>
            forall more :: Steady(w, more, ip) ==> After(w, more, ip).open <= MAX_CONNECTIONS_PER_IP
  {
    hide Step, Recent, Run, Steady, After;
    var w := Run(es, ip);
    CountNeverOver(es, ip);
    if Exact(w, ip) {
      forall more | Steady(w, more, ip) ensures After(w, more, ip).open <= MAX_CONNECTIONS_PER_IP {
        SteadyStaysExact(w, more, ip);
      }
    } else {
      var more := WaitOut(w, ip);
      more := FillUp(w, more, ip);
      assert After(w, more, ip).open > MAX_CONNECTIONS_PER_IP;
    }
  }

  lemma RunPush(es: seq<Event>, e: Event, ip: Ip)
    ensures Run(es + [e], ip) == Step(Run(es, ip), e, ip)
  {
    hide Step;
    assert (es + [e])[..|es|] == es;
  }

  /** A socket that stays, and one that errs and closes; n times. */
  function Rounds(n: nat, ip: Ip): seq<Event> {
    if n == 0 then []
    else Rounds(n - 1, ip) + [Connects(ip)] + [Connects(ip)] + [SocketErrors(ip)] + [SocketCloses(ip)]
  }

  /** So the cap is not a cap on sockets: any number of them can be open under a count of zero. */
  lemma {:induction false} CapCanBeExceeded(n: nat, ip: Ip)
    ensures var w := Run(Rounds(n, ip), ip); w.open == n && CountOf(w.guard, ip) == 0 && w.guard.bans == map[]
  {
    hide Run;
    if n == 0 {
      NothingYet(ip);
    } else {
      CapCanBeExceeded(n - 1, ip);
      var es := Rounds(n - 1, ip);
      RunPush(es, Connects(ip), ip);
      RunPush(es + [Connects(ip)], Connects(ip), ip);
      RunPush(es + [Connects(ip)] + [Connects(ip)], SocketErrors(ip), ip);
      RunPush(es + [Connects(ip)] + [Connects(ip)] + [SocketErrors(ip)], SocketCloses(ip), ip);
    }
  }

  lemma NothingYet(ip: Ip)
    ensures Run([], ip) == QUIET
  {
  }

  // ---------------------------------------------------------------- the object

  class FloodGuard {
    var connectionsPerIp: map<Ip, nat>
    var ipAuthFailures: map<Ip, seq<nat>>
    var ipAuthBans: map<Ip, nat>

    function View(): Guard
      reads this
    {
      Guard(connectionsPerIp, ipAuthFailures, ipAuthBans)
    }

    constructor ()
      ensures View() == QUIET.guard
    {
      connectionsPerIp, ipAuthFailures, ipAuthBans := map[], map[], map[];
    }

    /** The refusals at the top of `onConnection`. */
    method Admit(ip: Ip, now: nat) returns (accepted: bool)
      modifies this`connectionsPerIp
      ensures accepted <==> Accepts(old(View()), ip, now)
      ensures View() == if accepted then Increment(old(View()), ip) else old(View())
    {
      var banned := if ip in ipAuthBans then ipAuthBans[ip] else 0;
      if now < banned { return false; }
      var current := if ip in connectionsPerIp then connectionsPerIp[ip] else 0;
      if current >= MAX_CONNECTIONS_PER_IP { return false; }
      connectionsPerIp := connectionsPerIp[ip := current + 1];
      return true;
    }

    method DecrementIpCount(ip: Ip)
      modifies this`connectionsPerIp
      ensures View() == Decrement(old(View()), ip)
    {
      var current := if ip in connectionsPerIp then connectionsPerIp[ip] else 0;
      if current <= 1 {
        connectionsPerIp := connectionsPerIp - {ip};
      } else {
        connectionsPerIp := connectionsPerIp[ip := current - 1];
      }
    }

    method RecordAuthFailure(ip: Ip, now: nat) returns (expiry: Option<nat>)
      modifies this
      ensures View() == RecordFailure(old(View()), ip, now)
      ensures expiry == if |FailuresOf(View(), ip)| >= IP_AUTH_BAN_THRESHOLD then Some(now + IP_AUTH_BAN_MS) else None
      ensures expiry.Some? ==> Banned(View(), ip, now)
    {
      var failures := Recent(if ip in ipAuthFailures then ipAuthFailures[ip] else [], now - IP_AUTH_FAILURE_WINDOW_MS);
      failures := failures + [now];
      ipAuthFailures := ipAuthFailures[ip := failures];
      if |failures| >= IP_AUTH_BAN_THRESHOLD {
        ipAuthBans := ipAuthBans[ip := now + IP_AUTH_BAN_MS];
        connectionsPerIp := connectionsPerIp - {ip};
        return Some(now + IP_AUTH_BAN_MS);
      }
      return None;
    }
  }
}
