/** The gateway with the device registry as its token store: who gets to run an operational
    handler (packages/network/src/server/authMiddleware.ts, networkService.ts, deviceRegistry.ts). */
module Receiver {
  import opened Common
  import G = Gateway
  import Auth = GatewayAuth
  import C = GatewayCauses
  import E = GatewayEffects
  import R = DeviceRegistry

  type Hash = string -> string

  datatype State = State(gateway: G.State, registry: R.World)

  /** `Verify(k)` is the token store's answer to the waiting call k. Only promises lie between the
      registry's look-up and the promotion: frames of the same read may be handled between them,
      as here while the call is waiting, but no call on the registry can come between. */
  datatype Event = AtGateway(ge: G.Event) | AtRegistry(re: R.Event) | Verify(k: nat)

  function Name(p: R.Permission): string {
    match p
    case Mouse => "mouse"
    case Keyboard => "keyboard"
    case Clipboard => "clipboard"
    case Media => "media"
    case Presentation => "presentation"
    case FileTransfer => "fileTransfer"
    case Other(name) => name
  }

  function Names(permissions: seq<R.Permission>): seq<string> {
    if permissions == [] then [] else [Name(permissions[0])] + Names(permissions[1..])
  }

  /** `verifyAuthenticate` on what call k presents. */
  function Answer(s: State, hash: Hash, k: nat): Option<seq<string>>
    requires k < |s.gateway.calls| && s.gateway.calls[k].stage.Verifying?
  {
    var stage := s.gateway.calls[k].stage;
    match R.VerifyToken(s.registry.registry, hash, stage.sessionId, stage.token)
    case None => None
    case Some(permissions) => Some(Names(permissions))
  }

  function GatewayPart(s: State, hash: Hash, e: Event): Option<G.Event> {
    match e
    case AtGateway(ge) => if ge.TokenChecked? then None else Some(ge)
    case AtRegistry(_) => None
    case Verify(k) =>
      if k < |s.gateway.calls| && s.gateway.calls[k].stage.Verifying? then Some(G.TokenChecked(k, Answer(s, hash, k)))
      else None
  }

  function Step(s: State, hash: Hash, e: Event): State {
    State(match GatewayPart(s, hash, e) { case Some(ge) => G.Step(s.gateway, ge) case None => s.gateway },
          if e.AtRegistry? then R.Step(s.registry, e.re) else s.registry)
  }

  function Run(handlers: set<int>, hash: Hash, es: seq<Event>): State {
    if es == [] then State(G.Init(handlers), R.EMPTY)
    else Step(Run(handlers, hash, es[..|es| - 1]), hash, es[|es| - 1])
  }

  function GatewayRun(handlers: set<int>, hash: Hash, es: seq<Event>): seq<G.Event> {
    if es == [] then []
    else
      var init := es[..|es| - 1];
      GatewayRun(handlers, hash, init) +
      match GatewayPart(Run(handlers, hash, init), hash, es[|es| - 1]) { case Some(ge) => [ge] case None => [] }
  }

  function RegistryRun(es: seq<Event>): seq<R.Event> {
    if es == [] then []
    else RegistryRun(es[..|es| - 1]) + if es[|es| - 1].AtRegistry? then [es[|es| - 1].re] else []
  }

  /** Whatever holds of every run of either part holds of it here. */
  lemma {:induction false} PartsRunOnTheirOwn(handlers: set<int>, hash: Hash, es: seq<Event>)
    ensures Run(handlers, hash, es).gateway == G.Run(handlers, GatewayRun(handlers, hash, es))
    ensures Run(handlers, hash, es).registry == R.Run(RegistryRun(es))
  {
    hide G.Step, R.Step, GatewayPart;
    if es != [] {
      var init, e := es[..|es| - 1], es[|es| - 1];
      PartsRunOnTheirOwn(handlers, hash, init);
      var gs, rs := GatewayRun(handlers, hash, init), RegistryRun(init);
      var part := GatewayPart(Run(handlers, hash, init), hash, e);
      if part.Some? { assert (gs + [part.value])[..|gs|] == gs; }
      else { assert GatewayRun(handlers, hash, es) == gs; }
      if e.AtRegistry? { assert (rs + [e.re])[..|rs|] == rs; }
      else { assert RegistryRun(es) == rs; }
    }
  }

  lemma Then(handlers: set<int>, hash: Hash, es: seq<Event>, e: Event)
    ensures Run(handlers, hash, es + [e]) == Step(Run(handlers, hash, es), hash, e)
  {
    assert (es + [e])[..|es|] == es;
  }

  /** The history of the registry entitles the holder of this token, for this id, to exactly
      these permissions. */
  ghost predicate Entitled(w: R.World, id: string, token: string, permissions: seq<string>) {
    && R.WasApproved(w.facts, id) && !R.WasRevoked(w.facts, id)
    && R.LastToken(w.facts, id) == Some(token) && token != ""
    && permissions == Names(R.LastGrant(w.facts, id))
  }

  /** The answer a waiting call gets is a grant if and only if the registry's history entitles what
      it presents, and then of exactly those permissions. */
  lemma AnswersExactly(handlers: set<int>, hash: Hash, es: seq<Event>, k: nat, permissions: seq<string>)
    requires R.CollisionFree(hash)
    requires var s := Run(handlers, hash, es); k < |s.gateway.calls| && s.gateway.calls[k].stage.Verifying?
    ensures var s := Run(handlers, hash, es);
            var stage := s.gateway.calls[k].stage;
            Answer(s, hash, k) == Some(permissions) <==>
            Entitled(s.registry, stage.sessionId, stage.token, permissions)
  {
    hide Run, R.Run, R.VerifyToken, R.LastToken, R.LastGrant, RegistryRun, GatewayRun, G.Run;
    var stage := Run(handlers, hash, es).gateway.calls[k].stage;
    PartsRunOnTheirOwn(handlers, hash, es);
    R.VerifiesExactly(RegistryRun(es), hash, stage.sessionId, stage.token);
  }

  /** The entitled get in: once the token store has answered for a waiting call that is entitled by
      the registry's history, the first attached session with the id is authenticated and holds
      exactly the permissions last granted. */
  lemma EntitledIsPromoted(handlers: set<int>, hash: Hash, es: seq<Event>, k: nat, permissions: seq<string>, c: Conn)
    requires R.CollisionFree(hash)
    requires var s := Run(handlers, hash, es);
             && k < |s.gateway.calls| && s.gateway.calls[k].stage.Verifying?
             && var stage := s.gateway.calls[k].stage;
                Entitled(s.registry, stage.sessionId, stage.token, permissions) &&
                C.FirstWithId(s.gateway, stage.sessionId, c)
    ensures Auth.Rights(Run(handlers, hash, es + [Verify(k)]).gateway, c) == Some(permissions)
  {
    hide Run, Entitled, Answer, G.Step, C.FirstWithId;
    var s := Run(handlers, hash, es);
    AnswersExactly(handlers, hash, es, k, permissions);
    E.VerdictEffects(s.gateway, k, Some(permissions), c);
    Then(handlers, hash, es, Verify(k));
    assert c in s.gateway.sessions by { FirstIsAttached(s.gateway, s.gateway.calls[k].stage.sessionId, c); }
  }

  lemma FirstIsAttached(g: G.State, sessionId: string, c: Conn)
    requires C.FirstWithId(g, sessionId, c)
    ensures c in g.sessions
  {
  }

  /** Every approving verdict rests on the registry's history at the moment it was given. */
  lemma {:induction false} VerdictsAreEntitled(handlers: set<int>, hash: Hash, es: seq<Event>, v: nat) returns (j: nat)
    requires R.CollisionFree(hash)
    requires v < |Run(handlers, hash, es).gateway.log|
    requires var x := Run(handlers, hash, es).gateway.log[v]; x.TokenVerdict? && x.granted.Some?
    ensures j < |es| && |Run(handlers, hash, es[..j]).gateway.log| == v < |Run(handlers, hash, es[..j + 1]).gateway.log|
    ensures var x := Run(handlers, hash, es).gateway.log[v];
            Entitled(Run(handlers, hash, es[..j]).registry, x.sessionId, x.token, x.granted.value)
  {
    hide Entitled, G.Step, R.Step, Answer;
    var n := |es| - 1;
    var s := Run(handlers, hash, es[..n]);
    var part := GatewayPart(s, hash, es[n]);
    if part.Some? { C.StepOnlyAdds(s.gateway, part.value); }
    if v < |s.gateway.log| {
      j := VerdictsAreEntitled(handlers, hash, es[..n], v);
      assert es[..n][..j] == es[..j] && es[..n][..j + 1] == es[..j + 1];
    } else {
      j := n;
      assert es[..n + 1] == es;
      C.StepCauses(s.gateway, part.value, v);
      AnswersExactly(handlers, hash, es[..n], es[n].k, part.value.granted.value);
    }
  }

  /** End to end on the receiver: behind every run of an operational handler there is an approving
      verdict, and at the moment it was given the registry's history held an approval and no
      revocation of the promoted session id, the presented token was the last one issued or
      stored for it, and the permissions promoted were exactly those last granted. */
  lemma OperationalMeansEntitled(handlers: set<int>, hash: Hash, es: seq<Event>, i: nat)
    returns (p: nat, v: nat, s: nat, o: nat, j: nat)
    requires R.CollisionFree(hash)
    requires i < |Run(handlers, hash, es).gateway.log|
    requires var e := Run(handlers, hash, es).gateway.log[i]; e.Invoked? && e.frame.t !in G.PRE_AUTH_TYPES
    ensures var log := Run(handlers, hash, es).gateway.log;
            && p < i && Auth.Chain(log, p, v, s, o) && log[p].conn == log[i].conn
            && j < |es| && |Run(handlers, hash, es[..j]).gateway.log| == v
            && Entitled(Run(handlers, hash, es[..j]).registry, log[p].sessionId, log[s].token, log[p].permissions)
    ensures var ges := GatewayRun(handlers, hash, es);
            C.HasCause(handlers, ges, p) && C.HasCause(handlers, ges, v) && C.HasCause(handlers, ges, s)
  {
    hide C.HasCause, Run, G.Run, GatewayRun, Entitled;
    PartsRunOnTheirOwn(handlers, hash, es);
    p, v, s, o := Auth.OperationalFramesNeedApproval(handlers, GatewayRun(handlers, hash, es), i);
    j := VerdictsAreEntitled(handlers, hash, es, v);
  }

  // ---------------------------------------------------------------- revocation

  lemma {:induction false} RevokedStays(handlers: set<int>, hash: Hash, es: seq<Event>, r: nat, id: string)
    requires r <= |es| && R.WasRevoked(Run(handlers, hash, es[..r]).registry.facts, id)
    ensures R.WasRevoked(Run(handlers, hash, es).registry.facts, id)
  {
    hide G.Step, GatewayPart;
    if r == |es| {
      assert es[..r] == es;
    } else {
      var n := |es| - 1;
      assert es[..n][..r] == es[..r];
      RevokedStays(handlers, hash, es[..n], r, id);
    }
  }

  lemma {:induction false} HistoryGrows(handlers: set<int>, hash: Hash, es: seq<Event>, n: nat)
    requires n <= |es|
    ensures Run(handlers, hash, es[..n]).gateway.log <= Run(handlers, hash, es).gateway.log
  {
    hide G.Step, R.Step, GatewayPart;
    if n == |es| {
      assert es[..n] == es;
    } else {
      var m := |es| - 1;
      assert es[..m][..n] == es[..n];
      HistoryGrows(handlers, hash, es[..m], n);
      var part := GatewayPart(Run(handlers, hash, es[..m]), hash, es[m]);
      if part.Some? { C.StepOnlyAdds(Run(handlers, hash, es[..m]).gateway, part.value); }
    }
  }

  /** Once a session id has been revoked, the token store never approves it again: from then on
      nobody is promoted on its token. */
  lemma RevokedNeverApproved(handlers: set<int>, hash: Hash, es: seq<Event>, r: nat, v: nat)
    requires R.CollisionFree(hash)
    requires r <= |es| && |Run(handlers, hash, es[..r]).gateway.log| <= v < |Run(handlers, hash, es).gateway.log|
    requires var x := Run(handlers, hash, es).gateway.log[v];
             x.TokenVerdict? && R.WasRevoked(Run(handlers, hash, es[..r]).registry.facts, x.sessionId)
    ensures Run(handlers, hash, es).gateway.log[v].granted == None
  {
    hide Run;
    var x := Run(handlers, hash, es).gateway.log[v];
    if x.granted.Some? {
      var j := VerdictsAreEntitled(handlers, hash, es, v);
      if r <= j {
        assert es[..j][..r] == es[..r];
        RevokedStays(handlers, hash, es[..j], r, x.sessionId);
      } else {
        assert es[..r][..j + 1] == es[..j + 1];
        HistoryGrows(handlers, hash, es[..r], j + 1);
      }
    }
  }

  /** A device is approved, connects and authenticates. */
  lemma Admitted(hash: Hash) returns (es: seq<Event>)
    ensures var s := Run({AUTHENTICATE, MOUSE_MOVE}, hash, es);
            && "d" in s.registry.registry.trusted && s.gateway.handlers == {AUTHENTICATE, MOUSE_MOVE}
            && 0 in s.gateway.sessions && s.gateway.sessions[0].authenticated
  {
    hide Run;
    var h := {AUTHENTICATE, MOUSE_MOVE};
    var f := Frame(AUTHENTICATE, 0, PROTOCOL_MAJOR_VERSION, Credentials("d", "t", Some("n")));
    var e1, e2 := AtRegistry(R.PairRequested("d", "phone", "t")), AtRegistry(R.ApproveCalled("d", "", "salt"));
    var e3, e4, e5 := AtGateway(G.Connects(0, "d", "n")), AtGateway(G.Receives(0, G.Decoded(f))), Verify(0);
    assert Run(h, hash, []) == State(G.Init(h), R.EMPTY) by { NothingYet(h, hash); }
    Then(h, hash, [], e1); es := [] + [e1];
    assert Run(h, hash, es).registry.registry.pending == [R.PendingRequest("d", "phone", 600_000)];
    Then(h, hash, es, e2); es := es + [e2];
    var entry := R.DeviceEntry("d", "d", "phone", R.DEFAULT_PERMISSIONS, "t", "salt");
    assert Run(h, hash, es).registry.registry == R.Registry(map["d" := entry], [], {}, map[]);
    Then(h, hash, es, e3); es := es + [e3];
    assert Run(h, hash, es).gateway.sessions == map[0 := G.Session("d", false, [], "n", {})];
    Then(h, hash, es, e4); es := es + [e4];
    assert Run(h, hash, es).gateway.calls == [G.Call(0, f, G.Verifying("d", "t"))];
    Then(h, hash, es, e5); es := es + [e5];
  }

  lemma NothingYet(handlers: set<int>, hash: Hash)
    ensures Run(handlers, hash, []) == State(G.Init(handlers), R.EMPTY)
  {
  }

  /** The registry's header says that revoking a device kills its session at once. It does not:
      here an operational handler starts for a device after its revocation. */
  lemma RevokedStillOperates(hash: Hash) returns (es: seq<Event>, i: nat)
    ensures |es| > 0
    ensures var s := Run({AUTHENTICATE, MOUSE_MOVE}, hash, es);
            && R.WasRevoked(Run({AUTHENTICATE, MOUSE_MOVE}, hash, es[..|es| - 1]).registry.facts, "d")
            && |Run({AUTHENTICATE, MOUSE_MOVE}, hash, es[..|es| - 1]).gateway.log| <= i < |s.gateway.log|
            && s.gateway.log[i].Invoked? && s.gateway.log[i].frame.t == MOUSE_MOVE && s.gateway.log[i].conn == 0
  {
    hide Run;
    var h := {AUTHENTICATE, MOUSE_MOVE};
    var f := Frame(MOUSE_MOVE, 0, PROTOCOL_MAJOR_VERSION, Body(""));
    es := Admitted(hash);
    var e1, e2 := AtRegistry(R.RevokeCalled("d")), AtGateway(G.Receives(0, G.Decoded(f)));
    Then(h, hash, es, e1); es := es + [e1];
    var facts := Run(h, hash, es).registry.facts;
    assert facts[|facts| - 1] == R.Revoked("d");
    i := |Run(h, hash, es).gateway.log| + 1;
    Then(h, hash, es, e2);
    assert (es + [e2])[..|es|] == es;
    es := es + [e2];
  }
}
