/** What the shipped handshake amounts to: clients that answer with the nonce HelloAck disclosed
    to them, as the sender does, are never authenticated
    (apps/receiver/src/main/networkService.ts, packages/network/src/client/ClientConnection.ts). */
module GatewayEcho {
  import opened Common
  import opened Gateway
  import opened GatewayAuth
  import opened GatewayCauses

  predicate Authenticates(e: Event, c: Conn) {
    e.Receives? && e.conn == c && e.message.Decoded? && e.message.frame.t == AUTHENTICATE
  }

  /** Every Authenticate that arrives on `c` carries no challenge, or one that the gateway had
      disclosed on `c` before. */
  ghost predicate Echoes(handlers: set<int>, es: seq<Event>, c: Conn) {
    forall k :: 0 <= k < |es| && Authenticates(es[k], c) ==>
      var nonce := Presented(es[k].message.frame.p);
      nonce == "" || ChallengeSent(c, nonce) in Run(handlers, es[..k]).log
  }

  /** A verification starts only on an Authenticate that presents the session's own nonce. */
  lemma VerificationNeedsNonce(g: State, e: Event, x: Entry)
    requires x in Step(g, e).log && x !in g.log && x.VerificationStarted?
    ensures Authenticates(e, x.conn) && x.conn in g.sessions
    ensures x.presented == Presented(e.message.frame.p) == g.sessions[x.conn].challenge != ""
  {
    hide Step;
    var i :| 0 <= i < |Step(g, e).log| && Step(g, e).log[i] == x;
    StepOnlyAdds(g, e);
    StepCauses(g, e, i);
  }

  lemma DisclosedMeansHello(handlers: set<int>, es: seq<Event>, c: Conn, nonce: string)
    requires ChallengeSent(c, nonce) in Run(handlers, es).log
    ensures SaidHello(Run(handlers, es).log, c)
  {
    hide Run;
    var log := Run(handlers, es).log;
    var i :| 0 <= i < |log| && log[i] == ChallengeSent(c, nonce);
    EveryEntryJustified(handlers, es, i);
    var e :| e in log[..i] && e.Invoked? && e.conn == c && e.frame.t == HELLO;
    assert e in log;
  }

  /** A connection that only echoes never gets the token store asked. */
  lemma {:induction false} EchoingNeverVerifies(handlers: set<int>, es: seq<Event>, c: Conn)
    requires Echoes(handlers, es, c)
    ensures forall x :: x in Run(handlers, es).log && x.VerificationStarted? ==> x.conn != c
  {
    hide Step, AuthOk, Presented;
    if es != [] {
      var n := |es| - 1;
      var init, e := es[..n], es[n];
      assert forall k :: 0 <= k < n ==> init[..k] == es[..k] && init[k] == es[k];
      EchoingNeverVerifies(handlers, init, c);
      forall x | x in Run(handlers, es).log && x.VerificationStarted? ensures x.conn != c {
        if x !in Run(handlers, init).log {
          VerificationNeedsNonce(Run(handlers, init), e, x);
          if x.conn == c {
            DisclosedMeansHello(handlers, init, c, x.presented);
            HelloBlanks(handlers, init, c);
          }
        }
      }
    }
  }

  lemma HelloBlanks(handlers: set<int>, es: seq<Event>, c: Conn)
    requires c in Run(handlers, es).sessions && SaidHello(Run(handlers, es).log, c)
    ensures Run(handlers, es).sessions[c].challenge == ""
  {
    AlwaysAuthOk(handlers, es);
    assert SessionOk(Run(handlers, es).log, c, Run(handlers, es).sessions[c]);
  }

  /** If every connection only echoes, then in no run is any session ever promoted, and no
      handler outside the four pre-authentication types ever runs. */
  lemma EchoingNeverOperates(handlers: set<int>, es: seq<Event>, x: Entry)
    requires forall c :: Echoes(handlers, es, c)
    requires x in Run(handlers, es).log
    ensures !x.Promoted? && (x.Invoked? ==> x.frame.t in PRE_AUTH_TYPES)
  {
    hide Run, Echoes;
    var log := Run(handlers, es).log;
    var i :| 0 <= i < |log| && log[i] == x;
    if x.Promoted? {
      var v, s, o := PromotionsNeedApproval(handlers, es, i);
      EchoingNeverVerifies(handlers, es, log[s].conn);
    } else if x.Invoked? && x.frame.t !in PRE_AUTH_TYPES {
      var p, v, s, o := OperationalFramesNeedApproval(handlers, es, i);
      EchoingNeverVerifies(handlers, es, log[s].conn);
    }
  }
}
