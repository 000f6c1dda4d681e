/** The device registry: pairing requests, approval, revocation and token checks, against
    the history of what was issued and granted (apps/receiver/src/main/deviceRegistry.ts). */
module DeviceRegistry {
  import opened Common

  type Id = string

  datatype Permission = Mouse | Keyboard | Clipboard | Media | Presentation | FileTransfer | Other(name: string)

  datatype DeviceEntry = DeviceEntry(
    deviceId: Id, sessionId: Id, name: string, permissions: seq<Permission>, token: string, salt: string)

  datatype PendingRequest = PendingRequest(requestId: Id, clientName: string, expiresAt: nat)

  /** `pending` in insertion order; `tokens` are the pairing tokens, one per request. */
  datatype Registry = Registry(
    trusted: map<Id, DeviceEntry>, pending: seq<PendingRequest>, revoked: set<Id>, tokens: map<Id, string>)

  const PENDING_TTL_MS := 600_000
  const MAX_PENDING := 5
  const DEFAULT_PERMISSIONS := [Mouse, Keyboard]

  // ---------------------------------------------------------------- the operations

  function IndexOf(pending: seq<PendingRequest>, id: Id): (i: nat)
    ensures i <= |pending| && (i < |pending| ==> pending[i].requestId == id)
    ensures forall j :: 0 <= j < i ==> pending[j].requestId != id
  {
    if pending == [] then 0 else if pending[0].requestId == id then 0 else 1 + IndexOf(pending[1..], id)
  }

  predicate IsPending(r: Registry, id: Id) { IndexOf(r.pending, id) < |r.pending| }

  /** The name a device is shown under. */
  function ShownName(name: string): string { if name == "" then "Unknown device" else name }

  function RequestPair(r: Registry, id: Id, name: string, token: string, now: nat): Registry {
    var kept := if |r.pending| >= MAX_PENDING then r.pending[1..] else r.pending;
    var tokens := if |r.pending| >= MAX_PENDING then r.tokens - {r.pending[0].requestId} else r.tokens;
    r.(pending := kept + [PendingRequest(id, ShownName(name), now + PENDING_TTL_MS)], tokens := tokens[id := token])
  }

  function Approve(r: Registry, id: Id, spare: string, salt: string): Registry
    requires IsPending(r, id)
  {
    var i := IndexOf(r.pending, id);
    var token := if id in r.tokens then r.tokens[id] else spare;
    var entry := DeviceEntry(id, id, r.pending[i].clientName, DEFAULT_PERMISSIONS, token, salt);
    r.(trusted := r.trusted[id := entry], pending := RemoveAt(r.pending, i), tokens := r.tokens - {id})
  }

  function Revoke(r: Registry, id: Id): Registry
    requires id in r.trusted
  {
    var sessionId := r.trusted[id].sessionId;
    r.(revoked := r.revoked + {sessionId}, trusted := r.trusted - {id}, tokens := r.tokens - {sessionId})
  }

  function Known(permissions: seq<Permission>): seq<Permission> {
    if permissions == [] then []
    else (if permissions[0].Other? then [] else [permissions[0]]) + Known(permissions[1..])
  }

  function SetPermissions(r: Registry, id: Id, permissions: seq<Permission>): Registry
    requires id in r.trusted
  {
    r.(trusted := r.trusted[id := r.trusted[id].(permissions := Known(permissions))])
  }

  function StoreSession(r: Registry, id: Id, token: string, salt: string): Registry {
    if id in r.trusted then r.(trusted := r.trusted[id := r.trusted[id].(token := token, salt := salt)])
    else if IsPending(r, id) then r.(tokens := r.tokens[id := token])
    else r
  }

  function RevokeSession(r: Registry, id: Id): Registry {
    r.(revoked := r.revoked + {id}, trusted := r.trusted - {id})
  }

  function Unexpired(pending: seq<PendingRequest>, now: nat): seq<PendingRequest> {
    if pending == [] then []
    else (if now > pending[0].expiresAt then [] else [pending[0]]) + Unexpired(pending[1..], now)
  }

  /** The known permissions survive, each as often as it was given; no other does. */
  lemma {:induction false} KnownExactly(permissions: seq<Permission>, p: Permission)
    ensures multiset(Known(permissions))[p] == if p.Other? then 0 else multiset(permissions)[p]
  {
    if permissions != [] {
      KnownExactly(permissions[1..], p);
      assert permissions == [permissions[0]] + permissions[1..];
    }
  }

  /** `verifyToken` of the AuthStore adapter, for a hash function. */
  function VerifyToken<D(==)>(r: Registry, hash: string -> D, id: Id, token: string): Option<seq<Permission>> {
    if id in r.revoked || id !in r.trusted then None
    else
      var entry := r.trusted[id];
      var pairing := if IsPending(r, id) && id in r.tokens then r.tokens[id] else "";
      var expected := if entry.token != "" then entry.token else pairing;
      if expected == "" then None
      else
        var matches :=
          if entry.salt != "" then hash(entry.salt + token) == hash(entry.salt + expected) else expected == token;
        if matches then Some(entry.permissions) else None
  }

  // ---------------------------------------------------------------- runs and their history

  datatype Event =
    | PairRequested(id: Id, name: string, token: string)
    | ApproveCalled(id: Id, spare: string, salt: string)
    | RevokeCalled(id: Id)
    | PermissionsCalled(id: Id, permissions: seq<Permission>)
    | StoreCalled(id: Id, token: string, salt: string)
    | RevokeSessionCalled(id: Id)
    | Pruned
    | Tick(to: nat)

  /** What callers observe of a run: tokens handed out, calls that took effect. */
  datatype Fact =
    | Issued(id: Id, token: string)
    | Approved(id: Id)
    | Granted(id: Id, permissions: seq<Permission>)
    | Stored(id: Id, token: string)
    | Revoked(id: Id)

  /** `used` are the ids any call ever named; request ids are fresh random values. */
  datatype World = World(registry: Registry, facts: seq<Fact>, used: set<Id>, now: nat)

  const EMPTY := World(Registry(map[], [], {}, map[]), [], {}, 0)

  function Step(w: World, e: Event): World {
    var r := w.registry;
    match e
    case PairRequested(id, name, token) =>
      if id in w.used then w
      else
        w.(registry := RequestPair(r, id, name, token, w.now), facts := w.facts + [Issued(id, token)],
           used := w.used + {id})
    case ApproveCalled(id, spare, salt) =>
      if IsPending(r, id) then w.(registry := Approve(r, id, spare, salt), facts := w.facts + [Approved(id)]) else w
    case RevokeCalled(id) =>
      if id in r.trusted then w.(registry := Revoke(r, id), facts := w.facts + [Revoked(id)]) else w
    case PermissionsCalled(id, permissions) =>
      if id in r.trusted then
        w.(registry := SetPermissions(r, id, permissions), facts := w.facts + [Granted(id, permissions)])
      else w
    case StoreCalled(id, token, salt) =>
      w.(registry := StoreSession(r, id, token, salt), facts := w.facts + [Stored(id, token)], used := w.used + {id})
    case RevokeSessionCalled(id) =>
      w.(registry := RevokeSession(r, id), facts := w.facts + [Revoked(id)], used := w.used + {id})
    case Pruned => w.(registry := r.(pending := Unexpired(r.pending, w.now)))
    case Tick(to) => if to >= w.now then w.(now := to) else w
  }

  function Run(es: seq<Event>): World {
    if es == [] then EMPTY else Step(Run(es[..|es| - 1]), es[|es| - 1])
  }

  predicate WasApproved(facts: seq<Fact>, id: Id) { Approved(id) in facts }

  predicate WasRevoked(facts: seq<Fact>, id: Id) { Revoked(id) in facts }

  /** The token most recently issued or stored for the id. */
  function LastToken(facts: seq<Fact>, id: Id): Option<string> {
    if facts == [] then None
    else
      var last := facts[|facts| - 1];
      if last.id == id && (last.Issued? || last.Stored?) then Some(last.token)
      else LastToken(facts[..|facts| - 1], id)
  }

  /** The permissions most recently granted, approval granting the default ones. */
  function LastGrant(facts: seq<Fact>, id: Id): seq<Permission> {
    if facts == [] then []
    else
      var last := facts[|facts| - 1];
      if last == Approved(id) then DEFAULT_PERMISSIONS
      else if last.Granted? && last.id == id then Known(last.permissions)
      else LastGrant(facts[..|facts| - 1], id)
  }

  // ---------------------------------------------------------------- invariant

  ghost predicate EntryOk(w: World, id: Id) {
    && (id in w.registry.revoked <==> WasRevoked(w.facts, id))
    && (WasApproved(w.facts, id) && !WasRevoked(w.facts, id) ==> id in w.registry.trusted)
    && (id in w.registry.trusted ==>
          && WasApproved(w.facts, id)
          && w.registry.trusted[id].sessionId == id
          && LastToken(w.facts, id) == Some(w.registry.trusted[id].token)
          && LastGrant(w.facts, id) == w.registry.trusted[id].permissions)
    && (WasApproved(w.facts, id) ==> id in w.used)
  }

  ghost predicate PendingOk(w: World) {
    && |w.registry.pending| <= MAX_PENDING
    && (forall i, j :: 0 <= i < j < |w.registry.pending| ==>
          w.registry.pending[i].requestId != w.registry.pending[j].requestId)
    && (forall p :: p in w.registry.pending ==> RequestOk(w, p.requestId))
  }

  ghost predicate RequestOk(w: World, id: Id) {
    && id in w.used && !WasApproved(w.facts, id)
    && id in w.registry.tokens && LastToken(w.facts, id) == Some(w.registry.tokens[id])
  }

  ghost predicate RegistryOk(w: World) {
    PendingOk(w) && forall id :: EntryOk(w, id)
  }

  lemma FactsPush(facts: seq<Fact>, f: Fact, id: Id)
    ensures WasApproved(facts + [f], id) <==> WasApproved(facts, id) || f == Approved(id)
    ensures WasRevoked(facts + [f], id) <==> WasRevoked(facts, id) || f == Revoked(id)
    ensures LastToken(facts + [f], id) ==
            if f.id == id && (f.Issued? || f.Stored?) then Some(f.token) else LastToken(facts, id)
    ensures LastGrant(facts + [f], id) ==
            if f == Approved(id) then DEFAULT_PERMISSIONS
            else if f.Granted? && f.id == id then Known(f.permissions) else LastGrant(facts, id)
  {
    assert (facts + [f])[..|facts|] == facts;
  }

  lemma PendingKnown(r: Registry, id: Id)
    ensures IsPending(r, id) <==> exists p :: p in r.pending && p.requestId == id
  {
    if IsPending(r, id) { assert r.pending[IndexOf(r.pending, id)] in r.pending; }
  }

  lemma RequestKeeps(w: World, id: Id, name: string, token: string)
    requires RegistryOk(w) && id !in w.used
    ensures RegistryOk(Step(w, PairRequested(id, name, token)))
  {
    hide LastToken, LastGrant;
    var w' := Step(w, PairRequested(id, name, token));
    forall x ensures EntryOk(w', x) { FactsPush(w.facts, Issued(id, token), x); assert EntryOk(w, x); }
    assert EntryOk(w, id);
    forall p | p in w'.registry.pending ensures RequestOk(w', p.requestId) {
      FactsPush(w.facts, Issued(id, token), p.requestId);
      if p in w.registry.pending { assert RequestOk(w, p.requestId); }
    }
    forall i, j | 0 <= i < j < |w'.registry.pending|
      ensures w'.registry.pending[i].requestId != w'.registry.pending[j].requestId
    {
      if j == |w'.registry.pending| - 1 {
        assert w'.registry.pending[i] in w.registry.pending;
      }
    }
  }

  lemma ApproveKeepsEntries(w: World, id: Id, spare: string, salt: string, x: Id)
    requires RegistryOk(w) && IsPending(w.registry, id)
    ensures EntryOk(Step(w, ApproveCalled(id, spare, salt)), x)
  {
    hide LastToken, LastGrant;
    assert RequestOk(w, id) by { assert w.registry.pending[IndexOf(w.registry.pending, id)] in w.registry.pending; }
    FactsPush(w.facts, Approved(id), x);
    assert EntryOk(w, x);
  }

  lemma RemovedRequest(pending: seq<PendingRequest>, i: nat, p: PendingRequest)
    requires i < |pending| && p in RemoveAt(pending, i)
    requires forall j, k :: 0 <= j < k < |pending| ==> pending[j].requestId != pending[k].requestId
    ensures p in pending && p.requestId != pending[i].requestId
  {
    var j :| 0 <= j < |pending| && j != i && pending[j] == p;
  }

  lemma ApproveKeeps(w: World, id: Id, spare: string, salt: string)
    requires RegistryOk(w) && IsPending(w.registry, id)
    ensures RegistryOk(Step(w, ApproveCalled(id, spare, salt)))
  {
    hide LastToken, LastGrant, EntryOk;
    var w' := Step(w, ApproveCalled(id, spare, salt));
    var i := IndexOf(w.registry.pending, id);
    forall x ensures EntryOk(w', x) { ApproveKeepsEntries(w, id, spare, salt, x); }
    forall p | p in w'.registry.pending ensures RequestOk(w', p.requestId) {
      FactsPush(w.facts, Approved(id), p.requestId);
      RemovedRequest(w.registry.pending, i, p);
      assert RequestOk(w, p.requestId);
    }
  }

  lemma TrustedKeeps(w: World, e: Event)
    requires RegistryOk(w) && (e.RevokeCalled? || e.PermissionsCalled?) && e.id in w.registry.trusted
    ensures RegistryOk(Step(w, e))
  {
    hide LastToken, LastGrant;
    var w' := Step(w, e);
    var f := w'.facts[|w.facts|];
    assert EntryOk(w, e.id);
    forall x ensures EntryOk(w', x) { FactsPush(w.facts, f, x); assert EntryOk(w, x); }
    forall p | p in w'.registry.pending ensures RequestOk(w', p.requestId) {
      FactsPush(w.facts, f, p.requestId);
      assert RequestOk(w, p.requestId);
    }
  }

  lemma SessionKeeps(w: World, e: Event)
    requires RegistryOk(w) && (e.StoreCalled? || e.RevokeSessionCalled?)
    ensures RegistryOk(Step(w, e))
  {
    hide LastToken, LastGrant;
    var w' := Step(w, e);
    var f := w'.facts[|w.facts|];
    assert EntryOk(w, e.id);
    forall x ensures EntryOk(w', x) { FactsPush(w.facts, f, x); assert EntryOk(w, x); }
    PendingKnown(w.registry, e.id);
    forall p | p in w'.registry.pending ensures RequestOk(w', p.requestId) {
      FactsPush(w.facts, f, p.requestId);
      assert RequestOk(w, p.requestId) && EntryOk(w, p.requestId);
    }
  }

  lemma {:induction false} UnexpiredIsSublist(pending: seq<PendingRequest>, now: nat)
    requires forall i, j :: 0 <= i < j < |pending| ==> pending[i].requestId != pending[j].requestId
    ensures var kept := Unexpired(pending, now);
            && |kept| <= |pending|
            && (forall p :: p in kept <==> p in pending && now <= p.expiresAt)
            && (forall i, j :: 0 <= i < j < |kept| ==> kept[i].requestId != kept[j].requestId)
  {
    if pending != [] {
      UnexpiredIsSublist(pending[1..], now);
      var rest := Unexpired(pending[1..], now);
      forall j | 0 <= j < |rest| ensures rest[j].requestId != pending[0].requestId {
        assert rest[j] in pending[1..];
      }
    }
  }

  lemma StepKeepsRegistry(w: World, e: Event)
    requires RegistryOk(w)
    ensures RegistryOk(Step(w, e))
  {
    match e
    case PairRequested(id, name, token) => if id !in w.used { RequestKeeps(w, id, name, token); }
    case ApproveCalled(id, spare, salt) => if IsPending(w.registry, id) { ApproveKeeps(w, id, spare, salt); }
    case RevokeCalled(id) => if id in w.registry.trusted { TrustedKeeps(w, e); }
    case PermissionsCalled(id, _) => if id in w.registry.trusted { TrustedKeeps(w, e); }
    case StoreCalled(_, _, _) => SessionKeeps(w, e);
    case RevokeSessionCalled(_) => SessionKeeps(w, e);
    case Pruned =>
      UnexpiredIsSublist(w.registry.pending, w.now);
      var w' := Step(w, e);
      forall id ensures EntryOk(w', id) { assert EntryOk(w, id); }
      forall p | p in w'.registry.pending ensures RequestOk(w', p.requestId) { assert RequestOk(w, p.requestId); }
    case Tick(_) =>
      var w' := Step(w, e);
      forall id ensures EntryOk(w', id) { assert EntryOk(w, id); }
      forall p | p in w'.registry.pending ensures RequestOk(w', p.requestId) { assert RequestOk(w, p.requestId); }
  }

  /** At most five requests are ever pending. */
  lemma {:induction false} AlwaysRegistryOk(es: seq<Event>)
    ensures RegistryOk(Run(es)) && |Run(es).registry.pending| <= MAX_PENDING
  {
    if es != [] {
      AlwaysRegistryOk(es[..|es| - 1]);
      StepKeepsRegistry(Run(es[..|es| - 1]), es[|es| - 1]);
    }
  }

  // ---------------------------------------------------------------- pending requests

  function LastFive(s: seq<PendingRequest>): seq<PendingRequest> { if |s| <= 5 then s else s[|s| - 5..] }

  /** A request joins the end of the last five, to expire in ten minutes, and gets its token; one
      that has to make room loses its own; nothing else changes. */
  lemma RequestEffects(w: World, id: Id, name: string, token: string)
    requires RegistryOk(w) && id !in w.used
    ensures var r, r' := w.registry, Step(w, PairRequested(id, name, token)).registry;
            var shown := if name == "" then "Unknown device" else name;
            var all := r.pending + [PendingRequest(id, shown, w.now + 600_000)];
            && r'.pending == LastFive(all) && r'.trusted == r.trusted && r'.revoked == r.revoked
            && id in r'.tokens && r'.tokens[id] == token
            && forall x :: x != id ==>
                 && (x in r'.tokens <==> x in r.tokens && !(|all| > 5 && x == all[0].requestId))
                 && (x in r'.tokens ==> r'.tokens[x] == r.tokens[x])
  {
    hide EntryOk, LastToken, LastGrant, WasApproved;
    forall p | p in w.registry.pending ensures p.requestId != id { assert RequestOk(w, p.requestId); }
    if |w.registry.pending| > 0 { assert w.registry.pending[0] in w.registry.pending; }
  }

  /** Approval makes of a pending request a trusted device of the same id and name, with mouse and
      keyboard, holding the request's token, and takes the request and its token away. */
  lemma ApproveEffects(w: World, id: Id, spare: string, salt: string, before: seq<PendingRequest>,
                       req: PendingRequest, after: seq<PendingRequest>)
    requires RegistryOk(w) && w.registry.pending == before + [req] + after && req.requestId == id
    ensures var r, r' := w.registry, Step(w, ApproveCalled(id, spare, salt)).registry;
            && id in r.tokens
            && r' == Registry(
                 r.trusted[id := DeviceEntry(id, id, req.clientName, [Mouse, Keyboard], r.tokens[id], salt)],
                 before + after, r.revoked, r.tokens - {id})
  {
    hide EntryOk, LastToken, LastGrant, IndexOf, RemoveAt;
    assert RequestOk(w, req.requestId) by { assert req in w.registry.pending; }
    OnlyRequest(before, req, after);
  }

  lemma OnlyRequest(before: seq<PendingRequest>, req: PendingRequest, after: seq<PendingRequest>)
    requires var all := before + [req] + after;
             forall i, j :: 0 <= i < j < |all| ==> all[i].requestId != all[j].requestId
    ensures var all := before + [req] + after;
            IndexOf(all, req.requestId) == |before| && RemoveAt(all, |before|) == before + after
  {
    var all := before + [req] + after;
    assert all[|before|] == req;
    assert RemoveAt(all, |before|) == before + after;
  }

  ghost predicate Sorted(s: seq<PendingRequest>) {
    forall i, j :: 0 <= i < j < |s| ==> s[i].expiresAt <= s[j].expiresAt
  }

  ghost predicate Within(s: seq<PendingRequest>, limit: nat) { forall p :: p in s ==> p.expiresAt <= limit }

  /** Pending requests stand in the order in which they expire. */
  ghost predicate InOrder(w: World) {
    Sorted(w.registry.pending) && Within(w.registry.pending, w.now + PENDING_TTL_MS)
  }

  lemma SortedPush(s: seq<PendingRequest>, p: PendingRequest)
    requires Sorted(s) && Within(s, p.expiresAt)
    ensures Sorted(s + [p]) && Within(s + [p], p.expiresAt)
  {
    forall i | 0 <= i < |s| ensures s[i].expiresAt <= p.expiresAt { assert s[i] in s; }
  }

  lemma SortedRemove(s: seq<PendingRequest>, k: nat, limit: nat)
    requires k < |s| && Sorted(s) && Within(s, limit)
    ensures Sorted(RemoveAt(s, k)) && Within(RemoveAt(s, k), limit)
    ensures Sorted(s[1..]) && Within(s[1..], limit)
  {
  }

  lemma {:induction false} UnexpiredInOrder(pending: seq<PendingRequest>, now: nat)
    requires Sorted(pending)
    ensures Sorted(Unexpired(pending, now)) && forall p :: p in Unexpired(pending, now) ==> p in pending
  {
    if pending != [] {
      UnexpiredInOrder(pending[1..], now);
      var rest := Unexpired(pending[1..], now);
      forall j | 0 <= j < |rest| ensures pending[0].expiresAt <= rest[j].expiresAt {
        assert rest[j] in pending[1..];
      }
    }
  }

  lemma StepKeepsOrder(w: World, e: Event)
    requires InOrder(w)
    ensures InOrder(Step(w, e))
  {
    var pending := w.registry.pending;
    match e
    case PairRequested(id, name, _) =>
      if |pending| >= MAX_PENDING { SortedRemove(pending, 0, w.now + PENDING_TTL_MS); }
      hide Sorted, Within;
      SortedPush(if |pending| >= MAX_PENDING then pending[1..] else pending,
                 PendingRequest(id, ShownName(name), w.now + PENDING_TTL_MS));
    case ApproveCalled(id, _, _) =>
      hide Sorted, Within;
      if IsPending(w.registry, id) { SortedRemove(pending, IndexOf(pending, id), w.now + PENDING_TTL_MS); }
    case Pruned =>
      UnexpiredInOrder(pending, w.now);
      hide Sorted;
    case _ => hide Sorted;
  }

  /** In every run the request that has to make room for a sixth is one that expires first. */
  lemma {:induction false} OldestMakesRoom(es: seq<Event>)
    ensures InOrder(Run(es))
    ensures forall p :: p in Run(es).registry.pending ==> Run(es).registry.pending[0].expiresAt <= p.expiresAt
  {
    hide Step;
    if es != [] {
      OldestMakesRoom(es[..|es| - 1]);
      StepKeepsOrder(Run(es[..|es| - 1]), es[|es| - 1]);
    }
  }

  /** In every run a pending request was made, under that id and name, exactly ten minutes before it
      expires. */
  lemma {:induction false} RequestedTenMinutesBefore(es: seq<Event>, p: PendingRequest) returns (k: nat)
    requires p in Run(es).registry.pending
    ensures k < |es| && es[k].PairRequested? && es[k].id == p.requestId && ShownName(es[k].name) == p.clientName
    ensures p.expiresAt == Run(es[..k]).now + 600_000
  {
    hide Step;
    var n := |es| - 1;
    NewRequest(Run(es[..n]), es[n], p);
    if p in Run(es[..n]).registry.pending {
      k := RequestedTenMinutesBefore(es[..n], p);
      assert es[..n][..k] == es[..k];
    } else {
      k := n;
    }
  }

  lemma NewRequest(w: World, e: Event, p: PendingRequest)
    requires p in Step(w, e).registry.pending
    ensures p in w.registry.pending ||
            (e.PairRequested? && p == PendingRequest(e.id, ShownName(e.name), w.now + 600_000))
  {
    if e.Pruned? { KeptWasPending(w.registry.pending, w.now, p); }
  }

  lemma {:induction false} KeptWasPending(pending: seq<PendingRequest>, now: nat, p: PendingRequest)
    requires p in Unexpired(pending, now)
    ensures p in pending
  {
    if p != pending[0] { KeptWasPending(pending[1..], now, p); }
  }

  /** In every run pruning drops a front part of the pending requests, all of them expired, and
      keeps the rest, none of them expired; nothing else changes. */
  lemma PruneEffects(es: seq<Event>) returns (k: nat)
    ensures var w := Run(es);
            && k <= |w.registry.pending|
            && Step(w, Pruned) == w.(registry := w.registry.(pending := w.registry.pending[k..]))
            && forall i :: 0 <= i < |w.registry.pending| ==> (w.now > w.registry.pending[i].expiresAt <==> i < k)
  {
    hide Run;
    OldestMakesRoom(es);
    k := PruneDropsFront(Run(es).registry.pending, Run(es).now);
  }

  lemma {:induction false} AllKept(pending: seq<PendingRequest>, now: nat)
    requires forall p :: p in pending ==> now <= p.expiresAt
    ensures Unexpired(pending, now) == pending
  {
    if pending != [] {
      AllKept(pending[1..], now);
      assert pending == [pending[0]] + pending[1..];
    }
  }

  lemma {:induction false} PruneDropsFront(pending: seq<PendingRequest>, now: nat) returns (k: nat)
    requires Sorted(pending)
    ensures k <= |pending| && Unexpired(pending, now) == pending[k..]
    ensures forall i :: 0 <= i < |pending| ==> (now > pending[i].expiresAt <==> i < k)
  {
    if pending == [] || now <= pending[0].expiresAt {
      k := 0;
      AllKept(pending, now);
    } else {
      var tail := pending[1..];
      assert Sorted(tail);
      hide Sorted;
      k := PruneDropsFront(tail, now);
      k := k + 1;
      assert tail[k - 1..] == pending[k..];
      forall i | 0 < i < |pending| ensures now > pending[i].expiresAt <==> i < k {
        assert pending[i] == tail[i - 1];
      }
    }
  }

  // ---------------------------------------------------------------- trusted devices

  /** Revoking makes a device unknown and its id revoked for good; `revoke` also takes a left
      pairing token away. Nothing else changes. */
  lemma RevokeEffects(w: World, id: Id)
    requires RegistryOk(w)
    ensures var r := w.registry;
            && (id in r.trusted ==>
                  Step(w, RevokeCalled(id)).registry ==
                  Registry(map x | x in r.trusted && x != id :: r.trusted[x], r.pending, r.revoked + {id},
                           map x | x in r.tokens && x != id :: r.tokens[x]))
            && (id !in r.trusted ==> Step(w, RevokeCalled(id)) == w)
            && Step(w, RevokeSessionCalled(id)).registry ==
               Registry(map x | x in r.trusted && x != id :: r.trusted[x], r.pending, r.revoked + {id}, r.tokens)
  {
    hide LastToken, LastGrant;
    assert EntryOk(w, id);
  }

  /** A new list of permissions replaces that of the one device, the known ones as often as
      listed; the device keeps its name, token and salt. */
  lemma GrantEffects(w: World, id: Id, permissions: seq<Permission>, p: Permission)
    requires id in w.registry.trusted
    ensures var r, r' := w.registry, Step(w, PermissionsCalled(id, permissions)).registry;
            && id in r'.trusted && r' == r.(trusted := r.trusted[id := r'.trusted[id]])
            && r'.trusted[id] == r.trusted[id].(permissions := r'.trusted[id].permissions)
            && multiset(r'.trusted[id].permissions)[p] == if p.Other? then 0 else multiset(permissions)[p]
  {
    KnownExactly(permissions, p);
  }

  /** A stored token replaces a trusted device's, and its salt, or a pending request's; for an
      unknown id nothing changes. */
  lemma StoreEffects(w: World, id: Id, token: string, salt: string)
    ensures var r, r' := w.registry, Step(w, StoreCalled(id, token, salt)).registry;
            if id in r.trusted then
              r' == r.(trusted := r.trusted[id := r.trusted[id].(token := token, salt := salt)])
            else if exists q :: q in r.pending && q.requestId == id then r' == r.(tokens := r.tokens[id := token])
            else r' == r
  {
    PendingKnown(w.registry, id);
  }

  /** The event brings the fact about. */
  ghost predicate Brings(w: World, e: Event, f: Fact) {
    match f
    case Issued(id, token) => e.PairRequested? && e.id == id && e.token == token && id !in w.used
    case Approved(id) => e.ApproveCalled? && e.id == id && exists q :: q in w.registry.pending && q.requestId == id
    case Granted(id, permissions) => e == PermissionsCalled(id, permissions) && id in w.registry.trusted
    case Stored(id, token) => e.StoreCalled? && e.id == id && e.token == token
    case Revoked(id) => e == RevokeSessionCalled(id) || (e == RevokeCalled(id) && id in w.registry.trusted)
  }

  ghost predicate WasBrought(es: seq<Event>, f: Fact) {
    exists k :: 0 <= k < |es| && Brings(Run(es[..k]), es[k], f)
  }

  lemma WasBroughtPush(es: seq<Event>, f: Fact)
    requires es != []
    ensures var n := |es| - 1;
            WasBrought(es, f) <==> WasBrought(es[..n], f) || Brings(Run(es[..n]), es[n], f)
  {
    hide Run, Brings;
    var n := |es| - 1;
    forall k | 0 <= k < n ensures Brings(Run(es[..n][..k]), es[..n][k], f) == Brings(Run(es[..k]), es[k], f) {
      assert es[..n][..k] == es[..k];
    }
    if WasBrought(es[..n], f) {
      var k :| 0 <= k < n && Brings(Run(es[..n][..k]), es[..n][k], f);
      assert Brings(Run(es[..k]), es[k], f);
    }
  }

  /** In every run the history holds a fact if and only if a call brought it about. */
  lemma {:induction false} FactsExactly(es: seq<Event>, f: Fact)
    ensures f in Run(es).facts <==> WasBrought(es, f)
  {
    hide Step, Brings;
    if es != [] {
      FactsExactly(es[..|es| - 1], f);
      FactsStep(Run(es[..|es| - 1]), es[|es| - 1], f);
      WasBroughtPush(es, f);
    }
  }

  lemma FactsStep(w: World, e: Event, f: Fact)
    ensures f in Step(w, e).facts <==> f in w.facts || Brings(w, e, f)
  {
    if e.ApproveCalled? { PendingKnown(w.registry, e.id); }
  }

  ghost predicate CollisionFree<D(!new)>(hash: string -> D) {
    forall a, b :: hash(a) == hash(b) ==> a == b
  }

  /** The last that happened to the id, of approval and revocation, was its approval. */
  predicate StandsApproved(facts: seq<Fact>, id: Id) {
    facts != [] &&
    var last := facts[|facts| - 1];
    last == Approved(id) || (last != Revoked(id) && StandsApproved(facts[..|facts| - 1], id))
  }

  /** In every run the trusted devices are exactly those that stand approved. */
  lemma {:induction false} TrustedExactly(es: seq<Event>, id: Id)
    ensures id in Run(es).registry.trusted <==> StandsApproved(Run(es).facts, id)
  {
    if es != [] {
      TrustedExactly(es[..|es| - 1], id);
      TrustedStep(Run(es[..|es| - 1]), es[|es| - 1], id);
    }
  }

  lemma StandsPush(facts: seq<Fact>, f: Fact, id: Id)
    ensures StandsApproved(facts + [f], id) <==> f == Approved(id) || (f != Revoked(id) && StandsApproved(facts, id))
  {
    assert (facts + [f])[..|facts|] == facts;
  }

  lemma TrustedStep(w: World, e: Event, id: Id)
    requires id in w.registry.trusted <==> StandsApproved(w.facts, id)
    ensures id in Step(w, e).registry.trusted <==> StandsApproved(Step(w, e).facts, id)
  {
    hide StandsApproved, IsPending, Known, Unexpired, IndexOf, ShownName;
    match e
    case PairRequested(x, _, token) => StandsPush(w.facts, Issued(x, token), id);
    case ApproveCalled(x, _, _) => StandsPush(w.facts, Approved(x), id);
    case RevokeCalled(x) => StandsPush(w.facts, Revoked(x), id);
    case PermissionsCalled(x, permissions) => StandsPush(w.facts, Granted(x, permissions), id);
    case StoreCalled(x, token, _) => StandsPush(w.facts, Stored(x, token), id);
    case RevokeSessionCalled(x) => StandsPush(w.facts, Revoked(x), id);
    case Pruned =>
    case Tick(_) =>
  }

  /** In every run with a collision-free hash, a token passes exactly when the id was
      approved, was never revoked, and the token is the nonempty one most recently issued or
      stored for it; and it yields exactly the permissions last granted. */
  lemma VerifiesExactly<D(!new)>(es: seq<Event>, hash: string -> D, id: Id, token: string)
    requires CollisionFree(hash)
    ensures var w := Run(es);
            VerifyToken(w.registry, hash, id, token) ==
            if && WasApproved(w.facts, id) && !WasRevoked(w.facts, id)
               && LastToken(w.facts, id) == Some(token) && token != ""
            then Some(LastGrant(w.facts, id)) else None
  {
    hide LastToken, LastGrant, Run;
    var w := Run(es);
    var r := w.registry;
    AlwaysRegistryOk(es);
    assert EntryOk(w, id);
    if id in r.trusted && id !in r.revoked {
      var entry := r.trusted[id];
      PendingKnown(r, id);
      assert !IsPending(r, id);
      assert (entry.salt + token)[|entry.salt|..] == token && (entry.salt + entry.token)[|entry.salt|..] == entry.token;
    }
  }

  // ---------------------------------------------------------------- the object

  /** A trusted device's entry, shared between the registry and whoever approved it. */
  class TrustedDevice {
    const deviceId: Id
    const sessionId: Id
    const name: string
    var permissions: seq<Permission>
    var token: string
    var salt: string

    constructor (id: Id, name: string, token: string, salt: string)
      ensures Snapshot() == DeviceEntry(id, id, name, DEFAULT_PERMISSIONS, token, salt)
    {
      this.deviceId, this.sessionId, this.name, this.token, this.salt := id, id, name, token, salt;
      permissions := DEFAULT_PERMISSIONS;
    }

    function Snapshot(): DeviceEntry
      reads this
    {
      DeviceEntry(deviceId, sessionId, name, permissions, token, salt)
    }
  }

  class DeviceTable {
    var trusted: map<Id, TrustedDevice>
    var pending: seq<PendingRequest>
    var revokedSessions: set<Id>
    var pairingTokens: map<Id, string>

    /** No two ids share an entry. */
    ghost predicate Valid()
      reads this
    {
      forall a, b :: a in trusted && b in trusted && a != b ==> trusted[a] != trusted[b]
    }

    /** What the entries say now, whoever changed them. */
    ghost function Entries(): map<Id, DeviceEntry>
      reads this, trusted.Values
    {
      map id | id in trusted :: trusted[id].Snapshot()
    }

    ghost function View(): Registry
      reads this, trusted.Values
    {
      Registry(Entries(), pending, revokedSessions, pairingTokens)
    }

    constructor ()
      ensures Valid() && View() == EMPTY.registry
    {
      trusted, pending, revokedSessions, pairingTokens := map[], [], {}, map[];
    }

    method PrunePending(now: nat)
      requires Valid()
      modifies this`pending
      ensures Valid() && View() == old(View()).(pending := Unexpired(old(pending), now))
    {
      var i := 0;
      assert pending[0..] == pending;
      while i < |pending|
        invariant 0 <= i <= |pending|
        invariant pending[..i] + Unexpired(pending[i..], now) == Unexpired(old(pending), now)
        decreases |pending| - i
      {
        ghost var before := pending;
        if now > pending[i].expiresAt {
          pending := RemoveAt(pending, i);
          assert pending[..i] == before[..i] && pending[i..] == before[i + 1..] == before[i..][1..];
        } else {
          i := i + 1;
          assert pending[..i] == pending[..i - 1] + [pending[i - 1]] && pending[i..] == pending[i - 1..][1..];
        }
      }
      assert pending[..i] == pending;
    }

    /** Only the newest five requests survive; `id` and `token` are fresh random strings. */
    method Request(id: Id, name: string, token: string, now: nat)
      requires Valid()
      modifies this`pending, this`pairingTokens
      ensures Valid() && View() == RequestPair(old(View()), id, name, token, now)
      ensures old(|pending|) <= MAX_PENDING ==> |pending| <= MAX_PENDING
    {
      if |pending| >= MAX_PENDING {
        pairingTokens := pairingTokens - {pending[0].requestId};
        pending := pending[1..];
      }
      var shown := if name == "" then "Unknown device" else name;
      pending := pending + [PendingRequest(id, shown, now + PENDING_TTL_MS)];
      pairingTokens := pairingTokens[id := token];
    }

    /** Returns the stored entry itself: what the caller later does to it, the registry sees. */
    method ApproveDevice(id: Id, spare: string, salt: string) returns (entry: TrustedDevice?)
      requires Valid()
      modifies this
      ensures Valid()
      ensures entry != null <==> old(IsPending(View(), id))
      ensures View() == if entry != null then Approve(old(View()), id, spare, salt) else old(View())
      ensures entry != null ==> fresh(entry) && id in trusted && trusted[id] == entry
    {
      var i := IndexOf(pending, id);
      if i == |pending| { return null; }
      var token := if id in pairingTokens then pairingTokens[id] else spare;
      var device := new TrustedDevice(id, pending[i].clientName, token, salt);
      trusted := trusted[id := device];
      pending := RemoveAt(pending, i);
      pairingTokens := pairingTokens - {id};
      assert Entries() == old(Entries())[id := device.Snapshot()];
      return device;
    }

    method RevokeDevice(id: Id)
      requires Valid()
      modifies this
      ensures Valid() && View() == if id in old(trusted) then Revoke(old(View()), id) else old(View())
    {
      if id !in trusted { return; }
      var sessionId := trusted[id].sessionId;
      revokedSessions := revokedSessions + {sessionId};
      trusted := trusted - {id};
      pairingTokens := pairingTokens - {sessionId};
      assert Entries() == old(Entries()) - {id};
    }

    method Grant(id: Id, permissions: seq<Permission>) returns (ok: bool)
      requires Valid()
      modifies if id in trusted then {trusted[id]} else {}
      ensures Valid() && (ok <==> id in old(trusted))
      ensures View() == if ok then SetPermissions(old(View()), id, permissions) else old(View())
    {
      if id !in trusted { return false; }
      var entry := trusted[id];
      entry.permissions := Known(permissions);
      assert Entries() == old(Entries())[id := entry.Snapshot()];
      return true;
    }

    /** `verifyToken` of the AuthStore adapter. */
    method CheckToken<D(==)>(hash: string -> D, id: Id, token: string) returns (granted: Option<seq<Permission>>)
      requires Valid()
      ensures granted == VerifyToken(View(), hash, id, token)
    {
      if id in revokedSessions || id !in trusted { return None; }
      var entry := trusted[id];
      var expected := entry.token;
      if expected == "" && IndexOf(pending, id) < |pending| && id in pairingTokens { expected := pairingTokens[id]; }
      if expected == "" { return None; }
      var matches: bool;
      if entry.salt != "" {
        matches := hash(entry.salt + token) == hash(entry.salt + expected);
      } else {
        matches := expected == token;
      }
      return if matches then Some(entry.permissions) else None;
    }

    method StoreToken(id: Id, token: string, salt: string)
      requires Valid()
      modifies this`pairingTokens, if id in trusted then {trusted[id]} else {}
      ensures Valid() && View() == StoreSession(old(View()), id, token, salt)
    {
      if id in trusted {
        var entry := trusted[id];
        entry.token, entry.salt := token, salt;
        assert Entries() == old(Entries())[id := entry.Snapshot()];
      } else if IndexOf(pending, id) < |pending| {
        pairingTokens := pairingTokens[id := token];
      }
    }

    method RevokeToken(id: Id)
      requires Valid()
      modifies this`trusted, this`revokedSessions
      ensures Valid() && View() == RevokeSession(old(View()), id)
    {
      revokedSessions := revokedSessions + {id};
      if id in trusted { trusted := trusted - {id}; }
      assert Entries() == old(Entries()) - {id};
    }
  }
}
