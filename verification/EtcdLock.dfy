/**
 * The shard lock: a key in etcd held through a lease, seen by many nodes.
 *
 * Every await of `ShardLock::grant`, `revoke` and `Lease::keep_alive_once` is a point where other
 * steps run, so the protocol is a state machine. Messages are never removed from the network:
 * a message may be lost (never delivered), delayed, delivered twice or out of order. One clock,
 * in milliseconds, is shared by etcd and the nodes; leases and replies carry seconds.
 */
module EtcdLock {
  import opened Common
  import opened LockKey

  type NodeId = nat
  type LeaseId = int
  type Time = int

  /** A request is identified by its sender and a number the sender never reuses. */
  datatype RequestId = RequestId(node: NodeId, num: nat)

  datatype Message =
    | GrantReq(rid: RequestId)
    | GrantResp(rid: RequestId, lease: LeaseId, ttl: int, handledAt: Time)
    | TxnReq(rid: RequestId, key: string, lease: LeaseId)
    | TxnResp(rid: RequestId, succeeded: bool)
    | KeepAliveReq(lease: LeaseId)
    | KeepAliveResp(lease: LeaseId, ttl: int, handledAt: Time)
    | RevokeReq(lease: LeaseId)

  datatype LeaseRecord = LeaseRecord(ttl: int, expiry: Time)

  /** `lease` put `key` at time `at` in a create-if-absent transaction. */
  datatype Acquisition = Acquisition(key: string, lease: LeaseId, at: Time)

  /** etcd: live leases and keys, and what happened so far (`issued`, `died`, `revoked`, `acquired`). */
  datatype Server = Server(
    leases: map<LeaseId, LeaseRecord>,
    keys: map<string, LeaseId>,
    issued: map<LeaseId, RequestId>,
    died: map<LeaseId, Time>,
    revoked: set<LeaseId>,
    acquired: seq<Acquisition>)

  /** Where a node is inside `grant`; `grant_lock` and `revoke_lock` exclude each other on a node. */
  datatype Control =
    | Idle
    | AwaitGrant(shard: ShardId, rid: RequestId)
    | AwaitTxn(shard: ShardId, rid: RequestId, lease: LeaseId, ttl: int, grantedAt: Time)

  /**
   * A node: the lease of each shard lock, the local expiry of every lease object it still refers
   * to, the leases it ever took from a grant reply, and its request counter.
   */
  datatype Node = Node(
    control: Control,
    locks: map<ShardId, LeaseId>,
    expiredAt: map<LeaseId, Time>,
    used: set<LeaseId>,
    nextRequest: nat)

  datatype State = State(now: Time, prefix: string, server: Server, nodes: map<NodeId, Node>, net: set<Message>)

  datatype Action =
    | Tick(dt: nat)
    | StartGrant(node: NodeId, shard: ShardId)
    | OnGrantResp(node: NodeId, msg: Message)
    | OnTxnResp(node: NodeId, msg: Message)
    | FailRpc(node: NodeId)
    | SendKeepAlive(node: NodeId, lease: LeaseId)
    | OnKeepAliveResp(node: NodeId, msg: Message)
    | Revoke(node: NodeId, shard: ShardId)
    | Crash(node: NodeId)
    | EtcdGrant(msg: Message, lease: LeaseId, ttl: int)
    | EtcdTxn(msg: Message)
    | EtcdKeepAlive(msg: Message)
    | EtcdRevoke(msg: Message)
    | EtcdExpire(lease: LeaseId)

  function Millis(sec: int): int { 1000 * sec }

  function ShardKey(s: State, shard: ShardId): string { Key(s.prefix, shard) }

  /** `ShardLock::is_valid`: there is a lease and its local expiry is not in the past. */
  predicate IsValid(s: State, n: NodeId, shard: ShardId) {
    n in s.nodes && shard in s.nodes[n].locks &&
    s.nodes[n].locks[shard] in s.nodes[n].expiredAt &&
    !(s.nodes[n].expiredAt[s.nodes[n].locks[shard]] < s.now)
  }

  // ---------------------------------------------------------------------------
  // etcd
  // ---------------------------------------------------------------------------

  /** Removing a lease removes the keys attached to it. */
  function DropLease(sv: Server, l: LeaseId, now: Time): Server {
    sv.(leases := sv.leases - {l},
        keys := map k | k in sv.keys && sv.keys[k] != l :: sv.keys[k],
        died := sv.died[l := now])
  }

  function Issue(sv: Server, l: LeaseId, rid: RequestId, ttl: int, now: Time): Server {
    sv.(leases := sv.leases[l := LeaseRecord(ttl, now + Millis(ttl))], issued := sv.issued[l := rid])
  }

  function Renew(sv: Server, l: LeaseId, now: Time): Server
    requires l in sv.leases
  {
    sv.(leases := sv.leases[l := LeaseRecord(sv.leases[l].ttl, now + Millis(sv.leases[l].ttl))])
  }

  /** Create the key if its version is 0; a put with a dead lease is refused. */
  function TryPut(sv: Server, key: string, l: LeaseId, now: Time): Server {
    if key !in sv.keys && l in sv.leases
    then sv.(keys := sv.keys[key := l], acquired := sv.acquired + [Acquisition(key, l, now)])
    else sv
  }

  // ---------------------------------------------------------------------------
  // Steps
  // ---------------------------------------------------------------------------

  predicate Guard(s: State, a: Action) {
    match a
    case Tick(_) => true
    case StartGrant(n, shard) => n in s.nodes && s.nodes[n].control == Idle && !IsValid(s, n, shard)
    case OnGrantResp(n, m) =>
      n in s.nodes && m in s.net && m.GrantResp? &&
      s.nodes[n].control.AwaitGrant? && s.nodes[n].control.rid == m.rid
    case OnTxnResp(n, m) =>
      n in s.nodes && m in s.net && m.TxnResp? &&
      s.nodes[n].control.AwaitTxn? && s.nodes[n].control.rid == m.rid
    case FailRpc(n) => n in s.nodes && s.nodes[n].control != Idle
    case SendKeepAlive(n, l) => n in s.nodes && l in s.nodes[n].expiredAt
    case OnKeepAliveResp(n, m) =>
      n in s.nodes && m in s.net && m.KeepAliveResp? && m.lease in s.nodes[n].expiredAt
    case Revoke(n, shard) => n in s.nodes && s.nodes[n].control == Idle && shard in s.nodes[n].locks
    case Crash(n) => n in s.nodes
    case EtcdGrant(m, l, _) => m in s.net && m.GrantReq? && l !in s.server.issued
    case EtcdTxn(m) => m in s.net && m.TxnReq?
    case EtcdKeepAlive(m) => m in s.net && m.KeepAliveReq?
    case EtcdRevoke(m) => m in s.net && m.RevokeReq?
    case EtcdExpire(l) => l in s.server.leases && s.server.leases[l].expiry <= s.now
  }

  function WithNode(s: State, n: NodeId, node: Node, sent: set<Message>): State {
    s.(nodes := s.nodes[n := node], net := s.net + sent)
  }

  function Exec(s: State, a: Action): State
    requires Guard(s, a)
  {
    match a
    case Tick(dt) => s.(now := s.now + dt)
    case StartGrant(n, shard) =>
      var node := s.nodes[n];
      var rid := RequestId(n, node.nextRequest);
      WithNode(s, n, node.(control := AwaitGrant(shard, rid), nextRequest := node.nextRequest + 1), {GrantReq(rid)})
    case OnGrantResp(n, m) =>
      var node := s.nodes[n];
      var rid := RequestId(n, node.nextRequest);
      if m.ttl > 0 then
        WithNode(s, n,
                 node.(control := AwaitTxn(node.control.shard, rid, m.lease, m.ttl, m.handledAt),
                       used := node.used + {m.lease},
                       nextRequest := node.nextRequest + 1),
                 {TxnReq(rid, ShardKey(s, node.control.shard), m.lease)})
      else
        WithNode(s, n, node.(control := Idle), {})
    case OnTxnResp(n, m) =>
      var node := s.nodes[n];
      var c := node.control;
      if m.succeeded then
        WithNode(s, n,
                 node.(control := Idle,
                       locks := node.locks[c.shard := c.lease],
                       expiredAt := node.expiredAt[c.lease := s.now + Millis(c.ttl)]),
                 {})
      else
        WithNode(s, n, node.(control := Idle), {})
    case FailRpc(n) => WithNode(s, n, s.nodes[n].(control := Idle), {})
    case SendKeepAlive(n, l) => WithNode(s, n, s.nodes[n], {KeepAliveReq(l)})
    case OnKeepAliveResp(n, m) =>
      var node := s.nodes[n];
      if m.ttl <= 0 then s
      else WithNode(s, n, node.(expiredAt := node.expiredAt[m.lease := s.now + Millis(m.ttl)]), {})
    case Revoke(n, shard) =>
      var node := s.nodes[n];
      WithNode(s, n, node.(locks := node.locks - {shard}), {RevokeReq(node.locks[shard])})
    case Crash(n) =>
      WithNode(s, n, s.nodes[n].(control := Idle, locks := map[], expiredAt := map[]), {})
    case EtcdGrant(m, l, ttl) =>
      s.(server := Issue(s.server, l, m.rid, ttl, s.now),
         net := s.net + {GrantResp(m.rid, l, ttl, s.now)})
    case EtcdTxn(m) =>
      var sv := s.server;
      if m.key !in sv.keys && m.lease !in sv.leases then s
      else s.(server := TryPut(sv, m.key, m.lease, s.now), net := s.net + {TxnResp(m.rid, m.key !in sv.keys)})
    case EtcdKeepAlive(m) =>
      var sv := s.server;
      if m.lease in sv.leases then
        s.(server := Renew(sv, m.lease, s.now),
           net := s.net + {KeepAliveResp(m.lease, sv.leases[m.lease].ttl, s.now)})
      else
        s.(net := s.net + {KeepAliveResp(m.lease, 0, s.now)})
    case EtcdRevoke(m) =>
      if m.lease in s.server.leases
      then s.(server := DropLease(s.server, m.lease, s.now).(revoked := s.server.revoked + {m.lease}))
      else s
    case EtcdExpire(l) => s.(server := DropLease(s.server, l, s.now))
  }

  /**
   * The delay bound: when a node sets a local expiry from a reply, etcd handled the request for
   * that reply (the lease grant or the keepalive) at most `d` ago.
   */
  predicate Prompt(d: nat, s: State, a: Action)
    requires Guard(s, a)
  {
    match a
    case OnTxnResp(n, m) => m.succeeded ==> s.now <= s.nodes[n].control.grantedAt + d
    case OnKeepAliveResp(n, m) => m.ttl > 0 ==> s.now <= m.handledAt + d
    case _ => true
  }

  predicate Enabled(d: nat, s: State, a: Action) { Guard(s, a) && Prompt(d, s, a) }

  const FRESH_NODE := Node(Idle, map[], map[], {}, 0)

  predicate Init(s: State) {
    && s.server == Server(map[], map[], map[], map[], {}, [])
    && (forall n :: n in s.nodes ==> s.nodes[n] == FRESH_NODE)
    && s.net == {}
  }

  /** Every step of the run is enabled in the state the earlier steps lead to. */
  predicate IsRun(d: nat, s: State, run: seq<Action>)
    decreases |run|
  {
    run == [] || (Enabled(d, s, run[0]) && IsRun(d, Exec(s, run[0]), run[1..]))
  }

  /** The state after a run. */
  function After(d: nat, s: State, run: seq<Action>): State
    requires IsRun(d, s, run)
    decreases |run|
  {
    if run == [] then s else After(d, Exec(s, run[0]), run[1..])
  }

  // ---------------------------------------------------------------------------
  // Invariant
  // ---------------------------------------------------------------------------

  ghost predicate ServerInv(sv: Server, now: Time) {
    && sv.issued.Keys == sv.leases.Keys + sv.died.Keys
    && sv.leases.Keys !! sv.died.Keys
    && (forall l :: l in sv.leases ==> sv.leases[l].expiry <= now + Millis(sv.leases[l].ttl))
    && (forall l :: l in sv.died ==> sv.died[l] <= now)
    && (forall k :: k in sv.keys ==> sv.keys[k] in sv.leases)
    && (forall i :: 0 <= i < |sv.acquired| ==>
          sv.acquired[i].lease in sv.issued && sv.acquired[i].at <= now)
    && (forall i :: 0 <= i < |sv.acquired| && sv.acquired[i].lease in sv.leases ==>
          sv.acquired[i].key in sv.keys && sv.keys[sv.acquired[i].key] == sv.acquired[i].lease)
  }

  /** Successive owners of one key: the earlier lease is dead when the later one takes the key. */
  ghost predicate HandoverInv(sv: Server) {
    forall i, j :: 0 <= i < j < |sv.acquired| && sv.acquired[i].key == sv.acquired[j].key ==>
      sv.acquired[i].lease in sv.died && sv.died[sv.acquired[i].lease] <= sv.acquired[j].at
  }

  /** The lease lives until `until` or longer, unless it is revoked. */
  ghost predicate Covers(sv: Server, l: LeaseId, until: Time) {
    || (l in sv.leases && until <= sv.leases[l].expiry)
    || (l in sv.died && (l in sv.revoked || until <= sv.died[l]))
  }

  ghost predicate Acquired(sv: Server, key: string, l: LeaseId) {
    exists i :: 0 <= i < |sv.acquired| && sv.acquired[i].key == key && sv.acquired[i].lease == l
  }

  ghost predicate MessageInv(s: State, m: Message) {
    match m
    case GrantReq(rid) => true
    case GrantResp(rid, l, ttl, at) =>
      && l in s.server.issued && s.server.issued[l] == rid
      && (ttl > 0 ==> Covers(s.server, l, at + Millis(ttl)))
    case TxnReq(rid, _, _) => rid.node in s.nodes && rid.num < s.nodes[rid.node].nextRequest
    case TxnResp(rid, ok) =>
      ok ==> exists key, l :: TxnReq(rid, key, l) in s.net && Acquired(s.server, key, l)
    case KeepAliveReq(_) => true
    case KeepAliveResp(l, ttl, at) => ttl > 0 ==> Covers(s.server, l, at + Millis(ttl))
    case RevokeReq(l) =>
      && l in s.server.issued && s.server.issued[l].node in s.nodes
      && Retired(s.nodes[s.server.issued[l].node], l)
  }

  /** The node took the lease once and is done with it. */
  ghost predicate Retired(node: Node, l: LeaseId) {
    && l in node.used
    && l !in node.locks.Values
    && (node.control.AwaitTxn? ==> node.control.lease != l)
  }

  ghost predicate TxnReqsDistinct(net: set<Message>) {
    forall m1, m2 :: m1 in net && m2 in net && m1.TxnReq? && m2.TxnReq? && m1.rid == m2.rid ==> m1 == m2
  }

  ghost predicate RevocationsRequested(sv: Server, net: set<Message>) {
    forall l :: l in sv.revoked ==> RevokeReq(l) in net
  }

  ghost predicate NetInv(s: State) {
    && (forall m :: m in s.net ==> MessageInv(s, m))
    && TxnReqsDistinct(s.net)
    && RevocationsRequested(s.server, s.net)
  }

  ghost predicate ControlInv(prefix: string, sv: Server, net: set<Message>, n: NodeId, node: Node) {
    match node.control
    case Idle => true
    case AwaitGrant(_, rid) =>
      && rid.node == n && rid.num < node.nextRequest
      && (forall l :: l in node.used && l in sv.issued ==> sv.issued[l] != rid)
    case AwaitTxn(shard, rid, l, ttl, at) =>
      && l in node.used && l !in node.locks.Values
      && TxnReq(rid, Key(prefix, shard), l) in net
      && ttl > 0 && Covers(sv, l, at + Millis(ttl))
  }

  ghost predicate UsedInv(sv: Server, n: NodeId, node: Node) {
    forall l :: l in node.used ==>
      l in sv.issued && sv.issued[l].node == n && sv.issued[l].num < node.nextRequest
  }

  ghost predicate LocksInv(prefix: string, sv: Server, node: Node) {
    && (forall sh :: sh in node.locks ==>
          node.locks[sh] in node.used && Acquired(sv, Key(prefix, sh), node.locks[sh]))
    && (forall s1, s2 :: s1 in node.locks && s2 in node.locks && node.locks[s1] == node.locks[s2] ==> s1 == s2)
  }

  ghost predicate ExpiryInv(d: nat, sv: Server, node: Node) {
    forall l :: l in node.expiredAt ==> Covers(sv, l, node.expiredAt[l] - d)
  }

  ghost predicate NodeOk(d: nat, prefix: string, sv: Server, net: set<Message>, n: NodeId, node: Node) {
    && ControlInv(prefix, sv, net, n, node)
    && UsedInv(sv, n, node)
    && LocksInv(prefix, sv, node)
    && ExpiryInv(d, sv, node)
  }

  ghost predicate NodeInv(d: nat, s: State, n: NodeId)
    requires n in s.nodes
  {
    NodeOk(d, s.prefix, s.server, s.net, n, s.nodes[n])
  }

  ghost predicate Inv(d: nat, s: State) {
    && ServerInv(s.server, s.now) && HandoverInv(s.server)
    && NetInv(s)
    && (forall n :: n in s.nodes ==> NodeInv(d, s, n))
  }

  // ---------------------------------------------------------------------------
  // Every step keeps the invariant
  // ---------------------------------------------------------------------------

  /** What etcd may do to its records: leases are renewed, die for good, and acquisitions accumulate. */
  ghost predicate ServerGrows(sv: Server, sv': Server) {
    && (forall l :: l in sv.issued ==> l in sv'.issued && sv'.issued[l] == sv.issued[l])
    && (forall l :: l in sv.died ==> l in sv'.died && sv'.died[l] == sv.died[l])
    && sv.revoked <= sv'.revoked
    && sv.acquired <= sv'.acquired
    && (forall l :: l in sv.leases ==>
          || (l in sv'.leases && sv.leases[l].expiry <= sv'.leases[l].expiry)
          || (l in sv'.died && (l in sv'.revoked || sv.leases[l].expiry <= sv'.died[l])))
  }

  lemma AcquiredPersists(sv: Server, sv': Server, key: string, l: LeaseId)
    requires sv.acquired <= sv'.acquired && Acquired(sv, key, l)
    ensures Acquired(sv', key, l)
  {
  }

  ghost predicate ServerStepOk(sv: Server, now: Time, sv': Server, now': Time) {
    ServerInv(sv', now') && HandoverInv(sv') && ServerGrows(sv, sv')
  }

  lemma IssueOk(sv: Server, l: LeaseId, rid: RequestId, ttl: int, now: Time)
    requires ServerInv(sv, now) && HandoverInv(sv) && l !in sv.issued
    ensures ServerStepOk(sv, now, Issue(sv, l, rid, ttl, now), now)
  {
  }

  lemma RenewOk(sv: Server, l: LeaseId, now: Time)
    requires ServerInv(sv, now) && HandoverInv(sv) && l in sv.leases
    ensures ServerStepOk(sv, now, Renew(sv, l, now), now)
  {
  }

  lemma DropLeaseOk(sv: Server, l: LeaseId, now: Time, revoked: set<LeaseId>)
    requires ServerInv(sv, now) && HandoverInv(sv) && l in sv.leases
    requires sv.revoked <= revoked && (l in revoked || sv.leases[l].expiry <= now)
    ensures ServerStepOk(sv, now, DropLease(sv, l, now).(revoked := revoked), now)
  {
  }

  lemma TryPutOk(sv: Server, key: string, l: LeaseId, now: Time)
    requires ServerInv(sv, now) && HandoverInv(sv)
    ensures ServerStepOk(sv, now, TryPut(sv, key, l, now), now)
  {
  }

  /** The server part of a step. */
  lemma ServerStep(s: State, a: Action)
    requires ServerInv(s.server, s.now) && HandoverInv(s.server) && Guard(s, a)
    ensures ServerStepOk(s.server, s.now, Exec(s, a).server, Exec(s, a).now)
  {
    match a
    case EtcdGrant(m, l, ttl) => IssueOk(s.server, l, m.rid, ttl, s.now);
    case EtcdKeepAlive(m) => if m.lease in s.server.leases { RenewOk(s.server, m.lease, s.now); }
    case EtcdRevoke(m) =>
      if m.lease in s.server.leases { DropLeaseOk(s.server, m.lease, s.now, s.server.revoked + {m.lease}); }
    case EtcdExpire(l) => DropLeaseOk(s.server, l, s.now, s.server.revoked);
    case EtcdTxn(m) => TryPutOk(s.server, m.key, m.lease, s.now);
    case _ => assert Exec(s, a).server == s.server && s.now <= Exec(s, a).now;
  }

  lemma NodeFrame(d: nat, prefix: string, sv: Server, net: set<Message>, sv': Server, net': set<Message>, n: NodeId, node: Node)
    requires NodeOk(d, prefix, sv, net, n, node)
    requires net <= net' && ServerGrows(sv, sv')
    ensures NodeOk(d, prefix, sv', net', n, node)
  {
    forall sh | sh in node.locks ensures Acquired(sv', Key(prefix, sh), node.locks[sh]) {
      AcquiredPersists(sv, sv', Key(prefix, sh), node.locks[sh]);
    }
  }

  ghost predicate NodesAdvance(s: State, s': State) {
    forall n :: n in s.nodes ==> n in s'.nodes && s.nodes[n].nextRequest <= s'.nodes[n].nextRequest
  }

  // The acting node, one lemma per kind of step that changes it.

  lemma GrantRespStep(d: nat, s: State, n: NodeId, m: Message)
    requires Inv(d, s) && Guard(s, OnGrantResp(n, m))
    ensures NodeInv(d, Exec(s, OnGrantResp(n, m)), n)
  {
    var node, s' := s.nodes[n], Exec(s, OnGrantResp(n, m));
    var node' := s'.nodes[n];
    assert MessageInv(s, m) && NodeInv(d, s, n);
    NodeFrame(d, s.prefix, s.server, s.net, s.server, s'.net, n, node);
    assert m.lease !in node.used;
    assert node'.locks == node.locks && node'.expiredAt == node.expiredAt;
    assert ControlInv(s.prefix, s.server, s'.net, n, node');
  }

  /** Installing an acquired lease as the lock of a shard. */
  lemma InstallOk(d: nat, prefix: string, sv: Server, net: set<Message>, n: NodeId, node: Node, now: Time)
    requires NodeOk(d, prefix, sv, net, n, node) && node.control.AwaitTxn?
    requires Acquired(sv, Key(prefix, node.control.shard), node.control.lease)
    requires now <= node.control.grantedAt + d
    ensures var c := node.control;
            NodeOk(d, prefix, sv, net, n,
                   node.(control := Idle,
                         locks := node.locks[c.shard := c.lease],
                         expiredAt := node.expiredAt[c.lease := now + Millis(c.ttl)]))
  {
  }

  lemma TxnRespStep(d: nat, s: State, n: NodeId, m: Message)
    requires Inv(d, s) && Enabled(d, s, OnTxnResp(n, m))
    ensures NodeInv(d, Exec(s, OnTxnResp(n, m)), n)
  {
    var node := s.nodes[n];
    assert MessageInv(s, m) && NodeInv(d, s, n);
    assert Exec(s, OnTxnResp(n, m)).net == s.net;
    var c := node.control;
    if m.succeeded {
      var key, l :| TxnReq(m.rid, key, l) in s.net && Acquired(s.server, key, l);
      assert TxnReq(m.rid, key, l) == TxnReq(c.rid, Key(s.prefix, c.shard), c.lease);
      InstallOk(d, s.prefix, s.server, s.net, n, node, s.now);
    }
  }

  lemma KeepAliveRespStep(d: nat, s: State, n: NodeId, m: Message)
    requires Inv(d, s) && Enabled(d, s, OnKeepAliveResp(n, m))
    ensures NodeInv(d, Exec(s, OnKeepAliveResp(n, m)), n)
  {
  }

  lemma QuietNodeStep(d: nat, s: State, a: Action, n: NodeId)
    requires Inv(d, s) && Guard(s, a) && n in s.nodes
    requires a == FailRpc(n) || a == Crash(n) || (a.StartGrant? && a.node == n) || (a.Revoke? && a.node == n)
    ensures NodeInv(d, Exec(s, a), n)
  {
    assert NodeInv(d, s, n);
  }

  predicate ActsOn(a: Action, n: NodeId) {
    (a.StartGrant? || a.OnGrantResp? || a.OnTxnResp? || a.FailRpc? || a.OnKeepAliveResp? || a.Revoke? || a.Crash?) && a.node == n
  }

  lemma OtherNode(s: State, a: Action, n: NodeId)
    requires Guard(s, a) && n in s.nodes && !ActsOn(a, n)
    ensures n in Exec(s, a).nodes && Exec(s, a).nodes[n] == s.nodes[n]
    ensures Exec(s, a).prefix == s.prefix && s.net <= Exec(s, a).net
  {
  }

  lemma NodeStep(d: nat, s: State, a: Action, n: NodeId)
    requires Inv(d, s) && Enabled(d, s, a) && n in s.nodes
    ensures n in Exec(s, a).nodes && NodeInv(d, Exec(s, a), n)
  {
    if !ActsOn(a, n) {
      var s' := Exec(s, a);
      ServerStep(s, a);
      OtherNode(s, a, n);
      NodeFrame(d, s.prefix, s.server, s.net, s'.server, s'.net, n, s.nodes[n]);
    } else {
      match a
      case OnGrantResp(_, m) => GrantRespStep(d, s, n, m);
      case OnTxnResp(_, m) => TxnRespStep(d, s, n, m);
      case OnKeepAliveResp(_, m) => KeepAliveRespStep(d, s, n, m);
      case _ => QuietNodeStep(d, s, a, n);
    }
  }

  lemma RetiredGrantResp(d: nat, s: State, n: NodeId, m: Message, l: LeaseId)
    requires Inv(d, s) && Guard(s, OnGrantResp(n, m)) && Retired(s.nodes[n], l)
    ensures Retired(Exec(s, OnGrantResp(n, m)).nodes[n], l)
  {
  }

  lemma RetiredTxnResp(s: State, n: NodeId, m: Message, l: LeaseId)
    requires Guard(s, OnTxnResp(n, m)) && Retired(s.nodes[n], l)
    ensures Retired(Exec(s, OnTxnResp(n, m)).nodes[n], l)
  {
  }

  /** A retired lease never comes back into a lock. */
  lemma RetiredStep(d: nat, s: State, a: Action, n: NodeId, l: LeaseId)
    requires Inv(d, s) && Guard(s, a) && n in s.nodes && Retired(s.nodes[n], l)
    ensures n in Exec(s, a).nodes && Retired(Exec(s, a).nodes[n], l)
  {
    match a
    case OnGrantResp(k, m) => if k == n { RetiredGrantResp(d, s, n, m, l); }
    case OnTxnResp(k, m) => if k == n { RetiredTxnResp(s, n, m, l); }
    case Revoke(k, shard) => assert (s.nodes[k].locks - {shard}).Values <= s.nodes[k].locks.Values;
    case _ =>
  }

  lemma RevokeReqStep(d: nat, s: State, a: Action, m: Message)
    requires Inv(d, s) && Guard(s, a) && m in s.net && m.RevokeReq?
    ensures MessageInv(Exec(s, a), m)
  {
    assert MessageInv(s, m);
    RetiredStep(d, s, a, s.server.issued[m.lease].node, m.lease);
    ServerStep(s, a);
  }

  lemma NewMessage(d: nat, s: State, a: Action, m: Message)
    requires Inv(d, s) && Enabled(d, s, a) && m in Exec(s, a).net && m !in s.net
    ensures MessageInv(Exec(s, a), m)
  {
    var s' := Exec(s, a);
    match a
    case EtcdTxn(t) =>
      if m.succeeded {
        var k := |s.server.acquired|;
        assert s'.server.acquired[k] == Acquisition(t.key, t.lease, s.now);
        assert TxnReq(t.rid, t.key, t.lease) in s'.net && Acquired(s'.server, t.key, t.lease);
      }
    case Revoke(n, shard) => assert NodeInv(d, s, n);
    case _ =>
  }

  lemma StepMonotone(s: State, a: Action)
    requires Guard(s, a)
    ensures s.net <= Exec(s, a).net && NodesAdvance(s, Exec(s, a))
  {
  }

  lemma OldMessage(d: nat, s: State, s': State, m: Message)
    requires NetInv(s) && m in s.net && !m.RevokeReq?
    requires s.net <= s'.net && NodesAdvance(s, s') && ServerGrows(s.server, s'.server)
    ensures MessageInv(s', m)
  {
  }

  lemma MessageStep(d: nat, s: State, a: Action, m: Message)
    requires Inv(d, s) && Enabled(d, s, a) && m in Exec(s, a).net
    ensures MessageInv(Exec(s, a), m)
  {
    if m !in s.net {
      NewMessage(d, s, a, m);
    } else if m.RevokeReq? {
      RevokeReqStep(d, s, a, m);
    } else {
      ServerStep(s, a);
      StepMonotone(s, a);
      OldMessage(d, s, Exec(s, a), m);
    }
  }

  lemma AddTxnReq(net: set<Message>, net': set<Message>, m: Message)
    requires TxnReqsDistinct(net) && net' == net + {m}
    requires m.TxnReq? ==> forall k :: k in net && k.TxnReq? ==> k.rid != m.rid
    ensures TxnReqsDistinct(net')
  {
  }

  lemma TxnReqsStayDistinct(d: nat, s: State, a: Action)
    requires Inv(d, s) && Enabled(d, s, a)
    ensures TxnReqsDistinct(Exec(s, a).net)
  {
    var net' := Exec(s, a).net;
    if m :| m in net' && m !in s.net {
      forall k | k in s.net && m.TxnReq? && k.TxnReq? ensures k.rid != m.rid { assert MessageInv(s, k); }
      assert net' == s.net + {m};
      AddTxnReq(s.net, net', m);
    } else {
      assert net' == s.net;
    }
  }

  lemma NetStep(d: nat, s: State, a: Action)
    requires Inv(d, s) && Enabled(d, s, a)
    ensures NetInv(Exec(s, a))
  {
    forall m | m in Exec(s, a).net ensures MessageInv(Exec(s, a), m) {
      MessageStep(d, s, a, m);
    }
    TxnReqsStayDistinct(d, s, a);
    assert RevocationsRequested(Exec(s, a).server, Exec(s, a).net);
  }

  lemma StepKeepsInv(d: nat, s: State, a: Action)
    requires Inv(d, s) && Enabled(d, s, a)
    ensures Inv(d, Exec(s, a))
  {
    ServerStep(s, a);
    NetStep(d, s, a);
    forall n | n in Exec(s, a).nodes ensures NodeInv(d, Exec(s, a), n) {
      NodeStep(d, s, a, n);
    }
  }

  lemma {:induction false} RunKeepsInv(d: nat, s: State, run: seq<Action>)
    requires Inv(d, s) && IsRun(d, s, run)
    ensures Inv(d, After(d, s, run))
    decreases |run|
  {
    if run != [] {
      StepKeepsInv(d, s, run[0]);
      RunKeepsInv(d, Exec(s, run[0]), run[1..]);
    }
  }

  lemma InitInv(d: nat, s: State)
    requires Init(s)
    ensures Inv(d, s)
  {
  }

  // ---------------------------------------------------------------------------
  // Runs
  // ---------------------------------------------------------------------------

  lemma {:induction false} RunAppend(d: nat, s: State, a: seq<Action>, b: seq<Action>)
    ensures IsRun(d, s, a + b) <==> IsRun(d, s, a) && IsRun(d, After(d, s, a), b)
    ensures IsRun(d, s, a + b) ==> After(d, s, a + b) == After(d, After(d, s, a), b)
    decreases |a|
  {
    if a == [] {
      assert a + b == b;
    } else {
      assert (a + b)[0] == a[0] && (a + b)[1..] == a[1..] + b;
      if Enabled(d, s, a[0]) {
        RunAppend(d, Exec(s, a[0]), a[1..], b);
      }
    }
  }

  lemma RunSnoc(d: nat, s: State, run: seq<Action>, a: Action)
    requires IsRun(d, s, run) && Enabled(d, After(d, s, run), a)
    ensures IsRun(d, s, run + [a]) && After(d, s, run + [a]) == Exec(After(d, s, run), a)
  {
    RunAppend(d, s, run, [a]);
    assert [a][1..] == [];
  }

  lemma {:induction false} AcquiredGrows(d: nat, s: State, run: seq<Action>)
    requires Inv(d, s) && IsRun(d, s, run)
    ensures s.server.acquired <= After(d, s, run).server.acquired
    ensures s.prefix == After(d, s, run).prefix
    decreases |run|
  {
    if run != [] {
      ServerStep(s, run[0]);
      StepKeepsInv(d, s, run[0]);
      AcquiredGrows(d, Exec(s, run[0]), run[1..]);
    }
  }

  /** A dead lease was alive in the state just before it died. */
  lemma {:induction false} DeadWasAlive(d: nat, s: State, run: seq<Action>, l: LeaseId) returns (j: nat)
    requires Inv(d, s) && IsRun(d, s, run)
    requires l !in s.server.died && l in After(d, s, run).server.died
    ensures j < |run| && IsRun(d, s, run[..j])
    ensures l in After(d, s, run[..j]).server.leases
    ensures After(d, s, run[..j]).now == After(d, s, run).server.died[l]
    decreases |run|
  {
    var k := |run| - 1;
    var init, last := run[..k], run[k];
    assert run == init + [last];
    RunAppend(d, s, init, [last]);
    var t := After(d, s, init);
    assert [last][1..] == [];
    assert After(d, s, run) == Exec(t, last);
    if l in t.server.died {
      assert t.server.died[l] == Exec(t, last).server.died[l] by {
        RunKeepsInv(d, s, init);
        ServerStep(t, last);
      }
      j := DeadWasAlive(d, s, init, l);
      assert init[..j] == run[..j];
    } else {
      j := k;
    }
  }

  // ---------------------------------------------------------------------------
  // Safety of the lock
  // ---------------------------------------------------------------------------

  lemma LockIsCovered(d: nat, s: State, n: NodeId, shard: ShardId)
    requires Inv(d, s) && IsValid(s, n, shard)
    ensures var l := s.nodes[n].locks[shard];
            && l in s.server.issued && s.server.issued[l].node == n
            && Acquired(s.server, ShardKey(s, shard), l)
            && IsRecent(d, s.server, s.now, l)
  {
    assert NodeInv(d, s, n);
    var l := s.nodes[n].locks[shard];
    assert RevokeReq(l) in s.net ==> MessageInv(s, RevokeReq(l));
  }

  /**
   * A node that is locally valid at time t had a live lease in etcd no earlier than t - d: some
   * state of the run so far, at time t - d or later, holds the lease behind the lock.
   */
  lemma ValidHadLiveLease(d: nat, s0: State, run: seq<Action>, n: NodeId, shard: ShardId)
    requires Init(s0) && IsRun(d, s0, run)
    requires IsValid(After(d, s0, run), n, shard)
    ensures var s := After(d, s0, run);
            exists j :: 0 <= j <= |run| && IsRun(d, s0, run[..j]) &&
                        s.nodes[n].locks[shard] in After(d, s0, run[..j]).server.leases &&
                        s.now - d <= After(d, s0, run[..j]).now
  {
    var s := After(d, s0, run);
    InitInv(d, s0);
    RunKeepsInv(d, s0, run);
    LockIsCovered(d, s, n, shard);
    var l := s.nodes[n].locks[shard];
    if l in s.server.leases {
      assert run[..|run|] == run;
    } else {
      var j := DeadWasAlive(d, s0, run, l);
    }
  }

  /**
   * After a create-if-absent transaction of another lease takes the key of a shard at time t, a
   * node that acquired the key earlier stays locally valid until t + d at the latest, whatever
   * happens in between (lost replies, failed revokes, crashes, new grants).
   */
  lemma TakeoverEndsOldLock(d: nat, s0: State, before: seq<Action>, m: Message, after: seq<Action>, n: NodeId, shard: ShardId)
    requires Init(s0) && IsRun(d, s0, before + [EtcdTxn(m)] + after)
    requires IsRun(d, s0, before)
    requires var s1 := After(d, s0, before);
             m.TxnReq? && m.key == ShardKey(s1, shard) && m.key !in s1.server.keys && m.lease in s1.server.leases
    requires var s1, s2 := After(d, s0, before), After(d, s0, before + [EtcdTxn(m)] + after);
             IsValid(s2, n, shard) && Acquired(s1.server, m.key, s2.nodes[n].locks[shard])
    ensures After(d, s0, before + [EtcdTxn(m)] + after).now <= After(d, s0, before).now + d
  {
    var s1 := After(d, s0, before);
    RunAppend(d, s0, before + [EtcdTxn(m)], after);
    RunAppend(d, s0, before, [EtcdTxn(m)]);
    var t := Exec(s1, EtcdTxn(m));
    assert [EtcdTxn(m)][1..] == [];
    assert After(d, s0, before + [EtcdTxn(m)]) == t;
    var s2 := After(d, t, after);
    InitInv(d, s0);
    RunKeepsInv(d, s0, before);
    StepKeepsInv(d, s1, EtcdTxn(m));
    RunKeepsInv(d, t, after);
    AcquiredGrows(d, t, after);
    LockIsCovered(d, s2, n, shard);
    var l := s2.nodes[n].locks[shard];
    var i :| 0 <= i < |s1.server.acquired| && s1.server.acquired[i].key == m.key && s1.server.acquired[i].lease == l;
    var j := |s1.server.acquired|;
    assert t.server.acquired[i] == s1.server.acquired[i] && t.server.acquired[j] == Acquisition(m.key, m.lease, s1.now);
    assert s2.server.acquired[i] == t.server.acquired[i] && s2.server.acquired[j] == t.server.acquired[j];
  }

  /** In the history of a key, the lease `older` gave it up to the lease `newer`, at most `d` ago. */
  ghost predicate HandedOver(d: nat, acquired: seq<Acquisition>, now: Time, key: string, older: LeaseId, newer: LeaseId) {
    exists i, j :: 0 <= i < j < |acquired| &&
      acquired[i].key == key && acquired[i].lease == older &&
      acquired[j].key == key && acquired[j].lease == newer && now <= acquired[j].at + d
  }

  /** The lease is alive or died at most `d` ago. */
  ghost predicate IsRecent(d: nat, sv: Server, now: Time, l: LeaseId) {
    l in sv.leases || (l in sv.died && now - d <= sv.died[l])
  }

  lemma OverlapIsHandover(d: nat, sv: Server, now: Time, i: nat, j: nat)
    requires HandoverInv(sv) && sv.leases.Keys !! sv.died.Keys && i < j < |sv.acquired|
    requires sv.acquired[i].key == sv.acquired[j].key && IsRecent(d, sv, now, sv.acquired[i].lease)
    ensures HandedOver(d, sv.acquired, now, sv.acquired[i].key, sv.acquired[i].lease, sv.acquired[j].lease)
  {
    var l := sv.acquired[i].lease;
    assert l in sv.died && sv.died[l] <= sv.acquired[j].at;
  }

  /** Of two recent leases that both took a key, one handed it over to the other. */
  lemma RecentOwners(d: nat, sv: Server, now: Time, key: string, l1: LeaseId, l2: LeaseId)
    requires HandoverInv(sv) && sv.leases.Keys !! sv.died.Keys && l1 != l2
    requires Acquired(sv, key, l1) && Acquired(sv, key, l2) && IsRecent(d, sv, now, l1) && IsRecent(d, sv, now, l2)
    ensures HandedOver(d, sv.acquired, now, key, l1, l2) || HandedOver(d, sv.acquired, now, key, l2, l1)
  {
    var i :| 0 <= i < |sv.acquired| && sv.acquired[i].key == key && sv.acquired[i].lease == l1;
    var j :| 0 <= j < |sv.acquired| && sv.acquired[j].key == key && sv.acquired[j].lease == l2;
    if i < j {
      OverlapIsHandover(d, sv, now, i, j);
    } else {
      OverlapIsHandover(d, sv, now, j, i);
    }
  }

  /**
   * Two nodes are locally valid for one shard at the same time only while the key is being handed
   * over: the later of their two acquisitions of the key lies at most d back.
   */
  lemma ExclusionUpToDelay(d: nat, s0: State, run: seq<Action>, n1: NodeId, n2: NodeId, shard: ShardId)
    requires Init(s0) && IsRun(d, s0, run) && n1 != n2
    requires IsValid(After(d, s0, run), n1, shard) && IsValid(After(d, s0, run), n2, shard)
    ensures var s := After(d, s0, run);
            var l1, l2, key := s.nodes[n1].locks[shard], s.nodes[n2].locks[shard], ShardKey(s, shard);
            && l1 != l2
            && (|| HandedOver(d, s.server.acquired, s.now, key, l1, l2)
                || HandedOver(d, s.server.acquired, s.now, key, l2, l1))
  {
    InitInv(d, s0);
    RunKeepsInv(d, s0, run);
    var s := After(d, s0, run);
    LockIsCovered(d, s, n1, shard);
    LockIsCovered(d, s, n2, shard);
    RecentOwners(d, s.server, s.now, ShardKey(s, shard), s.nodes[n1].locks[shard], s.nodes[n2].locks[shard]);
  }

  // ---------------------------------------------------------------------------
  // The bound is exact
  // ---------------------------------------------------------------------------

  /** A fresh node in state s asks for a lease, gets one, and its transaction takes the free key. */
  ghost predicate TookKey(s: State, s': State, n: NodeId, shard: ShardId, l: LeaseId, ttl: int) {
    var key, rid := ShardKey(s, shard), RequestId(n, 1);
    && s'.now == s.now && s'.prefix == s.prefix
    && s'.nodes == s.nodes[n := Node(AwaitTxn(shard, rid, l, ttl, s.now), map[], map[], {l}, 2)]
    && s'.server.leases == s.server.leases[l := LeaseRecord(ttl, s.now + Millis(ttl))]
    && s'.server.keys == s.server.keys[key := l]
    && s'.server.issued.Keys == s.server.issued.Keys + {l}
    && s'.server.acquired == s.server.acquired + [Acquisition(key, l, s.now)]
    && TxnResp(rid, true) in s'.net
  }

  ghost predicate CanTake(s: State, n: NodeId, shard: ShardId, l: LeaseId, ttl: int) {
    n in s.nodes && s.nodes[n] == FRESH_NODE && l !in s.server.issued && ttl > 0 && ShardKey(s, shard) !in s.server.keys
  }

  lemma LeaseTaken(s: State, n: NodeId, shard: ShardId, l: LeaseId, ttl: int) returns (s2: State)
    requires CanTake(s, n, shard, l, ttl)
    ensures var r0 := RequestId(n, 0);
            && Guard(s, StartGrant(n, shard))
            && Guard(Exec(s, StartGrant(n, shard)), EtcdGrant(GrantReq(r0), l, ttl))
            && s2 == Exec(Exec(s, StartGrant(n, shard)), EtcdGrant(GrantReq(r0), l, ttl))
            && s2.server == Issue(s.server, l, r0, ttl, s.now)
            && s2.nodes == s.nodes[n := Node(AwaitGrant(shard, r0), map[], map[], {}, 1)]
            && s2.now == s.now && s2.prefix == s.prefix && GrantResp(r0, l, ttl, s.now) in s2.net
  {
    s2 := Exec(Exec(s, StartGrant(n, shard)), EtcdGrant(GrantReq(RequestId(n, 0)), l, ttl));
  }

  lemma TakeKey(d: nat, s0: State, run: seq<Action>, n: NodeId, shard: ShardId, l: LeaseId, ttl: int) returns (run': seq<Action>)
    requires IsRun(d, s0, run) && CanTake(After(d, s0, run), n, shard, l, ttl)
    ensures IsRun(d, s0, run') && TookKey(After(d, s0, run), After(d, s0, run'), n, shard, l, ttl)
  {
    var s := After(d, s0, run);
    var r0, r1 := RequestId(n, 0), RequestId(n, 1);
    var s2 := LeaseTaken(s, n, shard, l, ttl);
    run' := run + [StartGrant(n, shard)] + [EtcdGrant(GrantReq(r0), l, ttl)];
    RunSnoc(d, s0, run, StartGrant(n, shard));
    RunSnoc(d, s0, run + [StartGrant(n, shard)], EtcdGrant(GrantReq(r0), l, ttl));
    var a3 := OnGrantResp(n, GrantResp(r0, l, ttl, s.now));
    RunSnoc(d, s0, run', a3);
    var s3 := Exec(s2, a3);
    assert s2.nodes[n].used + {l} == {l};
    assert s3.nodes == s.nodes[n := Node(AwaitTxn(shard, r1, l, ttl, s.now), map[], map[], {l}, 2)];
    var a4 := EtcdTxn(TxnReq(r1, ShardKey(s, shard), l));
    RunSnoc(d, s0, run' + [a3], a4);
    run' := run' + [a3] + [a4];
  }

  /**
   * No smaller bound holds: for every d there is a run in which, exactly d after the second node
   * took the key, both nodes are locally valid.
   */
  lemma BoundIsTight(d: nat, s0: State, shard: ShardId) returns (run: seq<Action>)
    requires Init(s0) && 0 in s0.nodes && 1 in s0.nodes
    ensures IsRun(d, s0, run)
    ensures var s := After(d, s0, run);
            && IsValid(s, 0, shard) && IsValid(s, 1, shard)
            && |s.server.acquired| == 2 && s.server.acquired[1].lease == s.nodes[1].locks[shard]
            && s.now == s.server.acquired[1].at + d
  {
    var ttl := d + 1;
    var r := TakeKey(d, s0, [], 0, shard, 0, ttl);
    r := RunTick(d, s0, r, d);
    r := RunInstall(d, s0, r, 0);
    r := RunTick(d, s0, r, Millis(ttl) - d);
    var t := After(d, s0, r);
    RunSnoc(d, s0, r, EtcdExpire(0));
    r := r + [EtcdExpire(0)];
    r := TakeKey(d, s0, r, 1, shard, 1, ttl);
    r := RunInstall(d, s0, r, 1);
    r := RunTick(d, s0, r, d);
    run := r;
  }

  lemma RunTick(d: nat, s0: State, run: seq<Action>, dt: nat) returns (run': seq<Action>)
    requires IsRun(d, s0, run)
    ensures IsRun(d, s0, run')
    ensures After(d, s0, run') == After(d, s0, run).(now := After(d, s0, run).now + dt)
  {
    RunSnoc(d, s0, run, Tick(dt));
    run' := run + [Tick(dt)];
  }

  lemma RunInstall(d: nat, s0: State, run: seq<Action>, n: NodeId) returns (run': seq<Action>)
    requires IsRun(d, s0, run)
    requires var s := After(d, s0, run);
             n in s.nodes && s.nodes[n].control.AwaitTxn? && s.now <= s.nodes[n].control.grantedAt + d &&
             TxnResp(s.nodes[n].control.rid, true) in s.net
    ensures IsRun(d, s0, run')
    ensures var s := After(d, s0, run);
            var c := s.nodes[n].control;
            After(d, s0, run') ==
              s.(nodes := s.nodes[n := s.nodes[n].(control := Idle,
                                                   locks := s.nodes[n].locks[c.shard := c.lease],
                                                   expiredAt := s.nodes[n].expiredAt[c.lease := s.now + Millis(c.ttl)])])
  {
    var s := After(d, s0, run);
    var a := OnTxnResp(n, TxnResp(s.nodes[n].control.rid, true));
    RunSnoc(d, s0, run, a);
    run' := run + [a];
    assert s.net + {} == s.net;
  }

  // ---------------------------------------------------------------------------
  // A lock lasts
  // ---------------------------------------------------------------------------

  /** The node has a lock on the shard, through this lease, with this local expiry. */
  predicate HasLock(s: State, n: NodeId, shard: ShardId, l: LeaseId, expiredAt: Time) {
    && n in s.nodes && shard in s.nodes[n].locks && s.nodes[n].locks[shard] == l
    && l in s.nodes[n].expiredAt && s.nodes[n].expiredAt[l] == expiredAt
  }

  /** The step is a keepalive reply for the lease, a revoke or a new grant of the shard, or a crash of the node. */
  predicate Disturbs(s: State, a: Action, n: NodeId, shard: ShardId, l: LeaseId) {
    || (a.OnKeepAliveResp? && a.node == n && a.msg.KeepAliveResp? && a.msg.lease == l)
    || a == Revoke(n, shard) || a == Crash(n)
    || (a.OnTxnResp? && a.node == n && n in s.nodes && s.nodes[n].control.AwaitTxn? && s.nodes[n].control.shard == shard)
  }

  predicate Undisturbed(d: nat, s: State, run: seq<Action>, n: NodeId, shard: ShardId, l: LeaseId)
    requires IsRun(d, s, run)
    decreases |run|
  {
    run == [] || (!Disturbs(s, run[0], n, shard, l) && Undisturbed(d, Exec(s, run[0]), run[1..], n, shard, l))
  }

  lemma LockIsNotAwaited(d: nat, s: State, n: NodeId, shard: ShardId)
    requires Inv(d, s) && n in s.nodes && s.nodes[n].control.AwaitTxn? && shard in s.nodes[n].locks
    ensures s.nodes[n].control.lease != s.nodes[n].locks[shard]
  {
    assert NodeInv(d, s, n);
    assert s.nodes[n].locks[shard] in s.nodes[n].locks.Values;
  }

  lemma TxnRespKeepsLock(s: State, n: NodeId, m: Message, shard: ShardId, l: LeaseId, expiredAt: Time)
    requires Guard(s, OnTxnResp(n, m)) && HasLock(s, n, shard, l, expiredAt)
    requires s.nodes[n].control.shard != shard && s.nodes[n].control.lease != l
    ensures HasLock(Exec(s, OnTxnResp(n, m)), n, shard, l, expiredAt)
  {
  }

  lemma RequestKeepsLocks(s: State, a: Action, n: NodeId)
    requires Guard(s, a) && (a.StartGrant? || a.OnGrantResp? || a.FailRpc?) && a.node == n
    ensures n in Exec(s, a).nodes && Exec(s, a).nodes[n].locks == s.nodes[n].locks
    ensures Exec(s, a).nodes[n].expiredAt == s.nodes[n].expiredAt
  {
  }

  lemma StepKeepsLock(d: nat, s: State, a: Action, n: NodeId, shard: ShardId, l: LeaseId, expiredAt: Time)
    requires Inv(d, s) && Enabled(d, s, a) && HasLock(s, n, shard, l, expiredAt) && !Disturbs(s, a, n, shard, l)
    ensures HasLock(Exec(s, a), n, shard, l, expiredAt)
  {
    if !ActsOn(a, n) {
      OtherNode(s, a, n);
    } else if a.OnTxnResp? {
      LockIsNotAwaited(d, s, n, shard);
      TxnRespKeepsLock(s, n, a.msg, shard, l, expiredAt);
    } else if !a.OnKeepAliveResp? && !a.Revoke? {
      RequestKeepsLocks(s, a, n);
    }
  }

  lemma {:induction false} RunKeepsLock(d: nat, s: State, run: seq<Action>, n: NodeId, shard: ShardId, l: LeaseId, expiredAt: Time)
    requires Inv(d, s) && IsRun(d, s, run) && HasLock(s, n, shard, l, expiredAt) && Undisturbed(d, s, run, n, shard, l)
    ensures HasLock(After(d, s, run), n, shard, l, expiredAt)
    decreases |run|
  {
    if run != [] {
      StepKeepsInv(d, s, run[0]);
      StepKeepsLock(d, s, run[0], n, shard, l, expiredAt);
      RunKeepsLock(d, Exec(s, run[0]), run[1..], n, shard, l, expiredAt);
    }
  }

  /**
   * A keepalive reply renews the lock for its ttl: in every continuation that does not disturb the
   * lock, it is valid until exactly then.
   */
  lemma RenewalLasts(d: nat, s: State, n: NodeId, m: Message, shard: ShardId, run: seq<Action>)
    requires Inv(d, s) && Enabled(d, s, OnKeepAliveResp(n, m)) && m.ttl > 0
    requires shard in s.nodes[n].locks && s.nodes[n].locks[shard] == m.lease
    requires var s1 := Exec(s, OnKeepAliveResp(n, m)); IsRun(d, s1, run) && Undisturbed(d, s1, run, n, shard, m.lease)
    ensures var s2 := After(d, Exec(s, OnKeepAliveResp(n, m)), run);
            IsValid(s2, n, shard) <==> s2.now <= s.now + 1000 * m.ttl
  {
    var s1 := Exec(s, OnKeepAliveResp(n, m));
    StepKeepsInv(d, s, OnKeepAliveResp(n, m));
    RunKeepsLock(d, s1, run, n, shard, m.lease, s.now + 1000 * m.ttl);
  }

  /** So does a grant: the lock is valid from the reply of the transaction for the ttl of its lease. */
  lemma GrantLasts(d: nat, s: State, n: NodeId, m: Message, run: seq<Action>)
    requires Inv(d, s) && Enabled(d, s, OnTxnResp(n, m)) && m.succeeded
    requires var s1, c := Exec(s, OnTxnResp(n, m)), s.nodes[n].control;
             IsRun(d, s1, run) && Undisturbed(d, s1, run, n, c.shard, c.lease)
    ensures var s2, c := After(d, Exec(s, OnTxnResp(n, m)), run), s.nodes[n].control;
            IsValid(s2, n, c.shard) <==> s2.now <= s.now + 1000 * c.ttl
  {
    var s1, c := Exec(s, OnTxnResp(n, m)), s.nodes[n].control;
    StepKeepsInv(d, s, OnTxnResp(n, m));
    RunKeepsLock(d, s1, run, n, c.shard, c.lease, s.now + 1000 * c.ttl);
  }

  /** One round of keepalive, some time after the last one. */
  function Round(now: Time, dt: nat, n: NodeId, l: LeaseId, ttl: int): seq<Action> {
    [Tick(dt)] + Ping(now + dt, n, l, ttl)
  }

  function Ping(now: Time, n: NodeId, l: LeaseId, ttl: int): seq<Action> {
    [SendKeepAlive(n, l), EtcdKeepAlive(KeepAliveReq(l)), OnKeepAliveResp(n, KeepAliveResp(l, ttl, now))]
  }

  /** The lock and the lease of etcd behind it end at the same time, a ttl from now. */
  predicate IsRenewed(s: State, n: NodeId, shard: ShardId, l: LeaseId, ttl: int) {
    && HasLock(s, n, shard, l, s.now + Millis(ttl))
    && l in s.server.leases && s.server.leases[l] == LeaseRecord(ttl, s.now + Millis(ttl))
  }

  lemma RunCons(d: nat, s: State, a: Action, rest: seq<Action>)
    requires Enabled(d, s, a) && IsRun(d, Exec(s, a), rest)
    ensures IsRun(d, s, [a] + rest) && After(d, s, [a] + rest) == After(d, Exec(s, a), rest)
  {
    assert ([a] + rest)[1..] == rest;
  }

  /** A keepalive request that etcd handles and answers at once. */
  lemma PingRenews(d: nat, s: State, n: NodeId, shard: ShardId, l: LeaseId, ttl: int)
    requires (exists e :: HasLock(s, n, shard, l, e)) && l in s.server.leases && s.server.leases[l].ttl == ttl > 0
    ensures IsRun(d, s, Ping(s.now, n, l, ttl)) && IsRenewed(After(d, s, Ping(s.now, n, l, ttl)), n, shard, l, ttl)
    ensures After(d, s, Ping(s.now, n, l, ttl)).now == s.now
  {
    var a, b, c := SendKeepAlive(n, l), EtcdKeepAlive(KeepAliveReq(l)), OnKeepAliveResp(n, KeepAliveResp(l, ttl, s.now));
    var s1 := Exec(s, a);
    var s2 := Exec(s1, b);
    RunCons(d, s2, c, []);
    RunCons(d, s1, b, [c]);
    RunCons(d, s, a, [b, c]);
    assert [c] + [] == [c] && [b] + [c] == [b, c] && [a] + [b, c] == [a, b, c];
  }

  /** A round with all its messages delivered renews the lock at the node and the lease in etcd. */
  lemma RoundRenews(d: nat, s: State, dt: nat, n: NodeId, shard: ShardId, l: LeaseId, ttl: int)
    requires (exists e :: HasLock(s, n, shard, l, e)) && l in s.server.leases && s.server.leases[l].ttl == ttl > 0
    ensures IsRun(d, s, Round(s.now, dt, n, l, ttl))
    ensures IsRenewed(After(d, s, Round(s.now, dt, n, l, ttl)), n, shard, l, ttl)
    ensures After(d, s, Round(s.now, dt, n, l, ttl)).now == s.now + dt
  {
    var e :| HasLock(s, n, shard, l, e);
    var s1 := Exec(s, Tick(dt));
    assert HasLock(s1, n, shard, l, e);
    PingRenews(d, s1, n, shard, l, ttl);
    RunCons(d, s, Tick(dt), Ping(s1.now, n, l, ttl));
  }

  /** Rounds of keepalive, the waits between them as given. */
  function Rounds(now: Time, dts: seq<nat>, n: NodeId, l: LeaseId, ttl: int): seq<Action>
    decreases |dts|
  {
    if dts == [] then [] else Round(now, dts[0], n, l, ttl) + Rounds(now + dts[0], dts[1..], n, l, ttl)
  }

  /** The lock is valid in every state of the run. */
  predicate ValidThroughout(d: nat, s: State, run: seq<Action>, n: NodeId, shard: ShardId)
    requires IsRun(d, s, run)
    decreases |run|
  {
    IsValid(s, n, shard) && (run != [] ==> ValidThroughout(d, Exec(s, run[0]), run[1..], n, shard))
  }

  lemma {:induction false} ThroughoutAppend(d: nat, s: State, a: seq<Action>, b: seq<Action>, n: NodeId, shard: ShardId)
    requires IsRun(d, s, a + b) && IsRun(d, s, a) && IsRun(d, After(d, s, a), b)
    ensures ValidThroughout(d, s, a + b, n, shard) <==>
            ValidThroughout(d, s, a, n, shard) && ValidThroughout(d, After(d, s, a), b, n, shard)
    decreases |a|
  {
    if a == [] {
      assert a + b == b;
    } else {
      assert (a + b)[0] == a[0] && (a + b)[1..] == a[1..] + b;
      ThroughoutAppend(d, Exec(s, a[0]), a[1..], b, n, shard);
    }
  }

  lemma ThroughoutCons(d: nat, s: State, a: Action, rest: seq<Action>, n: NodeId, shard: ShardId)
    requires IsRun(d, s, [a] + rest) && Enabled(d, s, a) && IsRun(d, Exec(s, a), rest)
    ensures ValidThroughout(d, s, [a] + rest, n, shard) <==>
            IsValid(s, n, shard) && ValidThroughout(d, Exec(s, a), rest, n, shard)
  {
    assert ([a] + rest)[1..] == rest;
  }

  lemma PingThroughoutIff(d: nat, s: State, n: NodeId, shard: ShardId, l: LeaseId, ttl: int)
    requires (exists e :: HasLock(s, n, shard, l, e)) && l in s.server.leases && s.server.leases[l].ttl == ttl > 0
    ensures IsRun(d, s, Ping(s.now, n, l, ttl))
    ensures ValidThroughout(d, s, Ping(s.now, n, l, ttl), n, shard) <==> IsValid(s, n, shard)
  {
    var a, b, c := SendKeepAlive(n, l), EtcdKeepAlive(KeepAliveReq(l)), OnKeepAliveResp(n, KeepAliveResp(l, ttl, s.now));
    var s1 := Exec(s, a);
    var s2 := Exec(s1, b);
    assert IsValid(s, n, shard) == IsValid(s1, n, shard) == IsValid(s2, n, shard);
    assert IsValid(Exec(s2, c), n, shard);
    PingRenews(d, s, n, shard, l, ttl);
    RunCons(d, s2, c, []);
    RunCons(d, s1, b, [c]);
    assert [c] + [] == [c] && [b] + [c] == [b, c] && [a] + [b, c] == [a, b, c];
    ThroughoutCons(d, s2, c, [], n, shard);
    ThroughoutCons(d, s1, b, [c], n, shard);
    ThroughoutCons(d, s, a, [b, c], n, shard);
  }

  lemma RoundThroughoutIff(d: nat, s: State, dt: nat, n: NodeId, shard: ShardId, l: LeaseId, ttl: int)
    requires IsRenewed(s, n, shard, l, ttl) && ttl > 0 && IsRun(d, s, Round(s.now, dt, n, l, ttl))
    ensures ValidThroughout(d, s, Round(s.now, dt, n, l, ttl), n, shard) <==> dt <= 1000 * ttl
  {
    var s1 := Exec(s, Tick(dt));
    assert HasLock(s1, n, shard, l, s.now + Millis(ttl));
    PingRenews(d, s1, n, shard, l, ttl);
    PingThroughoutIff(d, s1, n, shard, l, ttl);
    ThroughoutCons(d, s, Tick(dt), Ping(s1.now, n, l, ttl), n, shard);
  }

  /**
   * A lock kept alive does not end, however many rounds: it is renewed after every round, and it is
   * valid all the time exactly if no wait between two rounds is longer than the ttl.
   */
  lemma {:induction false} KeptAlive(d: nat, s: State, dts: seq<nat>, n: NodeId, shard: ShardId, l: LeaseId, ttl: int)
    requires IsRenewed(s, n, shard, l, ttl) && ttl > 0
    ensures IsRun(d, s, Rounds(s.now, dts, n, l, ttl))
    ensures IsRenewed(After(d, s, Rounds(s.now, dts, n, l, ttl)), n, shard, l, ttl)
    ensures ValidThroughout(d, s, Rounds(s.now, dts, n, l, ttl), n, shard) <==>
            forall i :: 0 <= i < |dts| ==> dts[i] <= 1000 * ttl
    decreases |dts|
  {
    if dts != [] {
      var round := Round(s.now, dts[0], n, l, ttl);
      RoundRenews(d, s, dts[0], n, shard, l, ttl);
      RoundThroughoutIff(d, s, dts[0], n, shard, l, ttl);
      var s' := After(d, s, round);
      KeptAlive(d, s', dts[1..], n, shard, l, ttl);
      RunAppend(d, s, round, Rounds(s'.now, dts[1..], n, l, ttl));
      ThroughoutAppend(d, s, round, Rounds(s'.now, dts[1..], n, l, ttl), n, shard);
    }
  }

  /** An idle node can revoke a lock it has: the lock ends at once, and the request frees the key in etcd. */
  lemma RevokeEnds(d: nat, s: State, n: NodeId, shard: ShardId)
    requires Inv(d, s) && n in s.nodes && s.nodes[n].control == Idle && shard in s.nodes[n].locks
    ensures Guard(s, Revoke(n, shard))
    ensures var s1, l := Exec(s, Revoke(n, shard)), s.nodes[n].locks[shard];
            && !IsValid(s1, n, shard) && Guard(s1, EtcdRevoke(RevokeReq(l)))
            && var s2 := Exec(s1, EtcdRevoke(RevokeReq(l)));
               l !in s2.server.leases && forall key :: key in s2.server.keys ==> s2.server.keys[key] != l
  {
  }

  /** A grant whose rpc fails leaves the locks alone and can be tried again, exactly if the lock is not valid. */
  lemma FailedGrantRetries(s: State, n: NodeId, shard: ShardId)
    requires n in s.nodes && s.nodes[n].control != Idle
    ensures Guard(s, FailRpc(n))
    ensures var s' := Exec(s, FailRpc(n));
            && s'.nodes[n].locks == s.nodes[n].locks && s'.nodes[n].expiredAt == s.nodes[n].expiredAt
            && (Guard(s', StartGrant(n, shard)) <==> !IsValid(s, n, shard))
  {
  }

  /** A transaction's reply ends the grant: the lock is installed exactly if it succeeded. */
  lemma GrantEnds(s: State, n: NodeId, m: Message)
    requires Guard(s, OnTxnResp(n, m))
    ensures var s', c := Exec(s, OnTxnResp(n, m)), s.nodes[n].control;
            && s'.nodes[n].control == Idle
            && (m.succeeded ==> HasLock(s', n, c.shard, c.lease, s.now + Millis(c.ttl)))
            && (!m.succeeded ==> s'.nodes[n].locks == s.nodes[n].locks && s'.nodes[n].expiredAt == s.nodes[n].expiredAt)
  {
  }

  /** A granted lease goes on to the transaction for the shard's key; one without time ends the grant. */
  lemma GrantGoesOn(s: State, n: NodeId, m: Message)
    requires Guard(s, OnGrantResp(n, m))
    ensures var s', shard := Exec(s, OnGrantResp(n, m)), s.nodes[n].control.shard;
            && s'.nodes[n].locks == s.nodes[n].locks && s'.nodes[n].expiredAt == s.nodes[n].expiredAt
            && (m.ttl <= 0 ==> s'.nodes[n].control == Idle)
            && (m.ttl > 0 ==>
                  && s'.nodes[n].control.AwaitTxn? && s'.nodes[n].control.shard == shard && s'.nodes[n].control.lease == m.lease
                  && TxnReq(s'.nodes[n].control.rid, ShardKey(s, shard), m.lease) in s'.net)
  {
  }

  /** A lease that etcd no longer has is not renewed: the request is answered without time, and the lock is left to expire. */
  lemma DeadLeaseIsNotRenewed(d: nat, s: State, n: NodeId, l: LeaseId)
    requires n in s.nodes && l in s.nodes[n].expiredAt && l !in s.server.leases
    ensures IsRun(d, s, Ping(s.now, n, l, 0))
    ensures After(d, s, Ping(s.now, n, l, 0)) == s.(net := s.net + {KeepAliveReq(l), KeepAliveResp(l, 0, s.now)})
  {
    var a, b, c := SendKeepAlive(n, l), EtcdKeepAlive(KeepAliveReq(l)), OnKeepAliveResp(n, KeepAliveResp(l, 0, s.now));
    var s1 := Exec(s, a);
    var s2 := Exec(s1, b);
    RunCons(d, s2, c, []);
    RunCons(d, s1, b, [c]);
    RunCons(d, s, a, [b, c]);
    assert [c] + [] == [c] && [b] + [c] == [b, c] && [a] + [b, c] == [a, b, c];
    assert s.net + {KeepAliveReq(l)} + {KeepAliveResp(l, 0, s.now)} == s.net + {KeepAliveReq(l), KeepAliveResp(l, 0, s.now)};
  }

  /** No lock and no request survives a crash of its node. */
  lemma CrashEnds(s: State, n: NodeId, shard: ShardId)
    requires Guard(s, Crash(n))
    ensures var node := Exec(s, Crash(n)).nodes[n]; node.control == Idle && node.locks == map[] && node.expiredAt == map[]
    ensures !IsValid(Exec(s, Crash(n)), n, shard)
  {
  }
}
