/** Building runs step by step: a connection opens, and registers on a network of its own. */
module BrokerScenarios {
  import opened Net
  import opened Limits
  import opened Wire
  import opened Broker
  import opened BrokerInvariant
  import opened BrokerRuns
  import Dial

  ghost function Last(r: Run): State
    requires r.states != []
  {
    r.states[|r.states| - 1]
  }

  /** `r'` goes on from `r` without time passing or a sweep. */
  ghost predicate AtOnce(r: Run, r': Run)
    requires r.states != []
  {
    && |r.states| <= |r'.states| && r'.states[..|r.states|] == r.states
    && forall i | |r.states| <= i < |r'.states| ::
         r'.states[i].now == Last(r).now && r'.states[i].lastSweep == Last(r).lastSweep
  }

  lemma AtOnceThen(a: Run, b: Run, c: Run)
    requires a.states != [] && b.states != [] && AtOnce(a, b) && AtOnce(b, c)
    ensures AtOnce(a, c)
  {
    assert Last(b).now == Last(a).now && Last(b).lastSweep == Last(a).lastSweep;
    forall i | 0 <= i < |b.states|
      ensures c.states[i] == b.states[i]
    {
      assert c.states[..|b.states|][i] == b.states[i];
    }
    assert c.states[..|a.states|] == b.states[..|a.states|];
  }

  lemma Overwrites<K, V>(m: map<K, V>, k: K, a: V, b: V)
    ensures m[k := a][k := b] == m[k := b]
  {
  }

  lemma StartRun(cfg: Config) returns (r: Run)
    ensures IsRun(cfg, r) && Last(r) == Init() && |r.states| == 1
  {
    r := Run([Init()], []);
  }

  lemma GoOn(cfg: Config, r: Run, e: Event) returns (r': Run)
    requires IsRun(cfg, r) && Enabled(cfg, Last(r), e)
    ensures IsRun(cfg, r') && r'.events == r.events + [e] && r'.states == r.states + [Step(cfg, Last(r), e)]
  {
    r' := Run(r.states + [Step(cfg, Last(r), e)], r.events + [e]);
    forall i | 0 <= i < |r'.events|
      ensures StepAt(cfg, r', i)
    {
      if i < |r.events| {
        assert StepAt(cfg, r, i);
      }
    }
  }

  /** The first `n` steps of a run. */
  lemma UpTo(cfg: Config, r: Run, n: nat) returns (r': Run)
    requires IsRun(cfg, r) && n <= |r.events|
    ensures IsRun(cfg, r') && r'.states == r.states[..n + 1] && r'.events == r.events[..n]
  {
    r' := Run(r.states[..n + 1], r.events[..n]);
    forall i | 0 <= i < n
      ensures StepAt(cfg, r', i)
    {
      assert StepAt(cfg, r, i);
    }
  }

  lemma KnownNow(cfg: Config, r: Run)
    requires IsRun(cfg, r)
    ensures Inv(cfg, Last(r)) && ChansKnown(Last(r))
  {
    RunInv(cfg, r, |r.states| - 1);
    var s := Last(r);
    forall id | id in s.registry
      ensures s.registry[id].chan in s.conns
    {
      assert PeerOk(s.conns, id, s.registry[id]);
    }
  }

  /** A connection without a certificate opens. */
  lemma Opens(cfg: Config, r: Run, c: ConnId, ip: Ip) returns (r': Run)
    requires IsRun(cfg, r) && c !in Last(r).conns && CanTake(Last(r).connCount, KeyOf(ip), cfg.maxConnsPerIp)
    ensures IsRun(cfg, r') && AtOnce(r, r') && Last(r') == OpenStep(cfg, Last(r), c, ip, None)
    ensures r'.events == r.events + [Open(c, ip, None)]
  {
    KnownNow(cfg, r);
    r' := GoOn(cfg, r, Open(c, ip, None));
  }

  // ---- One registration, alone on its network ----

  ghost predicate AtRest(s: State, c: ConnId) {
    Ready(s, c) && s.conns[c].phase.Idle?
  }

  lemma Asks(cfg: Config, r: Run, c: ConnId, id: PeerId, network: NetworkId) returns (r': Run)
    requires IsRun(cfg, r) && AtRest(Last(r), c)
    ensures IsRun(cfg, r') && AtOnce(r, r')
    ensures var s := Last(r);
            Last(r') == With(s, c, s.conns[c].(activity := s.now, phase := Pending(DoRegister(id, network, 0, []))))
  {
    KnownNow(cfg, r);
    r' := GoOn(cfg, r, Arrive(c, Some(Register(id, network, 0, []))));
  }

  lemma Reserves(cfg: Config, r: Run, c: ConnId, id: PeerId, network: NetworkId) returns (r': Run)
    requires IsRun(cfg, r) && Ready(Last(r), c) && Last(r).conns[c].phase == Pending(DoRegister(id, network, 0, []))
    requires CanTake(Last(r).regCount, KeyOf(Last(r).conns[c].ip), cfg.maxRegsPerIp)
    ensures IsRun(cfg, r') && AtOnce(r, r')
    ensures var s := Last(r);
            Last(r') == With(s, c, s.conns[c].(phase := Reserved(id, network, 0, [])))
                          .(regCount := Take(s.regCount, KeyOf(s.conns[c].ip), cfg.maxRegsPerIp))
  {
    KnownNow(cfg, r);
    r' := GoOn(cfg, r, Reserve(c, true));
  }

  /** No record but that of `id` is on `network`. */
  ghost predicate Alone(reg: Registry, id: PeerId, network: NetworkId) {
    forall x | x in reg && x != id :: reg[x].network != network
  }

  ghost function Newcomer(id: PeerId, network: NetworkId, c: ConnId): Peer {
    Peer(network, PeerInfo(id, network, 0, []), c)
  }

  lemma NothingPublished(ip: Ip)
    ensures Dial.Published([], ip) == []
  {
  }

  lemma Commits(cfg: Config, r: Run, c: ConnId, id: PeerId, network: NetworkId) returns (r': Run)
    requires IsRun(cfg, r) && Ready(Last(r), c) && Last(r).conns[c].phase == Reserved(id, network, 0, [])
    requires Last(r).conns[c].verified.None? && |Last(r).registry| < cfg.maxConnections
    requires id !in Last(r).registry && Alone(Last(r).registry, id, network)
    ensures IsRun(cfg, r') && AtOnce(r, r') && r'.events == r.events + [Commit(c, [])]
    ensures var s := Last(r);
            var reg := s.registry[id := Newcomer(id, network, c)];
            Last(r') == With(s, c, s.conns[c].(phase := Registered(id, network),
                                               todo := [Send(c, RegisterAck(true, |reg|), None)]))
                          .(registry := reg, connected := Increment(s.connected))
  {
    KnownNow(cfg, r);
    var s := Last(r);
    NothingPublished(s.conns[c].ip);
    assert Entered(s, c) == s.registry[id := Newcomer(id, network, c)];
    assert Targets(Entered(s, c), id, network, []) == {};
    r' := GoOn(cfg, r, Commit(c, []));
    CommitAlone(cfg, s, c, id, network);
  }

  lemma CommitAlone(cfg: Config, s: State, c: ConnId, id: PeerId, network: NetworkId)
    requires Enabled(cfg, s, Commit(c, [])) && Refusal(cfg, s, c).None?
    requires s.conns[c].phase == Reserved(id, network, 0, [])
    requires id !in s.registry
    ensures var reg := s.registry[id := Newcomer(id, network, c)];
            CommitNow(cfg, s, c, [])
              == With(s, c, s.conns[c].(phase := Registered(id, network),
                                        todo := [Send(c, RegisterAck(true, |reg|), None)]))
                   .(registry := reg, connected := Increment(s.connected))
  {
    var reg := s.registry[id := Newcomer(id, network, c)];
    NothingPublished(s.conns[c].ip);
    assert Entered(s, c) == reg;
    assert Self(c, [RegisterAck(true, |reg|)]) + SendsTo(reg, [], PeerConnected(reg[id].info))
        == [Send(c, RegisterAck(true, |reg|), None)];
  }

  lemma HearsBack(cfg: Config, r: Run, c: ConnId) returns (r': Run)
    requires IsRun(cfg, r) && c in Last(r).conns && |Last(r).conns[c].todo| == 1 && Last(r).conns[c].todo[0].chan == c
    ensures IsRun(cfg, r') && AtOnce(r, r')
    ensures c in Last(r').conns
    ensures var s := Last(r);
            Last(r') == With(s, c, s.conns[c].(todo := [], queue := Last(r').conns[c].queue))
  {
    KnownNow(cfg, r);
    r' := GoOn(cfg, r, Deliver(c));
    var s := Last(r);
    Overwrites(s.conns, c, s.conns[c].(todo := s.conns[c].todo[1..]), Last(r').conns[c]);
    assert s.conns[c].todo[1..] == [];
  }

  lemma Settles(cfg: Config, r: Run, c: ConnId, id: PeerId, network: NetworkId) returns (r': Run)
    requires IsRun(cfg, r) && Ready(Last(r), c) && Last(r).conns[c].phase == Registered(id, network)
    ensures IsRun(cfg, r') && AtOnce(r, r')
    ensures Last(r') == SettleStep(cfg, Last(r), c)
  {
    KnownNow(cfg, r);
    r' := GoOn(cfg, r, Settle(c));
  }

  /** The connection after its registration. */
  ghost function Settled(x: Conn, id: PeerId, network: NetworkId, now: nat, queue: seq<Message>): Conn {
    x.(phase := Idle, holdsReg := true, session := Session(Some(id), Some(network)), activity := now, queue := queue)
  }

  /** A whole registration, alone on its network: one record more, one slot held. */
  lemma Registers(cfg: Config, r: Run, c: ConnId, id: PeerId, network: NetworkId) returns (r': Run)
    requires IsRun(cfg, r) && AtRest(Last(r), c) && Last(r).conns[c].verified.None?
    requires CanTake(Last(r).regCount, KeyOf(Last(r).conns[c].ip), cfg.maxRegsPerIp)
    requires |Last(r).registry| < cfg.maxConnections && id !in Last(r).registry && Alone(Last(r).registry, id, network)
    ensures IsRun(cfg, r') && AtOnce(r, r') && c in Last(r').conns
    ensures var s, s' := Last(r), Last(r');
            && s' == s.(registry := s.registry[id := Newcomer(id, network, c)], connected := Increment(s.connected),
                        regCount := s'.regCount,
                        conns := s.conns[c := Settled(s.conns[c], id, network, s.now, s'.conns[c].queue)])
  {
    var r1 := Asks(cfg, r, c, id, network);
    var r2 := Reserves(cfg, r1, c, id, network);
    var r3 := Commits(cfg, r2, c, id, network);
    var r4 := HearsBack(cfg, r3, c);
    r' := Settles(cfg, r4, c, id, network);
    AtOnceThen(r, r1, r2);
    AtOnceThen(r, r2, r3);
    AtOnceThen(r, r3, r4);
    AtOnceThen(r, r4, r');
    var conns := Last(r).conns;
    Overwrites(conns, c, Last(r1).conns[c], Last(r2).conns[c]);
    Overwrites(conns, c, Last(r2).conns[c], Last(r3).conns[c]);
    Overwrites(conns, c, Last(r3).conns[c], Last(r4).conns[c]);
    Overwrites(conns, c, Last(r4).conns[c], Last(r').conns[c]);
  }
}
