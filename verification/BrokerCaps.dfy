/** The per-source registration cap, in records: when it bounds them and when it does not. */
module BrokerCaps {
  import opened Net
  import RateHistory
  import opened Wire
  import opened Limits
  import opened Broker
  import opened BrokerInvariant
  import opened BrokerSweep
  import opened BrokerRuns
  import opened BrokerScenarios

  /** The records registered from `key`. */
  ghost function RecordsFrom(s: State, key: IpKey): set<PeerId> {
    set id | id in s.registry && s.registry[id].chan in s.conns && KeyOf(s.conns[s.registry[id].chan].ip) == key
  }

  /** No connection that has registered is accepted again under another id. */
  ghost predicate SteadyNames(cfg: Config, r: Run)
    requires IsRun(cfg, r)
  {
    forall j | 0 <= j < |r.events| :: SteadyEntry(cfg, r.states[j], r.events[j])
  }

  ghost predicate SteadyEntry(cfg: Config, s: State, e: Event) {
    Enabled(cfg, s, e) && e.Commit? && Refusal(cfg, s, e.c).None? && s.conns[e.c].session.peer.Some? ==>
      s.conns[e.c].session.peer.value == s.conns[e.c].phase.peerId
  }

  /** Connection `x` answers for a record of `id`: it is live, and `id` is its only name. */
  ghost predicate Holder(x: Conn, id: PeerId) {
    && !x.phase.Draining? && !x.phase.Gone?
    && (x.session.peer == Some(id) || (x.phase.Registered? && x.phase.peerId == id))
  }

  ghost predicate OneName(x: Conn) {
    && (x.session.peer.Some? && !x.phase.Gone? ==> x.holdsReg)
    && (x.phase.Registered? && x.session.peer.Some? ==> x.session.peer.value == x.phase.peerId)
  }

  ghost predicate HeldRecord(s: State, id: PeerId)
    requires id in s.registry
  {
    s.registry[id].chan in s.conns && Holder(s.conns[s.registry[id].chan], id)
  }

  ghost predicate Steady(s: State) {
    && (forall c {:trigger OneName(s.conns[c])} | c in s.conns :: OneName(s.conns[c]))
    && (forall id {:trigger HeldRecord(s, id)} | id in s.registry :: HeldRecord(s, id))
  }

  lemma OneNameStep(cfg: Config, s: State, e: Event, c: ConnId)
    requires Enabled(cfg, s, e) && Steady(s) && SteadyEntry(cfg, s, e) && c in Step(cfg, s, e).conns
    ensures OneName(Step(cfg, s, e).conns[c])
  {
    if Owner(e) == Some(c) {
      OwnStep(cfg, s, e, c);
      assert c in s.conns ==> OneName(s.conns[c]);
    } else {
      OthersOnlySend(cfg, s, e, c);
      assert OneName(s.conns[c]);
    }
  }

  lemma HolderStep(cfg: Config, s: State, e: Event, c: ConnId, id: PeerId)
    requires Enabled(cfg, s, e) && c in s.conns && OneName(s.conns[c]) && Holder(s.conns[c], id)
    requires !(e.Deregister? && e.c == c)
    ensures c in Step(cfg, s, e).conns && Holder(Step(cfg, s, e).conns[c], id)
  {
    if Owner(e) == Some(c) {
      OwnStep(cfg, s, e, c);
    } else {
      OthersOnlySend(cfg, s, e, c);
    }
  }

  lemma HeldStep(cfg: Config, s: State, e: Event, id: PeerId)
    requires Inv(cfg, s) && Enabled(cfg, s, e) && Steady(s) && id in Step(cfg, s, e).registry
    ensures HeldRecord(Step(cfg, s, e), id)
  {
    var s' := Step(cfg, s, e);
    RecordFate(cfg, s, e, id);
    if id in s.registry && s'.registry[id] == s.registry[id] {
      var c := s.registry[id].chan;
      assert HeldRecord(s, id) && OneName(s.conns[c]);
      HolderStep(cfg, s, e, c, id);
    } else {
      OwnStep(cfg, s, e, e.c);
      EntryIsOwn(cfg, s, e.c, e.told);
    }
  }

  lemma SteadyStep(cfg: Config, s: State, e: Event)
    requires Inv(cfg, s) && Enabled(cfg, s, e) && Steady(s) && SteadyEntry(cfg, s, e)
    ensures Steady(Step(cfg, s, e))
  {
    var s' := Step(cfg, s, e);
    forall c | c in s'.conns
      ensures OneName(s'.conns[c])
    {
      OneNameStep(cfg, s, e, c);
    }
    forall id | id in s'.registry
      ensures HeldRecord(s', id)
    {
      HeldStep(cfg, s, e, id);
    }
  }

  lemma {:induction false} AlwaysSteady(cfg: Config, r: Run, i: nat)
    requires IsRun(cfg, r) && i < |r.states| && SteadyNames(cfg, r)
    ensures Steady(r.states[i])
  {
    if i > 0 {
      AlwaysSteady(cfg, r, i - 1);
      RunInv(cfg, r, i - 1);
      assert StepAt(cfg, r, i - 1) && SteadyEntry(cfg, r.states[i - 1], r.events[i - 1]);
      SteadyStep(cfg, r.states[i - 1], r.events[i - 1]);
    }
  }

  // ---- Records against slots ----

  lemma {:induction false} OneRecordEach(s: State, ids: set<PeerId>, holders: set<ConnId>)
    requires forall id | id in ids :: id in s.registry && s.registry[id].chan in holders
    requires forall a, b | a in ids && b in ids && s.registry[a].chan == s.registry[b].chan :: a == b
    ensures |ids| <= |holders|
    decreases |ids|
  {
    if ids != {} {
      var id :| id in ids;
      OneRecordEach(s, ids - {id}, holders - {s.registry[id].chan});
    }
  }

  /** Each record of the source is of a connection that holds a slot, and no two are of the same one. */
  lemma SteadyHolders(s: State, key: IpKey)
    requires Steady(s)
    ensures forall id | id in RecordsFrom(s, key) ::
              id in s.registry
              && s.registry[id].chan in Picked(s.conns, SettledFrom(key)) + Picked(s.conns, InFlightFrom(key))
    ensures forall a, b
              | a in RecordsFrom(s, key) && b in RecordsFrom(s, key) && s.registry[a].chan == s.registry[b].chan ::
              a == b
  {
    forall id | id in RecordsFrom(s, key)
      ensures s.registry[id].chan in Picked(s.conns, SettledFrom(key)) + Picked(s.conns, InFlightFrom(key))
    {
      assert HeldRecord(s, id) && OneName(s.conns[s.registry[id].chan]);
    }
    forall a, b | a in RecordsFrom(s, key) && b in RecordsFrom(s, key) && s.registry[a].chan == s.registry[b].chan
      ensures a == b
    {
      assert HeldRecord(s, a) && HeldRecord(s, b) && OneName(s.conns[s.registry[a].chan]);
    }
  }

  /** With one name to a connection, a source has no more records than slots. */
  lemma SteadyBoundsRecords(cfg: Config, s: State, key: IpKey)
    requires Inv(cfg, s) && Steady(s)
    ensures |RecordsFrom(s, key)| <= RegSlots(s.conns, key)
    ensures cfg.maxRegsPerIp > 0 ==> |RecordsFrom(s, key)| <= cfg.maxRegsPerIp
  {
    assert SlotsOkFor(cfg, s.conns, s.connCount, s.regCount, key);
    SteadyHolders(s, key);
    OneRecordEach(s, RecordsFrom(s, key), Picked(s.conns, SettledFrom(key)) + Picked(s.conns, InFlightFrom(key)));
  }

  /** While no connection registers under a second id, a source never has more records than the cap. */
  lemma CapBoundsRecords(cfg: Config, r: Run, i: nat, key: IpKey)
    requires IsRun(cfg, r) && i < |r.states| && SteadyNames(cfg, r)
    ensures |RecordsFrom(r.states[i], key)| <= RegSlots(r.states[i].conns, key)
    ensures cfg.maxRegsPerIp > 0 ==> |RecordsFrom(r.states[i], key)| <= cfg.maxRegsPerIp
  {
    RunInv(cfg, r, i);
    AlwaysSteady(cfg, r, i);
    SteadyBoundsRecords(cfg, r.states[i], key);
  }

  /** A connection with a certificate cannot register under a second id. */
  lemma CertificatesKeepNamesSteady(cfg: Config, s: State, c: ConnId, told: seq<PeerId>)
    requires Inv(cfg, s) && Enabled(cfg, s, Commit(c, told)) && s.conns[c].verified.Some?
    ensures SteadyEntry(cfg, s, Commit(c, told))
  {
    assert ConnOk(cfg, s.now, s.conns, s.conns[c]);
  }

  /** So where every connection has a certificate, no source ever has more records than slots or cap. */
  lemma CertifiedSourcesStayWithinCap(cfg: Config, r: Run, i: nat, key: IpKey)
    requires IsRun(cfg, r) && i < |r.states|
    requires forall j | 0 <= j < |r.states| :: forall c | c in r.states[j].conns :: r.states[j].conns[c].verified.Some?
    ensures |RecordsFrom(r.states[i], key)| <= RegSlots(r.states[i].conns, key)
    ensures cfg.maxRegsPerIp > 0 ==> |RecordsFrom(r.states[i], key)| <= cfg.maxRegsPerIp
  {
    forall j | 0 <= j < |r.events|
      ensures SteadyEntry(cfg, r.states[j], r.events[j])
    {
      assert StepAt(cfg, r, j);
      RunInv(cfg, r, j);
      if r.events[j].Commit? {
        CertificatesKeepNamesSteady(cfg, r.states[j], r.events[j].c, r.events[j].told);
      }
    }
    CapBoundsRecords(cfg, r, i, key);
  }

  // ---- The exact condition ----

  /** With a cap of one, a connection that holds its slot cannot reserve a second, so it keeps its id. */
  lemma CapOneKeepsNamesSteady(cfg: Config, s: State, e: Event)
    requires Inv(cfg, s) && Steady(s) && Enabled(cfg, s, e) && cfg.maxRegsPerIp == 1
    ensures SteadyEntry(cfg, s, e)
  {
    if e.Commit? {
      var key := KeyOf(s.conns[e.c].ip);
      assert OneName(s.conns[e.c]);
      HeldIsCounted(s.conns, e.c);
      assert SlotsOkFor(cfg, s.conns, s.connCount, s.regCount, key);
    }
  }

  lemma {:induction false} SteadyAtCapOne(cfg: Config, r: Run, i: nat)
    requires IsRun(cfg, r) && i < |r.states| && cfg.maxRegsPerIp == 1
    ensures Steady(r.states[i])
  {
    if i > 0 {
      SteadyAtCapOne(cfg, r, i - 1);
      RunInv(cfg, r, i - 1);
      assert StepAt(cfg, r, i - 1);
      CapOneKeepsNamesSteady(cfg, r.states[i - 1], r.events[i - 1]);
      SteadyStep(cfg, r.states[i - 1], r.events[i - 1]);
    }
  }

  /** No more records than the registry may hold. */
  lemma RegistryBoundsRecords(cfg: Config, s: State, key: IpKey)
    requires Inv(cfg, s)
    ensures |RecordsFrom(s, key)| <= cfg.maxConnections
  {
    RateHistory.Subset(RecordsFrom(s, key), s.registry.Keys);
  }

  /** `n` names, each of its own length. */
  function Name(n: nat): (name: PeerId)
    ensures |name| == n
  {
    seq(n, _ => 'x')
  }

  const HERE: Ip := V4([0, 0, 0, 0])

  /** One connection has registered `n` ids, all of them live, on one slot. */
  ghost predicate Collected(cfg: Config, s: State, n: nat) {
    && s.conns.Keys == {0} && AtRest(s, 0) && s.conns[0].ip == HERE && s.conns[0].verified.None?
    && s.conns[0].open && s.conns[0].holdsReg == (n > 0)
    && |s.registry| == n && forall id | id in s.registry :: CollectedRecord(s.registry[id], id, n)
  }

  ghost predicate CollectedRecord(p: Peer, id: PeerId, n: nat) {
    |id| < n && p.network == id && p.chan == 0
  }

  /** The one connection's slots are all the slots there are. */
  lemma OnlySlots(cfg: Config, s: State, n: nat)
    requires Inv(cfg, s) && Collected(cfg, s, n)
    ensures RegSlots(s.conns, KeyOf(HERE)) == if n > 0 then 1 else 0
    ensures cfg.maxRegsPerIp >= 2 ==> CanTake(s.regCount, KeyOf(HERE), cfg.maxRegsPerIp)
  {
    var key := KeyOf(HERE);
    assert Picked(s.conns, SettledFrom(key)) == if n > 0 then {0} else {};
    assert Picked(s.conns, InFlightFrom(key)) == {};
    assert SlotsOkFor(cfg, s.conns, s.connCount, s.regCount, key);
  }

  /** A connection may register any number of ids in turn, up to the registry's capacity: every one
      stays registered, and the source is charged for one slot. */
  lemma {:induction false} ManyRecordsOneSlot(cfg: Config, n: nat) returns (r: Run)
    requires cfg.maxRegsPerIp >= 2 && n <= cfg.maxConnections
    ensures IsRun(cfg, r) && Collected(cfg, Last(r), n)
    ensures |RecordsFrom(Last(r), KeyOf(HERE))| == n && RegSlots(Last(r).conns, KeyOf(HERE)) == if n > 0 then 1 else 0
  {
    if n == 0 {
      r := StartRun(cfg);
      r := Opens(cfg, r, 0, HERE);
    } else {
      r := ManyRecordsOneSlot(cfg, n - 1);
      KnownNow(cfg, r);
      OnlySlots(cfg, Last(r), n - 1);
      var s := Last(r);
      r := Registers(cfg, r, 0, Name(n - 1), Name(n - 1));
      CollectsOne(cfg, s, Last(r), n);
    }
    KnownNow(cfg, r);
    OnlySlots(cfg, Last(r), n);
    assert RecordsFrom(Last(r), KeyOf(HERE)) == Last(r).registry.Keys;
  }

  lemma CollectsOne(cfg: Config, s: State, s': State, n: nat)
    requires n > 0 && Collected(cfg, s, n - 1)
    requires s'.registry == s.registry[Name(n - 1) := Newcomer(Name(n - 1), Name(n - 1), 0)]
    requires 0 in s'.conns
    requires s'.conns == s.conns[0 := Settled(s.conns[0], Name(n - 1), Name(n - 1), s.now, s'.conns[0].queue)]
    ensures Collected(cfg, s', n)
  {
    assert s'.registry.Keys == s.registry.Keys + {Name(n - 1)};
    forall id | id in s'.registry
      ensures CollectedRecord(s'.registry[id], id, n)
    {
      if id != Name(n - 1) {
        assert CollectedRecord(s.registry[id], id, n - 1);
      }
    }
  }

  ghost predicate WithinCap(cfg: Config, r: Run, i: nat, key: IpKey)
    requires i < |r.states|
  {
    |RecordsFrom(r.states[i], key)| <= cfg.maxRegsPerIp
  }

  /** A source's live registrations stay within the cap in every run exactly when the cap is one or no
      smaller than the registry. Otherwise one connection can go past it. */
  lemma CapBoundsRecordsExactlyWhen(cfg: Config)
    requires cfg.maxRegsPerIp > 0
    ensures (forall r: Run, i: nat, key | IsRun(cfg, r) && i < |r.states| :: WithinCap(cfg, r, i, key)) <==>
            cfg.maxRegsPerIp == 1 || cfg.maxConnections <= cfg.maxRegsPerIp
  {
    if cfg.maxRegsPerIp == 1 || cfg.maxConnections <= cfg.maxRegsPerIp {
      forall r: Run, i: nat, key | IsRun(cfg, r) && i < |r.states|
        ensures WithinCap(cfg, r, i, key)
      {
        RunInv(cfg, r, i);
        if cfg.maxRegsPerIp == 1 {
          SteadyAtCapOne(cfg, r, i);
          SteadyBoundsRecords(cfg, r.states[i], key);
        } else {
          RegistryBoundsRecords(cfg, r.states[i], key);
        }
      }
    } else {
      var r := ManyRecordsOneSlot(cfg, cfg.maxRegsPerIp + 1);
      assert !WithinCap(cfg, r, |r.states| - 1, KeyOf(HERE));
    }
  }

  // ---- How long a slot is held ----

  /** A registration slot is documented as released when the health sweep prunes its record. It is not:
      a pruning frees no slot, */
  lemma SweepFreesNoSlot(cfg: Config, s: State, at: nat, victims: seq<Victim>, key: IpKey)
    requires Inv(cfg, s) && Enabled(cfg, s, Sweep(at, victims))
    ensures var s' := Step(cfg, s, Sweep(at, victims));
            && s'.regCount == s.regCount && RegSlots(s'.conns, key) == RegSlots(s.conns, key)
            && s'.registry.Keys == s.registry.Keys - Victims(cfg, s, at)
  {
    SweepIsExact(cfg, s, at, victims);
  }

  /** and over every run a connection that has registered holds its slot exactly until it has ended. */
  lemma {:induction false} SlotLastsToTheEnd(cfg: Config, r: Run, i: nat, j: nat, c: ConnId)
    requires IsRun(cfg, r) && i <= j < |r.states| && c in r.states[i].conns && r.states[i].conns[c].holdsReg
    ensures c in r.states[j].conns && (r.states[j].conns[c].holdsReg <==> !r.states[j].conns[c].phase.Gone?)
    decreases j
  {
    RunInv(cfg, r, j);
    if i == j {
      assert ConnOk(cfg, r.states[j].now, r.states[j].conns, r.states[j].conns[c]);
    } else {
      var s, e := r.states[j - 1], r.events[j - 1];
      SlotLastsToTheEnd(cfg, r, i, j - 1, c);
      RunInv(cfg, r, j - 1);
      assert StepAt(cfg, r, j - 1) && ConnOk(cfg, s.now, s.conns, s.conns[c]);
      if Owner(e) == Some(c) {
        OwnStep(cfg, s, e, c);
      } else {
        OthersOnlySend(cfg, s, e, c);
      }
    }
  }
}
