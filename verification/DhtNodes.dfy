/** Who is behind the numbers of the published view. */
module DhtNodes {
  import opened Net
  import opened Wire
  import opened DhtView
  import RateHistory

  /** The answers of the current window. Every frame of records from a registered peer is kept, however
      many it has sent already. */
  class Collector {
    var answers: seq<Answer>

    constructor ()
      ensures answers == []
    {
      answers := [];
    }

    method Push(session: Session, records: seq<Record>, truncated: bool)
      modifies this
      ensures answers == if session.peer.None? then old(answers)
                         else old(answers) + [Answer(session.peer.value, records, truncated)]
    {
      if session.peer.Some? {
        answers := answers + [Answer(session.peer.value, records, truncated)];
      }
    }

    /** The window ends: the view is built from what has come, and the next one starts empty. */
    method Publish(now: U64) returns (view: View)
      modifies this
      ensures answers == [] && exists ranking :: IsView(old(answers), now, view, ranking)
    {
      view := BuildDhtView(answers, now);
      answers := [];
    }
  }

  /** One frame of records, with the session of the connection it came on. */
  datatype Frame = Frame(session: Session, records: seq<Record>, truncated: bool)

  /** What a window keeps of its frames: those of registered peers, under their sender. */
  ghost function Kept(frames: seq<Frame>): seq<Answer> {
    if frames == [] then []
    else
      var last := frames[|frames| - 1];
      Kept(frames[..|frames| - 1])
      + if last.session.peer.Some? then [Answer(last.session.peer.value, last.records, last.truncated)] else []
  }

  /** A window from its first frame to its view. The view counts the frames of registered peers and their
      records of each key; a count is that of the nodes behind it exactly when none is behind two. */
  method CollectWindow(frames: seq<Frame>, now: U64) returns (view: View)
    ensures exists ranking :: IsView(Kept(frames), now, view, ranking)
    ensures view.reportingPeers == |set i | 0 <= i < |frames| && frames[i].session.peer.Some?|
    ensures view.reportingPeers == |Senders(Kept(frames))| <==> OneEach(Kept(frames), Once())
    ensures forall e | e in view.keys ::
              && e.reportedBy == Sum(Kept(frames), Listing(e.key)) >= |Reporters(Kept(frames), e.key)| >= 1
              && (e.reportedBy == |Reporters(Kept(frames), e.key)| <==> OneEach(Kept(frames), Listing(e.key)))
  {
    var collector := new Collector();
    for i := 0 to |frames|
      invariant collector.answers == Kept(frames[..i])
    {
      assert frames[..i + 1][..i] == frames[..i];
      collector.Push(frames[i].session, frames[i].records, frames[i].truncated);
    }
    assert frames[..|frames|] == frames;
    view := collector.Publish(now);
    ghost var ranking :| IsView(Kept(frames), now, view, ranking);
    KeptCount(frames);
    PublishedCounts(Kept(frames), now, view, ranking);
  }

  lemma {:induction false} KeptCount(frames: seq<Frame>)
    ensures |Kept(frames)| == |set i | 0 <= i < |frames| && frames[i].session.peer.Some?|
  {
    if frames != [] {
      var n := |frames| - 1;
      var fewer := frames[..n];
      KeptCount(fewer);
      var before := set i | 0 <= i < n && fewer[i].session.peer.Some?;
      assert (set i | 0 <= i < |frames| && frames[i].session.peer.Some?)
          == before + if frames[n].session.peer.Some? then {n} else {};
    }
  }

  lemma PublishedCounts(answers: seq<Answer>, t: U64, view: View, ranking: seq<Entry>)
    requires IsView(answers, t, view, ranking)
    ensures view.reportingPeers == |Senders(answers)| <==> OneEach(answers, Once())
    ensures forall e | e in view.keys ::
              && e.reportedBy == Sum(answers, Listing(e.key)) >= |Reporters(answers, e.key)| >= 1
              && (e.reportedBy == |Reporters(answers, e.key)| <==> OneEach(answers, Listing(e.key)))
  {
    PeersAreNodesExactlyWhen(answers, t, view, ranking);
    forall e | e in view.keys
      ensures e.reportedBy == Sum(answers, Listing(e.key)) >= |Reporters(answers, e.key)| >= 1
      ensures e.reportedBy == |Reporters(answers, e.key)| <==> OneEach(answers, Listing(e.key))
    {
      assert e in ranking;
      CountIsNodesExactlyWhen(answers, e.key);
      RecordsAreListed(answers, e.key);
      HasARecord(AllRecords(answers), e.key);
      SomeoneIsBehind(answers, Listing(e.key));
    }
  }

  lemma {:induction false} HasARecord(records: seq<Record>, key: string)
    requires key in KeysOf(records)
    ensures RecordsFor(records, key) > 0
  {
    var fewer, last := records[..|records| - 1], records[|records| - 1];
    assert records == fewer + [last];
    KeysStep(fewer, last);
    if last.key != key {
      HasARecord(fewer, key);
    }
  }

  lemma {:induction false} SomeoneIsBehind(answers: seq<Answer>, w: Answer -> nat)
    ensures Sum(answers, w) > 0 <==> Active(answers, w) != {}
  {
    if answers != [] {
      SomeoneIsBehind(answers[..|answers| - 1], w);
    }
  }

  // ---- Counting by sender ----

  ghost function Sum(answers: seq<Answer>, w: Answer -> nat): nat {
    if answers == [] then 0 else Sum(answers[..|answers| - 1], w) + w(answers[|answers| - 1])
  }

  ghost function SumOf(answers: seq<Answer>, sender: string, w: Answer -> nat): nat {
    if answers == [] then 0
    else
      var last := answers[|answers| - 1];
      SumOf(answers[..|answers| - 1], sender, w) + if last.sender == sender then w(last) else 0
  }

  /** The senders with a positive sum. */
  ghost function Active(answers: seq<Answer>, w: Answer -> nat): set<string> {
    if answers == [] then {}
    else
      var last := answers[|answers| - 1];
      Active(answers[..|answers| - 1], w) + if w(last) > 0 then {last.sender} else {}
  }

  lemma {:induction false} ActiveHaveSome(answers: seq<Answer>, sender: string, w: Answer -> nat)
    ensures sender in Active(answers, w) <==> SumOf(answers, sender, w) > 0
  {
    if answers != [] {
      ActiveHaveSome(answers[..|answers| - 1], sender, w);
    }
  }

  ghost predicate OneEach(answers: seq<Answer>, w: Answer -> nat) {
    forall sender :: SumOf(answers, sender, w) <= 1
  }

  /** The sum is the number of senders behind it exactly when none is behind more than one of it. */
  lemma {:induction false} SumIsSendersExactlyWhen(answers: seq<Answer>, w: Answer -> nat)
    ensures Sum(answers, w) >= |Active(answers, w)|
    ensures Sum(answers, w) == |Active(answers, w)| <==> OneEach(answers, w)
  {
    if answers != [] {
      var fewer, last := answers[..|answers| - 1], answers[|answers| - 1];
      SumIsSendersExactlyWhen(fewer, w);
      ActiveHaveSome(fewer, last.sender, w);
      assert SumOf(answers, last.sender, w) == SumOf(fewer, last.sender, w) + w(last);
      assert OneEach(answers, w) <==> OneEach(fewer, w) && SumOf(fewer, last.sender, w) + w(last) <= 1 by {
        OneEachStep(answers, w);
      }
    }
  }

  lemma OneEachStep(answers: seq<Answer>, w: Answer -> nat)
    requires answers != []
    ensures var fewer, last := answers[..|answers| - 1], answers[|answers| - 1];
            OneEach(answers, w) <==> OneEach(fewer, w) && SumOf(fewer, last.sender, w) + w(last) <= 1
  {
    var fewer, last := answers[..|answers| - 1], answers[|answers| - 1];
    assert forall x :: SumOf(answers, x, w) == SumOf(fewer, x, w) + if last.sender == x then w(last) else 0;
    if OneEach(answers, w) {
      forall x
        ensures SumOf(fewer, x, w) <= 1
      {
        assert SumOf(answers, x, w) <= 1;
      }
      assert SumOf(answers, last.sender, w) <= 1;
    }
  }

  // ---- What the published numbers count ----

  ghost function Listing(key: string): Answer -> nat {
    (a: Answer) => RecordsFor(a.records, key)
  }

  ghost function Once(): Answer -> nat {
    (a: Answer) => 1
  }

  /** The nodes that report `key`. */
  ghost function Reporters(answers: seq<Answer>, key: string): set<string> {
    Active(answers, Listing(key))
  }

  /** The nodes that have answered. */
  ghost function Senders(answers: seq<Answer>): set<string> {
    Active(answers, Once())
  }

  lemma {:induction false} RecordsAreListed(answers: seq<Answer>, key: string)
    ensures RecordsFor(AllRecords(answers), key) == Sum(answers, Listing(key))
  {
    if answers != [] {
      var n := |answers| - 1;
      RecordsAreListed(answers[..n], key);
      RecordsForJoined(AllRecords(answers[..n]), answers[n].records, key);
    }
  }

  lemma {:induction false} AnswersAreCounted(answers: seq<Answer>)
    ensures |answers| == Sum(answers, Once())
  {
    if answers != [] {
      AnswersAreCounted(answers[..|answers| - 1]);
    }
  }

  /** A key's count is documented as the number of nodes that know it. It counts records, so it is at
      least that number, and is it exactly when no node has sent two records of the key, in one answer
      or in several. */
  lemma CountIsNodesExactlyWhen(answers: seq<Answer>, key: string)
    ensures EntryFor(AllRecords(answers), key).reportedBy >= |Reporters(answers, key)|
    ensures EntryFor(AllRecords(answers), key).reportedBy == |Reporters(answers, key)|
            <==> OneEach(answers, Listing(key))
  {
    RecordsAreListed(answers, key);
    SumIsSendersExactlyWhen(answers, Listing(key));
  }

  /** The view's number of reporting peers counts answers, so it is the number of nodes exactly when none
      has sent two. */
  lemma PeersAreNodesExactlyWhen(answers: seq<Answer>, t: U64, view: View, ranking: seq<Entry>)
    requires IsView(answers, t, view, ranking)
    ensures view.reportingPeers >= |Senders(answers)|
    ensures view.reportingPeers == |Senders(answers)| <==> OneEach(answers, Once())
  {
    AnswersAreCounted(answers);
    SumIsSendersExactlyWhen(answers, Once());
  }

  /** A key no node has sent twice displaces only keys that no more nodes report, and only from a full
      view. */
  lemma ReplicatedKeysStay(answers: seq<Answer>, t: U64, view: View, ranking: seq<Entry>, kept: Entry, dropped: Entry)
    requires IsView(answers, t, view, ranking) && OneEach(answers, Listing(kept.key))
    requires kept in view.keys && dropped in ranking && dropped !in view.keys
    ensures |view.keys| == MAX_PUBLISHED_KEYS
    ensures |Reporters(answers, kept.key)| >= |Reporters(answers, dropped.key)|
  {
    CapKeepsTheBest(answers, t, view, ranking, kept, dropped);
    CountIsNodesExactlyWhen(answers, kept.key);
    CountIsNodesExactlyWhen(answers, dropped.key);
    assert kept in ranking;
  }

  // ---- More answers ----

  lemma {:induction false} Joined(a: seq<Answer>, b: seq<Answer>, w: Answer -> nat)
    ensures Sum(a + b, w) == Sum(a, w) + Sum(b, w) && Active(a + b, w) == Active(a, w) + Active(b, w)
    ensures forall x :: SumOf(a + b, x, w) == SumOf(a, x, w) + SumOf(b, x, w)
    decreases |b|
  {
    if b == [] {
      assert a + b == a;
    } else {
      Joined(a, b[..|b| - 1], w);
      assert (a + b)[..|a + b| - 1] == a + b[..|b| - 1];
    }
  }

  lemma {:induction false} PartOfSum(answers: seq<Answer>, sender: string, w: Answer -> nat)
    ensures SumOf(answers, sender, w) <= Sum(answers, w)
  {
    if answers != [] {
      PartOfSum(answers[..|answers| - 1], sender, w);
    }
  }

  /** Answers of one sender have one sender behind them, if any. */
  lemma {:induction false} OneSender(answers: seq<Answer>, sender: string, w: Answer -> nat)
    requires forall a | a in answers :: a.sender == sender
    ensures Active(answers, w) == if Sum(answers, w) > 0 then {sender} else {}
  {
    if answers != [] {
      OneSender(answers[..|answers| - 1], sender, w);
    }
  }

  /** Names longer than `key`, each of its own length. */
  function Fresh(key: string, i: nat): (name: string)
    ensures |name| == |key| + 1 + i
  {
    key + seq(i + 1, _ => 'x')
  }

  /** `n` nodes, each with one record of `key`. */
  function Honest(key: string, n: nat): (answers: seq<Answer>)
    ensures |answers| == n
  {
    if n == 0 then [] else Honest(key, n - 1) + [Answer(Fresh("", n), [Record(key, 0)], false)]
  }

  lemma SingleCounts(r: Record, key: string)
    ensures RecordsFor([r], key) == if r.key == key then 1 else 0
  {
    var one := [r];
    assert one[..|one| - 1] == [] && RecordsFor([], key) == 0;
  }

  lemma {:induction false} HonestCounts(key: string, n: nat, other: string)
    ensures Sum(Honest(key, n), Listing(other)) == if other == key then n else 0
    ensures forall x | x in Active(Honest(key, n), Listing(other)) :: 2 <= |x| <= n + 1
    ensures |Active(Honest(key, n), Listing(other))| == if other == key then n else 0
  {
    if n > 0 {
      HonestCounts(key, n - 1, other);
      var last := Answer(Fresh("", n), [Record(key, 0)], false);
      SingleCounts(Record(key, 0), other);
      assert Listing(other)(last) == if other == key then 1 else 0;
      OneMore(Honest(key, n - 1), last, Listing(other));
    }
  }

  lemma OneMore(answers: seq<Answer>, last: Answer, w: Answer -> nat)
    ensures Sum(answers + [last], w) == Sum(answers, w) + w(last)
    ensures Active(answers + [last], w) == Active(answers, w) + if w(last) > 0 then {last.sender} else {}
  {
    var all := answers + [last];
    assert all[..|all| - 1] == answers;
  }

  // ---- When a key outranks one that more nodes report ----

  /** After the further answers `more`, none of them of the key `mine`, it ranks ahead of the key
      `theirs`, which more nodes report. */
  ghost predicate Overrated(answers: seq<Answer>, more: seq<Answer>, mine: string, theirs: string) {
    var all := answers + more;
    && Sum(more, Listing(mine)) == 0 && |Reporters(all, mine)| < |Reporters(all, theirs)|
    && Ahead(EntryFor(AllRecords(all), mine), EntryFor(AllRecords(all), theirs))
  }

  /** The order is documented as keeping one node's inventions behind what many nodes report. It does so
      for a key exactly when no node has sent that key twice. */
  lemma OverratedExactlyWhen(answers: seq<Answer>, mine: string)
    ensures (exists more, theirs :: Overrated(answers, more, mine, theirs)) <==> !OneEach(answers, Listing(mine))
  {
    if OneEach(answers, Listing(mine)) {
      forall more, theirs
        ensures !Overrated(answers, more, mine, theirs)
      {
        RightlyRanked(answers, more, mine, theirs);
      }
    } else {
      var more, theirs := Overrate(answers, mine);
      assert Overrated(answers, more, mine, theirs);
    }
  }

  lemma RightlyRanked(answers: seq<Answer>, more: seq<Answer>, mine: string, theirs: string)
    requires OneEach(answers, Listing(mine))
    ensures !Overrated(answers, more, mine, theirs)
  {
    if Overrated(answers, more, mine, theirs) {
      var all := answers + more;
      Joined(answers, more, Listing(mine));
      forall x
        ensures SumOf(all, x, Listing(mine)) <= 1
      {
        PartOfSum(more, x, Listing(mine));
        assert SumOf(answers, x, Listing(mine)) <= 1;
      }
      CountIsNodesExactlyWhen(all, mine);
      CountIsNodesExactlyWhen(all, theirs);
      assert false;
    }
  }

  /** Enough nodes report a new name once each: one node more than report `mine`. */
  lemma Overrate(answers: seq<Answer>, mine: string) returns (more: seq<Answer>, theirs: string)
    requires !OneEach(answers, Listing(mine))
    ensures Overrated(answers, more, mine, theirs)
  {
    var n := |Reporters(answers, mine)| + 1;
    theirs := Fresh(mine, Longest(AllRecords(answers)));
    more := Honest(theirs, n);
    var all := answers + more;
    NewName(AllRecords(answers), theirs);
    HonestCounts(theirs, n, mine);
    HonestCounts(theirs, n, theirs);
    CountsWith(answers, more, mine);
    CountsWith(answers, more, theirs);
    CountIsNodesExactlyWhen(answers, mine);
    HonestRecords(theirs, n);
    NoProviders(answers, more, theirs);
    LongerIsLater(mine, Longest(AllRecords(answers)));
  }

  lemma CountsWith(answers: seq<Answer>, more: seq<Answer>, key: string)
    ensures RecordsFor(AllRecords(answers + more), key)
         == RecordsFor(AllRecords(answers), key) + Sum(more, Listing(key))
    ensures Reporters(answers + more, key) == Reporters(answers, key) + Reporters(more, key)
    ensures Reporters(answers, key) == {} <==> RecordsFor(AllRecords(answers), key) == 0
  {
    Joined(answers, more, Listing(key));
    RecordsAreListed(answers, key);
    RecordsAreListed(answers + more, key);
    SomeoneIsBehind(answers, Listing(key));
  }

  ghost function Longest(records: seq<Record>): nat {
    if records == [] then 0
    else
      var rest, last := Longest(records[..|records| - 1]), |records[|records| - 1].key|;
      if last > rest then last else rest
  }

  /** A name longer than every key is new. */
  lemma {:induction false} NewName(records: seq<Record>, name: string)
    requires |name| > Longest(records)
    ensures RecordsFor(records, name) == 0 && MostProviders(records, name) == 0
  {
    if records != [] {
      NewName(records[..|records| - 1], name);
    }
  }

  lemma {:induction false} HonestRecords(name: string, n: nat)
    ensures forall a | a in Honest(name, n) :: a.records == [Record(name, 0)]
  {
    if n > 0 {
      HonestRecords(name, n - 1);
    }
  }

  /** Records without providers add none. */
  lemma {:induction false} NoProviders(answers: seq<Answer>, more: seq<Answer>, name: string)
    requires forall a | a in more :: a.records == [Record(name, 0)]
    ensures MostProviders(AllRecords(answers + more), name) == MostProviders(AllRecords(answers), name)
    decreases |more|
  {
    if more == [] {
      assert answers + more == answers;
    } else {
      var fewer, last := more[..|more| - 1], more[|more| - 1];
      NoProviders(answers, fewer, name);
      Regrouped(answers, more);
      OneMoreAnswer(answers + fewer, last);
      OneMoreProvider(AllRecords(answers + fewer), Record(name, 0), name);
    }
  }

  lemma Regrouped<T>(a: seq<T>, b: seq<T>)
    requires b != []
    ensures a + b == a + b[..|b| - 1] + [b[|b| - 1]]
  {
  }

  lemma OneMoreAnswer(answers: seq<Answer>, last: Answer)
    ensures AllRecords(answers + [last]) == AllRecords(answers) + last.records
  {
    var all := answers + [last];
    assert all[..|all| - 1] == answers;
  }

  lemma OneMoreProvider(records: seq<Record>, r: Record, key: string)
    ensures r.providers == 0 ==> MostProviders(records + [r], key) == MostProviders(records, key)
  {
    var all := records + [r];
    assert all[..|all| - 1] == records;
  }

  lemma {:induction false} LongerIsLater(name: string, i: nat)
    ensures StringLess(name, Fresh(name, i))
  {
    if name != [] {
      LongerIsLater(name[1..], i);
      assert Fresh(name, i)[1..] == Fresh(name[1..], i);
    }
  }

  // ---- One node against many ----

  function Copies(r: Record, n: nat): seq<Record> {
    if n == 0 then [] else Copies(r, n - 1) + [r]
  }

  lemma {:induction false} CopiesCount(r: Record, n: nat, key: string)
    ensures RecordsFor(Copies(r, n), key) == if r.key == key then n else 0
  {
    if n > 0 {
      CopiesCount(r, n - 1, key);
      assert Copies(r, n)[..|Copies(r, n)| - 1] == Copies(r, n - 1);
    }
  }

  ghost predicate Distinct(names: seq<string>) {
    forall i, j | 0 <= i < j < |names| :: names[i] != names[j]
  }

  /** `copies` records of each name. */
  function Flood(names: seq<string>, copies: nat): seq<Record> {
    if names == [] then []
    else Flood(names[..|names| - 1], copies) + Copies(Record(names[|names| - 1], 0), copies)
  }

  lemma {:induction false} FloodCounts(names: seq<string>, copies: nat, x: string)
    requires Distinct(names)
    ensures RecordsFor(Flood(names, copies), x) == if x in names then copies else 0
  {
    if names != [] {
      var fewer, r := names[..|names| - 1], Record(names[|names| - 1], 0);
      FloodCounts(fewer, copies, x);
      RecordsForJoined(Flood(fewer, copies), Copies(r, copies), x);
      CopiesCount(r, copies, x);
      assert names == fewer + [r.key];
    }
  }

  lemma {:induction false} DistinctCount(names: seq<string>)
    requires Distinct(names)
    ensures |(set x | x in names)| == |names|
  {
    if names != [] {
      var fewer, last := names[..|names| - 1], names[|names| - 1];
      DistinctCount(fewer);
      assert names == fewer + [last];
      assert (set x | x in names) == (set x | x in fewer) + {last};
    }
  }

  /** The keys of the first `j` entries. */
  ghost function KeysBefore(ranking: seq<Entry>, j: nat): set<string>
    requires j <= |ranking|
  {
    if j == 0 then {} else KeysBefore(ranking, j - 1) + {ranking[j - 1].key}
  }

  lemma {:induction false} KeysBeforeAre(ranking: seq<Entry>, j: nat)
    requires j <= |ranking|
    ensures |KeysBefore(ranking, j)| <= j && forall i | 0 <= i < j :: ranking[i].key in KeysBefore(ranking, j)
  {
    if j > 0 {
      KeysBeforeAre(ranking, j - 1);
    }
  }

  lemma HasItsKey(records: seq<Record>, key: string)
    requires RecordsFor(records, key) > 0
    ensures key in KeysOf(records)
  {
    if key !in KeysOf(records) {
      NoRecordsForOthers(records, key);
    }
  }

  /** A key with more records ranks ahead. */
  lemma MoreIsAhead(records: seq<Record>, ranking: seq<Entry>, j: nat, x: string)
    requires FullRanking(records, ranking) && j < |ranking|
    requires RecordsFor(records, x) > RecordsFor(records, ranking[j].key)
    ensures x in KeysBefore(ranking, j)
  {
    HasItsKey(records, x);
    var e := EntryFor(records, x);
    assert e in ranking && ranking[j] in ranking;
    var f :| 0 <= f < |ranking| && ranking[f] == e;
    assert Ahead(e, ranking[j]);
    AheadIsStrict(e, ranking[j], e);
    assert f < j;
    KeysBeforeAre(ranking, j);
  }

  /** A key is out of every view once as many keys as it holds have more records. */
  lemma Outnumbered(answers: seq<Answer>, t: U64, view: View, ranking: seq<Entry>, key: string, names: set<string>)
    requires IsView(answers, t, view, ranking) && |names| >= MAX_PUBLISHED_KEYS
    requires forall x | x in names :: RecordsFor(AllRecords(answers), x) > RecordsFor(AllRecords(answers), key)
    ensures forall e | e in view.keys :: e.key != key
  {
    forall j | 0 <= j < |view.keys|
      ensures view.keys[j].key != key
    {
      if view.keys[j].key == key {
        forall x | x in names
          ensures x in KeysBefore(ranking, j)
        {
          MoreIsAhead(AllRecords(answers), ranking, j, x);
        }
        KeysBeforeAre(ranking, j);
        RateHistory.Subset(names, KeysBefore(ranking, j));
      }
    }
  }

  /** However many nodes report a key, one node can put it out of every view. It sends one record more
      than they do of each of as many other names as a view holds, in any order and in frames of any
      size. Then each key of the view is reported by that node alone. */
  lemma OneNodeDisplacesMany(
      key: string, n: nat, names: seq<string>, node: string, frames: seq<Answer>, t: U64, view: View,
      ranking: seq<Entry>)
    requires Distinct(names) && key !in names && |names| >= MAX_PUBLISHED_KEYS
    requires forall a | a in frames :: a.sender == node
    requires multiset(AllRecords(frames)) == multiset(Flood(names, n + 1))
    requires IsView(Honest(key, n) + frames, t, view, ranking)
    ensures |Reporters(Honest(key, n) + frames, key)| == n
    ensures forall e | e in view.keys ::
              e.key != key && e.key in names && Reporters(Honest(key, n) + frames, e.key) == {node}
  {
    var all, flood := Honest(key, n) + frames, set x | x in names;
    FloodedCounts(key, n, names, node, frames, key);
    forall x | x in flood
      ensures RecordsFor(AllRecords(all), x) == n + 1
    {
      FloodedCounts(key, n, names, node, frames, x);
    }
    DistinctCount(names);
    Outnumbered(all, t, view, ranking, key, flood);
    forall e | e in view.keys
      ensures e.key in names && Reporters(all, e.key) == {node}
    {
      assert e in ranking && e.key != key;
      FloodedCounts(key, n, names, node, frames, e.key);
      HasARecord(AllRecords(all), e.key);
    }
  }

  lemma FloodedCounts(key: string, n: nat, names: seq<string>, node: string, frames: seq<Answer>, x: string)
    requires Distinct(names) && key !in names && forall a | a in frames :: a.sender == node
    requires multiset(AllRecords(frames)) == multiset(Flood(names, n + 1))
    ensures var all := Honest(key, n) + frames;
            && RecordsFor(AllRecords(all), x) == (if x == key then n else if x in names then n + 1 else 0)
            && (x == key ==> |Reporters(all, x)| == n) && (x in names ==> Reporters(all, x) == {node})
  {
    FrameCounts(names, n + 1, node, frames, x);
    HonestCounts(key, n, x);
    RecordsAreListed(Honest(key, n), x);
    CountsWith(Honest(key, n), frames, x);
  }

  lemma FrameCounts(names: seq<string>, copies: nat, node: string, frames: seq<Answer>, x: string)
    requires Distinct(names) && forall a | a in frames :: a.sender == node
    requires multiset(AllRecords(frames)) == multiset(Flood(names, copies))
    ensures Sum(frames, Listing(x)) == if x in names then copies else 0
    ensures Reporters(frames, x) == if x in names && copies > 0 then {node} else {}
  {
    FloodCounts(names, copies, x);
    EntryIgnoresOrder(AllRecords(frames), Flood(names, copies), x);
    RecordsAreListed(frames, x);
    OneSender(frames, node, Listing(x));
  }

  /** The records in frames of one record each. */
  function Singles(node: string, records: seq<Record>): seq<Answer> {
    if records == [] then []
    else Singles(node, records[..|records| - 1]) + [Answer(node, [records[|records| - 1]], false)]
  }

  lemma {:induction false} SinglesAre(node: string, records: seq<Record>)
    ensures AllRecords(Singles(node, records)) == records
    ensures forall a | a in Singles(node, records) ::
              a.sender == node && |a.records| == 1 && a.records[0] in records
  {
    if records != [] {
      var n := |records| - 1;
      SinglesAre(node, records[..n]);
      var all := Singles(node, records);
      assert all[..|all| - 1] == Singles(node, records[..n]);
      assert records == records[..n] + [records[n]];
    }
  }

  /** Nor does it take a repetition within one answer to rank a key ahead of one that any number of other
      nodes report. */
  lemma OneNodeOutranksMany(mine: string, theirs: string, n: nat, node: string) returns (answers: seq<Answer>)
    requires mine != theirs
    ensures Reporters(answers, mine) == {node} && |Reporters(answers, theirs)| == n
    ensures forall a | a in answers :: |a.records| == 1
    ensures Ahead(EntryFor(AllRecords(answers), mine), EntryFor(AllRecords(answers), theirs))
  {
    var names, honest := [mine], Honest(theirs, n);
    var frames := Singles(node, Flood(names, n + 1));
    SinglesAre(node, Flood(names, n + 1));
    HonestRecords(theirs, n);
    FloodedCounts(theirs, n, names, node, frames, mine);
    FloodedCounts(theirs, n, names, node, frames, theirs);
    answers := honest + frames;
  }

  function Digit(i: nat): char
    requires i < 16
  {
    if i < 10 then ('0' as int + i) as char else ('a' as int + i - 10) as char
  }

  /** A content key: 64 hexadecimal digits, the last three of them those of `i`. */
  function ContentKey(i: nat): (key: string)
    requires i < 4096
    ensures |key| == 64
  {
    seq(61, _ => '0') + [Digit(i / 16 / 16), Digit(i / 16 % 16), Digit(i % 16)]
  }

  lemma ContentKeysDiffer(i: nat, j: nat)
    requires i < 4096 && j < 4096 && ContentKey(i) == ContentKey(j)
    ensures i == j
  {
    var a, b := ContentKey(i), ContentKey(j);
    assert a[61] == b[61] && a[62] == b[62] && a[63] == b[63];
  }

  /** The first `k` content keys but `key`. */
  function ContentKeys(key: string, k: nat): seq<string>
    requires k <= 4096
  {
    if k == 0 then []
    else ContentKeys(key, k - 1) + if ContentKey(k - 1) == key then [] else [ContentKey(k - 1)]
  }

  ghost predicate IsContentKey(x: string, k: nat)
    requires k <= 4096
  {
    exists i: nat | i < k :: x == ContentKey(i)
  }

  lemma NextIsNew(k: nat)
    requires k < 4096
    ensures !IsContentKey(ContentKey(k), k)
  {
    if i: nat :| i < k && ContentKey(k) == ContentKey(i) {
      ContentKeysDiffer(i, k);
    }
  }

  lemma {:induction false} ContentKeysAre(key: string, k: nat)
    requires k <= 4096
    ensures Distinct(ContentKeys(key, k)) && key !in ContentKeys(key, k)
    ensures forall x | x in ContentKeys(key, k) :: IsContentKey(x, k) && |x| == 64
    ensures |ContentKeys(key, k)| == if IsContentKey(key, k) then k - 1 else k
  {
    if k > 0 {
      ContentKeysAre(key, k - 1);
      NextIsNew(k - 1);
      KeysWiden(key, k - 1);
      OneMoreName(ContentKeys(key, k - 1), ContentKey(k - 1), key);
      forall x | x in ContentKeys(key, k)
        ensures IsContentKey(x, k)
      {
        KeysWiden(x, k - 1);
      }
    }
  }

  lemma OneMoreName(names: seq<string>, next: string, key: string)
    requires Distinct(names) && key !in names && next !in names
    ensures var more := names + if next == key then [] else [next];
            Distinct(more) && key !in more && forall x | x in more :: x in names || x == next
  {
  }

  lemma KeysWiden(x: string, k: nat)
    requires k < 4096
    ensures IsContentKey(x, k + 1) <==> IsContentKey(x, k) || x == ContentKey(k)
  {
    if i: nat :| i < k && x == ContentKey(i) {
      assert i < k + 1;
    }
  }

  lemma {:induction false} FloodNames(names: seq<string>, copies: nat)
    ensures forall r | r in Flood(names, copies) :: r.key in names
  {
    if names != [] {
      var n := |names| - 1;
      FloodNames(names[..n], copies);
      CopiesNames(Record(names[n], 0), copies);
    }
  }

  lemma {:induction false} CopiesNames(r: Record, n: nat)
    ensures forall x | x in Copies(r, n) :: x == r
  {
    if n > 0 {
      CopiesNames(r, n - 1);
    }
  }

  /** Content keys of the usual 64 digits, in frames of one record each, are enough for it. */
  lemma SmallFramesSuffice(key: string, n: nat, node: string) returns (frames: seq<Answer>)
    ensures forall a | a in frames :: a.sender == node && |a.records| == 1 && |a.records[0].key| == 64
    ensures forall t, view, ranking | IsView(Honest(key, n) + frames, t, view, ranking) ::
              forall e | e in view.keys :: e.key != key
  {
    var names := ContentKeys(key, MAX_PUBLISHED_KEYS + 1);
    ContentKeysAre(key, MAX_PUBLISHED_KEYS + 1);
    FloodNames(names, n + 1);
    frames := Singles(node, Flood(names, n + 1));
    SinglesAre(node, Flood(names, n + 1));
    forall t, view, ranking | IsView(Honest(key, n) + frames, t, view, ranking)
      ensures forall e | e in view.keys :: e.key != key
    {
      OneNodeDisplacesMany(key, n, names, node, frames, t, view, ranking);
    }
  }
}
