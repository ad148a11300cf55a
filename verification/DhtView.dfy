/** The published view of what connected nodes report about the content layer. */
module DhtView {
  import opened Net

  const MAX_PUBLISHED_KEYS: nat := 2000

  datatype Record = Record(key: string, providers: nat)

  /** One frame of records a node has sent. The relay does not keep the sender, and no code here reads it. */
  datatype Answer = Answer(sender: string, records: seq<Record>, truncated: bool)

  datatype Entry = Entry(key: string, providers: nat, reportedBy: nat)

  datatype View = View(generatedAt: U64, reportingPeers: nat, totalKeys: nat, truncated: bool, keys: seq<Entry>)

  // ---- The order of entries ----

  /** Strings in byte order, which for UTF-8 is the order of their characters. */
  predicate StringLess(a: string, b: string) {
    if b == [] then false
    else if a == [] then true
    else a[0] < b[0] || (a[0] == b[0] && StringLess(a[1..], b[1..]))
  }

  /** The order of the published list: by reporters, ties by providers, ties by key. */
  predicate Ahead(a: Entry, b: Entry) {
    || a.reportedBy > b.reportedBy
    || (a.reportedBy == b.reportedBy && a.providers > b.providers)
    || (a.reportedBy == b.reportedBy && a.providers == b.providers && StringLess(a.key, b.key))
  }

  lemma {:induction false} StringLessIsStrict(a: string, b: string, c: string)
    ensures !StringLess(a, a)
    ensures StringLess(a, b) || StringLess(b, a) || a == b
    ensures StringLess(a, b) && StringLess(b, c) ==> StringLess(a, c)
    decreases |a| + |b| + |c|
  {
    if a != [] && b != [] && c != [] {
      StringLessIsStrict(a[1..], b[1..], c[1..]);
      assert a == [a[0]] + a[1..] && b == [b[0]] + b[1..];
    } else if a != [] && b != [] {
      StringLessIsStrict(a[1..], b[1..], []);
      assert a == [a[0]] + a[1..] && b == [b[0]] + b[1..];
    } else if a != [] && c != [] {
      StringLessIsStrict(a[1..], [], c[1..]);
    } else if a != [] {
      StringLessIsStrict(a[1..], [], []);
    }
  }

  lemma AheadIsStrict(a: Entry, b: Entry, c: Entry)
    ensures !Ahead(a, a)
    ensures Ahead(a, b) || Ahead(b, a) || a == b
    ensures Ahead(a, b) && Ahead(b, c) ==> Ahead(a, c)
    ensures !(Ahead(a, b) && Ahead(b, a))
  {
    StringLessIsStrict(a.key, b.key, c.key);
    StringLessIsStrict(a.key, b.key, a.key);
  }

  // ---- The reports as one bag of records ----

  ghost function AllRecords(answers: seq<Answer>): seq<Record> {
    if answers == [] then [] else AllRecords(answers[..|answers| - 1]) + answers[|answers| - 1].records
  }

  ghost predicate AnyTruncated(answers: seq<Answer>) {
    exists i :: 0 <= i < |answers| && answers[i].truncated
  }

  /** The most providers any record gives `key`. */
  ghost function MostProviders(records: seq<Record>, key: string): nat {
    if records == [] then 0
    else
      var r := records[|records| - 1];
      var rest := MostProviders(records[..|records| - 1], key);
      if r.key == key && r.providers > rest then r.providers else rest
  }

  /** How many records there are for `key`. */
  ghost function RecordsFor(records: seq<Record>, key: string): nat {
    if records == [] then 0
    else RecordsFor(records[..|records| - 1], key) + if records[|records| - 1].key == key then 1 else 0
  }

  ghost function KeysOf(records: seq<Record>): set<string> {
    set i | 0 <= i < |records| :: records[i].key
  }

  /** The entry a key must have, from the records alone. */
  ghost function EntryFor(records: seq<Record>, key: string): Entry {
    Entry(key, MostProviders(records, key), RecordsFor(records, key))
  }

  ghost predicate Union(union: map<string, (nat, nat)>, records: seq<Record>) {
    && union.Keys == KeysOf(records)
    && forall k | k in union :: union[k] == (MostProviders(records, k), RecordsFor(records, k))
  }

  lemma {:induction false} NoRecordsForOthers(records: seq<Record>, key: string)
    requires key !in KeysOf(records)
    ensures MostProviders(records, key) == 0 && RecordsFor(records, key) == 0
  {
    if records != [] {
      KeysStep(records[..|records| - 1], records[|records| - 1]);
      assert records == records[..|records| - 1] + [records[|records| - 1]];
      NoRecordsForOthers(records[..|records| - 1], key);
    }
  }

  lemma KeysStep(records: seq<Record>, r: Record)
    ensures KeysOf(records + [r]) == KeysOf(records) + {r.key}
  {
    var longer := records + [r];
    assert longer[|records|] == r;
    forall k | k in KeysOf(records)
      ensures k in KeysOf(longer)
    {
      var i :| 0 <= i < |records| && records[i].key == k;
      assert longer[i].key == k;
    }
  }

  /** One record folded into the union, as the inner loop does it. */
  function Fold(union: map<string, (nat, nat)>, r: Record): map<string, (nat, nat)> {
    var slot := if r.key in union then union[r.key] else (0, 0);
    union[r.key := (if slot.0 > r.providers then slot.0 else r.providers, slot.1 + 1)]
  }

  lemma FoldKeepsUnion(union: map<string, (nat, nat)>, records: seq<Record>, r: Record)
    requires Union(union, records)
    ensures Union(Fold(union, r), records + [r])
  {
    KeysStep(records, r);
    assert (records + [r])[..|records|] == records;
    if r.key !in union {
      NoRecordsForOthers(records, r.key);
    }
  }

  // ---- Sorting ----

  ghost predicate Ranked(s: seq<Entry>) {
    forall i, j | 0 <= i < j < |s| :: Ahead(s[i], s[j])
  }

  /** An entry put in its place. */
  function Insert(s: seq<Entry>, e: Entry): seq<Entry> {
    if s == [] then [e] else if Ahead(e, s[0]) then [e] + s else [s[0]] + Insert(s[1..], e)
  }

  lemma {:induction false} InsertKeeps(s: seq<Entry>, e: Entry)
    requires Ranked(s) && e !in s
    ensures Ranked(Insert(s, e)) && |Insert(s, e)| == |s| + 1
    ensures forall x :: x in Insert(s, e) <==> x in s || x == e
  {
    if s != [] {
      var head, tail := s[0], s[1..];
      assert s == [head] + tail;
      if Ahead(e, head) {
        forall j | 0 <= j < |s|
          ensures Ahead(e, s[j])
        {
          AheadIsStrict(e, head, s[j]);
        }
      } else {
        InsertKeeps(tail, e);
        AheadIsStrict(e, head, head);
        forall x | x in Insert(tail, e)
          ensures Ahead(head, x)
        {
          if x != e {
            var j :| 0 <= j < |tail| && tail[j] == x;
            assert s[j + 1] == x;
          }
        }
      }
    }
  }

  /** A ranked list is determined by what is in it. */
  lemma {:induction false} RankedIsUnique(s: seq<Entry>, t: seq<Entry>)
    requires Ranked(s) && Ranked(t)
    requires forall x :: x in s <==> x in t
    ensures s == t
  {
    HasItsFirst(s);
    HasItsFirst(t);
    if s != [] {
      assert s[0] in t && t[0] in s;
      FirstIsFirst(s, t[0]);
      FirstIsFirst(t, s[0]);
      AheadIsStrict(s[0], t[0], s[0]);
      assert s[0] == t[0];
      forall x
        ensures x in s[1..] <==> x in t[1..]
      {
        TailOf(s, x);
        TailOf(t, x);
      }
      RankedIsUnique(s[1..], t[1..]);
      assert s == [s[0]] + s[1..] && t == [t[0]] + t[1..];
    }
  }

  lemma HasItsFirst(s: seq<Entry>)
    ensures s != [] ==> s[0] in s
  {
  }

  lemma FirstIsFirst(s: seq<Entry>, x: Entry)
    requires Ranked(s) && x in s
    ensures x == s[0] || Ahead(s[0], x)
  {
    var i :| 0 <= i < |s| && s[i] == x;
  }

  lemma TailOf(s: seq<Entry>, x: Entry)
    requires Ranked(s) && s != []
    ensures x in s[1..] <==> x in s && x != s[0]
  {
    AheadIsStrict(x, x, x);
    if x in s && x != s[0] {
      var i :| 0 <= i < |s| && s[i] == x;
      assert s[1..][i - 1] == x;
    }
    if x in s[1..] {
      var i :| 0 <= i < |s| - 1 && s[1..][i] == x;
      assert s[i + 1] == x;
    }
  }

  // ---- The view ----

  /** The whole ranking, before the cap: an independent description of what is to be published. */
  ghost predicate FullRanking(records: seq<Record>, ranking: seq<Entry>) {
    Ranked(ranking) && forall e :: e in ranking <==> e.key in KeysOf(records) && e == EntryFor(records, e.key)
  }

  ghost predicate IsView(answers: seq<Answer>, generatedAt: U64, view: View, ranking: seq<Entry>) {
    var records := AllRecords(answers);
    && FullRanking(records, ranking)
    && view.generatedAt == generatedAt && view.reportingPeers == |answers|
    && view.totalKeys == |KeysOf(records)| == |ranking|
    && (view.truncated <==> AnyTruncated(answers) || view.totalKeys > MAX_PUBLISHED_KEYS)
    && view.keys == if |ranking| > MAX_PUBLISHED_KEYS then ranking[..MAX_PUBLISHED_KEYS] else ranking
  }

  lemma OneMoreRecord(before: seq<Record>, records: seq<Record>, j: nat)
    requires j < |records|
    ensures before + records[..j + 1] == before + records[..j] + [records[j]]
  {
  }

  method CollectUnion(answers: seq<Answer>) returns (union: map<string, (nat, nat)>)
    ensures Union(union, AllRecords(answers))
  {
    union := map[];
    for i := 0 to |answers|
      invariant Union(union, AllRecords(answers[..i]))
    {
      var records := answers[i].records;
      ghost var before := AllRecords(answers[..i]);
      assert before + records[..0] == before;
      for j := 0 to |records|
        invariant Union(union, before + records[..j])
      {
        FoldKeepsUnion(union, before + records[..j], records[j]);
        OneMoreRecord(before, records, j);
        union := Fold(union, records[j]);
      }
      assert records[..|records|] == records;
      assert answers[..i + 1][..i] == answers[..i];
    }
    assert answers[..|answers|] == answers;
  }

  method Rank(union: map<string, (nat, nat)>) returns (ranking: seq<Entry>)
    ensures Ranked(ranking) && |ranking| == |union|
    ensures forall e :: e in ranking <==> e.key in union && union[e.key] == (e.providers, e.reportedBy)
  {
    ranking := [];
    var rest := union;
    while |rest| > 0
      invariant rest.Keys <= union.Keys && (forall k | k in rest :: rest[k] == union[k])
      invariant Ranked(ranking) && |ranking| + |rest| == |union|
      invariant forall e ::
                  e in ranking <==> e.key in union && e.key !in rest && union[e.key] == (e.providers, e.reportedBy)
      decreases |rest|
    {
      var k :| k in rest;
      var e := Entry(k, rest[k].0, rest[k].1);
      InsertKeeps(ranking, e);
      ranking := Insert(ranking, e);
      ghost var before := rest;
      rest := rest - {k};
      assert rest.Keys == before.Keys - {k};
    }
    assert rest.Keys == {};
  }

  /** Build the view from the collected answers. */
  method BuildDhtView(answers: seq<Answer>, generatedAt: U64) returns (view: View)
    ensures exists ranking :: IsView(answers, generatedAt, view, ranking)
  {
    var union := CollectUnion(answers);
    var totalKeys := |union|;
    assert |union.Keys| == |KeysOf(AllRecords(answers))|;
    var anyTruncated := exists i :: 0 <= i < |answers| && answers[i].truncated;
    var keys := Rank(union);
    ghost var ranking := keys;
    if |keys| > MAX_PUBLISHED_KEYS {
      keys := keys[..MAX_PUBLISHED_KEYS];
    }
    view := View(generatedAt, |answers|, totalKeys, anyTruncated || totalKeys > MAX_PUBLISHED_KEYS, keys);
    assert IsView(answers, generatedAt, view, ranking);
  }

  // ---- The view is canonical ----

  lemma {:induction false} RemoveRecord(records: seq<Record>, i: nat, key: string)
    requires i < |records|
    ensures var rest := records[..i] + records[i + 1..];
            var r := records[i];
            && RecordsFor(records, key) == RecordsFor(rest, key) + (if r.key == key then 1 else 0)
            && MostProviders(records, key)
                 == (if r.key == key && r.providers > MostProviders(rest, key) then r.providers
                     else MostProviders(rest, key))
    decreases |records|
  {
    var n, rest := |records| - 1, records[..i] + records[i + 1..];
    if i == n {
      assert rest == records[..n];
    } else {
      RemoveRecord(records[..n], i, key);
      RestOf(records, i);
    }
  }

  lemma RestOf<T>(s: seq<T>, i: nat)
    requires i < |s| - 1
    ensures var n, rest := |s| - 1, s[..i] + s[i + 1..];
            && rest[|rest| - 1] == s[n] && rest[..|rest| - 1] == s[..n][..i] + s[..n][i + 1..]
  {
  }

  /** Where the last element of `a` is in a reordering `b` of it; without it they still match. */
  lemma FindLast<T>(a: seq<T>, b: seq<T>) returns (i: nat)
    requires a != [] && multiset(a) == multiset(b)
    ensures i < |b| && b[i] == a[|a| - 1]
    ensures multiset(a[..|a| - 1]) == multiset(b[..i] + b[i + 1..])
  {
    var n := |a| - 1;
    assert a == a[..n] + [a[n]];
    assert a[n] in multiset(b);
    i :| 0 <= i < |b| && b[i] == a[n];
    assert b == b[..i] + [b[i]] + b[i + 1..];
    assert multiset(b) == multiset(b[..i]) + multiset{b[i]} + multiset(b[i + 1..]);
    assert multiset(b[..i] + b[i + 1..]) == multiset(b) - multiset{b[i]};
    assert multiset(a[..n]) == multiset(a) - multiset{a[n]};
  }

  /** A key's entry does not depend on the order of the records. */
  lemma {:induction false} EntryIgnoresOrder(a: seq<Record>, b: seq<Record>, key: string)
    requires multiset(a) == multiset(b)
    ensures EntryFor(a, key) == EntryFor(b, key)
    decreases |a|
  {
    if a == [] {
      assert |multiset(b)| == 0;
    } else {
      var n := |a| - 1;
      var i := FindLast(a, b);
      var rest := b[..i] + b[i + 1..];
      EntryIgnoresOrder(a[..n], rest, key);
      RemoveRecord(a, n, key);
      assert a[..n] + a[n + 1..] == a[..n];
      RemoveRecord(b, i, key);
    }
  }

  lemma KeysIgnoreOrder(a: seq<Record>, b: seq<Record>)
    requires multiset(a) == multiset(b)
    ensures KeysOf(a) == KeysOf(b)
  {
    forall k | k in KeysOf(a)
      ensures k in KeysOf(b)
    {
      var i :| 0 <= i < |a| && a[i].key == k;
      assert a[i] in multiset(a);
      assert a[i] in b;
    }
    forall k | k in KeysOf(b)
      ensures k in KeysOf(a)
    {
      var i :| 0 <= i < |b| && b[i].key == k;
      assert b[i] in multiset(b);
      assert b[i] in a;
    }
  }

  /** Two collections of answers that differ only in the order of the answers and of the records
      inside them: `a` reordered is `c`, and `c`'s answers reordered are `b`'s. */
  ghost predicate Reordered(a: seq<Answer>, c: seq<Answer>, b: seq<Answer>) {
    && multiset(a) == multiset(c) && |c| == |b|
    && forall i | 0 <= i < |c| ::
         multiset(c[i].records) == multiset(b[i].records) && c[i].truncated == b[i].truncated
  }

  /** All the records of the answers, in no order. */
  ghost function Bag(answers: seq<Answer>): multiset<Record> {
    if answers == [] then multiset{}
    else Bag(answers[..|answers| - 1]) + multiset(answers[|answers| - 1].records)
  }

  lemma {:induction false} BagIs(answers: seq<Answer>)
    ensures Bag(answers) == multiset(AllRecords(answers))
  {
    if answers != [] {
      BagIs(answers[..|answers| - 1]);
    }
  }

  lemma {:induction false} RemoveAnswer(answers: seq<Answer>, i: nat)
    requires i < |answers|
    ensures Bag(answers) == Bag(answers[..i] + answers[i + 1..]) + multiset(answers[i].records)
    decreases |answers|
  {
    var n, rest := |answers| - 1, answers[..i] + answers[i + 1..];
    if i == n {
      assert rest == answers[..n];
    } else {
      var fewer := answers[..n];
      RemoveAnswer(fewer, i);
      RestOf(answers, i);
      Swap(Bag(fewer[..i] + fewer[i + 1..]), multiset(answers[i].records), multiset(answers[n].records));
    }
  }

  lemma Swap(a: multiset<Record>, b: multiset<Record>, c: multiset<Record>)
    ensures a + b + c == a + c + b
  {
  }

  lemma {:induction false} BagIgnoresOrder(a: seq<Answer>, b: seq<Answer>)
    requires multiset(a) == multiset(b)
    ensures Bag(a) == Bag(b)
    decreases |a|
  {
    if a == [] {
      assert |multiset(b)| == 0;
    } else {
      var i := FindLast(a, b);
      BagIgnoresOrder(a[..|a| - 1], b[..i] + b[i + 1..]);
      RemoveAnswer(b, i);
    }
  }

  lemma RecordsIgnoreAnswerOrder(a: seq<Answer>, b: seq<Answer>)
    requires multiset(a) == multiset(b)
    ensures multiset(AllRecords(a)) == multiset(AllRecords(b))
  {
    BagIgnoresOrder(a, b);
    BagIs(a);
    BagIs(b);
  }

  lemma {:induction false} RecordsIgnoreRecordOrder(c: seq<Answer>, b: seq<Answer>)
    requires |c| == |b| && forall i | 0 <= i < |c| :: multiset(c[i].records) == multiset(b[i].records)
    ensures multiset(AllRecords(c)) == multiset(AllRecords(b))
  {
    if c != [] {
      RecordsIgnoreRecordOrder(c[..|c| - 1], b[..|b| - 1]);
    }
  }

  lemma SameTruncation(a: seq<Answer>, b: seq<Answer>)
    requires multiset(a) == multiset(b)
    ensures AnyTruncated(a) ==> AnyTruncated(b)
    ensures |a| == |b|
  {
    assert |multiset(a)| == |a| && |multiset(b)| == |b|;
    if AnyTruncated(a) {
      var i :| 0 <= i < |a| && a[i].truncated;
      assert a[i] in multiset(a);
      assert a[i] in b;
    }
  }

  /** The view is the same for every order the answers, and the records in them, arrive in. */
  lemma ViewIgnoresOrder(
      a: seq<Answer>, c: seq<Answer>, b: seq<Answer>, t: U64, va: View, ra: seq<Entry>, vb: View, rb: seq<Entry>)
    requires Reordered(a, c, b)
    requires IsView(a, t, va, ra) && IsView(b, t, vb, rb)
    ensures va == vb
  {
    RecordsIgnoreAnswerOrder(a, c);
    RecordsIgnoreRecordOrder(c, b);
    SameTruncation(a, c);
    SameTruncation(c, a);
    KeysIgnoreOrder(AllRecords(a), AllRecords(b));
    SameRanking(AllRecords(a), AllRecords(b), ra, rb);
  }

  lemma SameRanking(a: seq<Record>, b: seq<Record>, ra: seq<Entry>, rb: seq<Entry>)
    requires multiset(a) == multiset(b) && FullRanking(a, ra) && FullRanking(b, rb)
    ensures ra == rb
  {
    KeysIgnoreOrder(a, b);
    forall e
      ensures e in ra <==> e in rb
    {
      EntryIgnoresOrder(a, b, e.key);
    }
    RankedIsUnique(ra, rb);
  }

  /** When the cap bites, it drops only keys that rank below every published one. */
  lemma CapKeepsTheBest(answers: seq<Answer>, t: U64, view: View, ranking: seq<Entry>, kept: Entry, dropped: Entry)
    requires IsView(answers, t, view, ranking)
    requires kept in view.keys && dropped in ranking && dropped !in view.keys
    ensures Ahead(kept, dropped) && |view.keys| == MAX_PUBLISHED_KEYS && view.truncated
  {
    var i :| 0 <= i < |view.keys| && view.keys[i] == kept;
    var j :| 0 <= j < |ranking| && ranking[j] == dropped;
    assert ranking[i] == kept;
    PublishedAt(view.keys, ranking, j);
  }

  lemma PublishedAt(keys: seq<Entry>, ranking: seq<Entry>, j: nat)
    requires j < |ranking| && |keys| <= |ranking| && keys == ranking[..|keys|]
    ensures j < |keys| ==> ranking[j] in keys
  {
  }

  // ---- Counts ----

  ghost function Reported(ranking: seq<Entry>): nat {
    if ranking == [] then 0 else Reported(ranking[..|ranking| - 1]) + ranking[|ranking| - 1].reportedBy
  }

  /** The records whose key is one of `keys`. */
  ghost function RecordsAmong(records: seq<Record>, keys: set<string>): nat {
    if records == [] then 0
    else RecordsAmong(records[..|records| - 1], keys) + if records[|records| - 1].key in keys then 1 else 0
  }

  lemma {:induction false} OneMoreKey(records: seq<Record>, keys: set<string>, key: string)
    requires key !in keys
    ensures RecordsAmong(records, keys + {key}) == RecordsAmong(records, keys) + RecordsFor(records, key)
  {
    if records != [] {
      OneMoreKey(records[..|records| - 1], keys, key);
    }
  }

  lemma {:induction false} EveryRecordCounts(records: seq<Record>, keys: set<string>)
    requires KeysOf(records) <= keys
    ensures RecordsAmong(records, keys) == |records|
  {
    if records != [] {
      var shorter, r := records[..|records| - 1], records[|records| - 1];
      assert records == shorter + [r];
      KeysStep(shorter, r);
      EveryRecordCounts(shorter, keys);
    } else {
      assert RecordsAmong([], keys) == 0;
    }
  }

  lemma {:induction false} ReportedAmong(records: seq<Record>, ranking: seq<Entry>)
    requires Ranked(ranking)
    requires forall i | 0 <= i < |ranking| :: ranking[i] == EntryFor(records, ranking[i].key)
    ensures Reported(ranking) == RecordsAmong(records, set i | 0 <= i < |ranking| :: ranking[i].key)
  {
    var keys := set i | 0 <= i < |ranking| :: ranking[i].key;
    if ranking == [] {
      NoneAmong(records);
      assert keys == {};
    } else {
      var n := |ranking| - 1;
      var shorter := ranking[..n];
      var fewer := set i | 0 <= i < |shorter| :: shorter[i].key;
      assert keys == fewer + {ranking[n].key} by {
        forall k | k in keys
          ensures k in fewer + {ranking[n].key}
        {
          var i :| 0 <= i < |ranking| && ranking[i].key == k;
          assert i < n ==> shorter[i].key == k;
        }
        forall k | k in fewer
          ensures k in keys
        {
          var i :| 0 <= i < |shorter| && shorter[i].key == k;
          assert ranking[i].key == k;
        }
      }
      if ranking[n].key in fewer {
        var i :| 0 <= i < |shorter| && shorter[i].key == ranking[n].key;
        assert ranking[i] == ranking[n] && Ahead(ranking[i], ranking[n]);
        AheadIsStrict(ranking[i], ranking[i], ranking[i]);
        assert false;
      }
      ReportedAmong(records, shorter);
      OneMoreKey(records, fewer, ranking[n].key);
    }
  }

  lemma {:induction false} NoneAmong(records: seq<Record>)
    ensures RecordsAmong(records, {}) == 0
  {
    if records != [] {
      NoneAmong(records[..|records| - 1]);
    }
  }

  /** Conservation: before the cap, the counts of all keys add up to the number of records. */
  lemma CountsAddUp(records: seq<Record>, ranking: seq<Entry>)
    requires FullRanking(records, ranking)
    ensures Reported(ranking) == |records|
  {
    var keys := set i | 0 <= i < |ranking| :: ranking[i].key;
    forall i | 0 <= i < |ranking|
      ensures ranking[i] == EntryFor(records, ranking[i].key)
    {
      assert ranking[i] in ranking;
    }
    ReportedAmong(records, ranking);
    forall k | k in KeysOf(records)
      ensures k in keys
    {
      var e := EntryFor(records, k);
      assert e in ranking;
      var i :| 0 <= i < |ranking| && ranking[i] == e;
      assert ranking[i].key == k;
    }
    EveryRecordCounts(records, keys);
  }

  lemma {:induction false} RecordsForJoined(a: seq<Record>, b: seq<Record>, key: string)
    ensures RecordsFor(a + b, key) == RecordsFor(a, key) + RecordsFor(b, key)
  {
    if b == [] {
      assert a + b == a;
    } else {
      RecordsForJoined(a, b[..|b| - 1], key);
      assert (a + b)[..|a + b| - 1] == a + b[..|b| - 1];
    }
  }

  // ---- What an entry says and where it stands ----

  /** The order of keys: the first character in which they differ decides, or else the shorter is first. */
  lemma {:induction false} StringLessIs(a: string, b: string)
    ensures StringLess(a, b) <==> exists p: nat :: DiffersAt(a, b, p)
  {
    if a != [] && b != [] && a[0] == b[0] {
      StringLessIs(a[1..], b[1..]);
      if p: nat :| DiffersAt(a[1..], b[1..], p) {
        assert a[..p + 1] == [a[0]] + a[1..][..p] && b[..p + 1] == [b[0]] + b[1..][..p];
        assert DiffersAt(a, b, p + 1);
      }
      if p: nat :| DiffersAt(a, b, p) {
        assert p > 0;
        assert a[1..][..p - 1] == a[..p][1..] && b[1..][..p - 1] == b[..p][1..];
        assert DiffersAt(a[1..], b[1..], p - 1);
      }
    } else if b != [] {
      if StringLess(a, b) {
        assert DiffersAt(a, b, 0);
      }
      if p: nat :| DiffersAt(a, b, p) {
        assert p > 0 ==> a[..p][0] == b[..p][0];
      }
    }
  }

  ghost predicate DiffersAt(a: string, b: string, p: nat) {
    p <= |a| && p < |b| && a[..p] == b[..p] && (p == |a| || a[p] < b[p])
  }

  /** The published list goes by reports, then by providers, then by key, and names no key twice. */
  lemma PublishedInOrder(answers: seq<Answer>, t: U64, view: View, ranking: seq<Entry>, i: nat, j: nat)
    requires IsView(answers, t, view, ranking) && i < j < |view.keys|
    ensures var a, b := view.keys[i], view.keys[j];
            && a.reportedBy >= b.reportedBy
            && (a.reportedBy == b.reportedBy ==> a.providers >= b.providers)
            && (a.reportedBy == b.reportedBy && a.providers == b.providers ==>
                  exists p: nat :: DiffersAt(a.key, b.key, p))
  {
    StringLessIs(view.keys[i].key, view.keys[j].key);
    assert view.keys[i] == ranking[i] && view.keys[j] == ranking[j];
  }

  /** A key is reported as often as there are records of it. */
  lemma {:induction false} ReportsAreCounted(records: seq<Record>, key: string)
    ensures EntryFor(records, key).reportedBy == |set i | 0 <= i < |records| && records[i].key == key|
  {
    if records != [] {
      var n := |records| - 1;
      ReportsAreCounted(records[..n], key);
      var before := set i | 0 <= i < n && records[..n][i].key == key;
      var after := set i | 0 <= i < |records| && records[i].key == key;
      assert after == before + if records[n].key == key then {n} else {};
    }
  }

  /** A key's providers are the most that a record of it gives. */
  lemma {:induction false} ProvidersAreTheMost(records: seq<Record>, key: string)
    ensures var most := EntryFor(records, key).providers;
            && (forall r | r in records && r.key == key :: r.providers <= most)
            && (most > 0 ==> Record(key, most) in records)
  {
    if records != [] {
      ProvidersAreTheMost(records[..|records| - 1], key);
    }
  }

  /** The records of a view are those of its answers. */
  lemma {:induction false} RecordsAreTheAnswers(answers: seq<Answer>, r: Record)
    ensures r in AllRecords(answers) <==> exists i :: 0 <= i < |answers| && r in answers[i].records
  {
    if answers != [] {
      var n := |answers| - 1;
      RecordsAreTheAnswers(answers[..n], r);
      assert forall i | 0 <= i < n :: answers[..n][i] == answers[i];
    }
  }
}
