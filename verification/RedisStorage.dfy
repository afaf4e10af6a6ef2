/** The transaction store of network/storage/redis_storage.rs: expiring records and a sorted index of
    their ids that is never trimmed. */
module Transactions {
  import opened Wrappers

  datatype Transaction = Transaction(id: string, body: string, timestamp: nat)

  datatype Record = Record(tx: Transaction, expiresAt: nat)

  /** A member of the sorted set, with its score. */
  datatype Member = Member(id: string, score: nat)

  /** The index lists the members in the order of a reverse range: descending scores, and descending
      ids among equal scores. */
  datatype Store = Store(records: map<string, Record>, index: seq<Member>)

  /** Thirty days, in seconds. */
  const TTL: nat := 86400 * 30

  // ---------- The sorted index ----------

  predicate LessId(a: string, b: string) {
    b != [] && (a == [] || a[0] < b[0] || (a[0] == b[0] && LessId(a[1..], b[1..])))
  }

  /** Where two ids part: one of them ends there, or has the lesser letter. */
  ghost predicate PartAt(a: string, b: string, n: nat) {
    && n <= |a| && n < |b| && a[..n] == b[..n]
    && (n == |a| || a[n] < b[n])
  }

  /** The order of ids is the lexicographic one. */
  lemma {:induction false} LessIdIffPart(a: string, b: string)
    ensures LessId(a, b) <==> exists n: nat :: PartAt(a, b, n)
  {
    if LessId(a, b) {
      var n := PartingPlace(a, b);
    }
    if n: nat :| PartAt(a, b, n) {
      PartIsLess(a, b, n);
    }
  }

  lemma {:induction false} PartingPlace(a: string, b: string) returns (n: nat)
    requires LessId(a, b)
    ensures PartAt(a, b, n)
  {
    if a == [] || a[0] < b[0] {
      n := 0;
    } else {
      n := PartingPlace(a[1..], b[1..]);
      assert a[..n + 1] == [a[0]] + a[1..][..n] && b[..n + 1] == [b[0]] + b[1..][..n];
      n := n + 1;
    }
  }

  lemma {:induction false} PartIsLess(a: string, b: string, n: nat)
    requires PartAt(a, b, n)
    ensures LessId(a, b)
  {
    if n > 0 {
      assert a[0] == a[..n][0] && b[0] == b[..n][0];
      assert a[1..][..n - 1] == a[..n][1..] && b[1..][..n - 1] == b[..n][1..];
      PartIsLess(a[1..], b[1..], n - 1);
    }
  }

  lemma {:induction false} LessIdTransitive(a: string, b: string, c: string)
    requires LessId(a, b) && LessId(b, c)
    ensures LessId(a, c)
  {
    if a != [] && a[0] == b[0] && b[0] == c[0] { LessIdTransitive(a[1..], b[1..], c[1..]); }
  }

  lemma {:induction false} LessIdTotal(a: string, b: string)
    requires a != b
    ensures LessId(a, b) || LessId(b, a)
  {
    if a != [] && b != [] && a[0] == b[0] {
      assert a == [a[0]] + a[1..] && b == [b[0]] + b[1..];
      LessIdTotal(a[1..], b[1..]);
    }
  }

  /** `a` comes before `b` in the reverse range. */
  predicate Ahead(a: Member, b: Member) {
    a.score > b.score || (a.score == b.score && LessId(b.id, a.id))
  }

  function RemoveId(s: seq<Member>, id: string): (r: seq<Member>) {
    if s == [] then []
    else if s[0].id == id then RemoveId(s[1..], id)
    else [s[0]] + RemoveId(s[1..], id)
  }

  function Insert(s: seq<Member>, m: Member): (r: seq<Member>) {
    if s == [] || Ahead(m, s[0]) then [m] + s else [s[0]] + Insert(s[1..], m)
  }

  /** `zadd`: sets the score of an id. */
  function Scored(s: seq<Member>, m: Member): (r: seq<Member>) {
    Insert(RemoveId(s, m.id), m)
  }

  ghost predicate Descending(s: seq<Member>) {
    s != [] ==> (forall m | m in s[1..] :: Ahead(s[0], m)) && Descending(s[1..])
  }

  ghost predicate UniqueIds(s: seq<Member>) {
    s != [] ==> (forall m | m in s[1..] :: m.id != s[0].id) && UniqueIds(s[1..])
  }

  lemma {:induction false} RemoveIdMembers(s: seq<Member>, id: string)
    ensures forall m :: m in RemoveId(s, id) <==> m in s && m.id != id
  {
    if s != [] {
      RemoveIdMembers(s[1..], id);
      assert forall m :: m in s <==> m == s[0] || m in s[1..];
    }
  }

  lemma {:induction false} RemoveIdKeeps(s: seq<Member>, id: string)
    requires Descending(s) && UniqueIds(s)
    ensures Descending(RemoveId(s, id)) && UniqueIds(RemoveId(s, id))
  {
    if s != [] {
      RemoveIdKeeps(s[1..], id);
      RemoveIdMembers(s[1..], id);
      if s[0].id != id { assert RemoveId(s, id)[1..] == RemoveId(s[1..], id); }
    }
  }

  lemma {:induction false} InsertMembers(s: seq<Member>, m: Member)
    ensures forall x :: x in Insert(s, m) <==> x in s || x == m
  {
    if s != [] {
      InsertMembers(s[1..], m);
      assert forall x :: x in s <==> x == s[0] || x in s[1..];
    }
  }

  lemma AheadTransitive(a: Member, b: Member, c: Member)
    requires Ahead(a, b) && Ahead(b, c)
    ensures Ahead(a, c)
  {
    if a.score == b.score == c.score { LessIdTransitive(c.id, b.id, a.id); }
  }

  lemma {:induction false} InsertKeeps(s: seq<Member>, m: Member)
    requires Descending(s) && UniqueIds(s) && forall x | x in s :: x.id != m.id
    ensures Descending(Insert(s, m)) && UniqueIds(Insert(s, m))
  {
    if s == [] || Ahead(m, s[0]) {
      assert ([m] + s)[1..] == s;
      forall x | x in s ensures Ahead(m, x) {
        assert x == s[0] || x in s[1..];
        if x != s[0] { AheadTransitive(m, s[0], x); }
      }
    } else {
      LessIdTotal(m.id, s[0].id);
      assert s[0] in s && forall x | x in s[1..] :: x in s;
      InsertKeeps(s[1..], m);
      InsertMembers(s[1..], m);
      assert Insert(s, m)[1..] == Insert(s[1..], m);
    }
  }

  // ---------- Saving and reading ----------

  function Saved(s: Store, tx: Transaction, now: nat): (r: Store) {
    Store(s.records[tx.id := Record(tx, now + TTL)], Scored(s.index, Member(tx.id, tx.timestamp)))
  }

  predicate Live(s: Store, id: string, now: nat) {
    id in s.records && now < s.records[id].expiresAt
  }

  /** The records behind the ids that are still there, in the order of the ids. */
  function Fetched(s: Store, members: seq<Member>, now: nat): (r: seq<Transaction>)
    decreases |members|
  {
    if members == [] then []
    else
      var before, last := members[..|members| - 1], members[|members| - 1];
      Fetched(s, before, now) + if Live(s, last.id, now) then [s.records[last.id].tx] else []
  }

  /** The reverse range from 0 to limit - 1. A limit of 0 wraps around to the range end -1, which asks for
      the whole index. */
  function Top(s: Store, limit: nat): (r: seq<Member>) {
    if 0 < limit < |s.index| then s.index[..limit] else s.index
  }

  function Recent(s: Store, limit: nat, now: nat): (r: seq<Transaction>) {
    Fetched(s, Top(s, limit), now)
  }

  // ---------- Runs of saves ----------

  datatype Save = Save(tx: Transaction, now: nat)

  function Run(saves: seq<Save>): (r: Store)
    decreases |saves|
  {
    if saves == [] then Store(map[], [])
    else Saved(Run(saves[..|saves| - 1]), saves[|saves| - 1].tx, saves[|saves| - 1].now)
  }

  /** Every transaction carries the time at which it is saved. */
  ghost predicate Stamped(saves: seq<Save>) {
    forall i | 0 <= i < |saves| :: saves[i].tx.timestamp == saves[i].now
  }

  /** The index mirrors the records. */
  ghost predicate Mirrored(s: Store) {
    && Descending(s.index) && UniqueIds(s.index)
    && (forall m | m in s.index ::
          && m.id in s.records
          && s.records[m.id].tx.id == m.id
          && s.records[m.id].tx.timestamp == m.score)
    && (forall id | id in s.records :: Member(id, s.records[id].tx.timestamp) in s.index)
  }

  lemma SaveKeepsMirrored(s: Store, tx: Transaction, now: nat)
    requires Mirrored(s)
    ensures Mirrored(Saved(s, tx, now))
  {
    var m := Member(tx.id, tx.timestamp);
    RemoveIdMembers(s.index, tx.id);
    RemoveIdKeeps(s.index, tx.id);
    InsertKeeps(RemoveId(s.index, tx.id), m);
    InsertMembers(RemoveId(s.index, tx.id), m);
  }

  lemma {:induction false} RunIsMirrored(saves: seq<Save>)
    ensures Mirrored(Run(saves))
    decreases |saves|
  {
    if saves != [] {
      RunIsMirrored(saves[..|saves| - 1]);
      SaveKeepsMirrored(Run(saves[..|saves| - 1]), saves[|saves| - 1].tx, saves[|saves| - 1].now);
    }
  }

  /** Every record expires a fixed time after the timestamp it is indexed under. */
  ghost predicate ExpireInOrder(s: Store) {
    forall id | id in s.records :: s.records[id].expiresAt == s.records[id].tx.timestamp + TTL
  }

  lemma {:induction false} StampedExpireInOrder(saves: seq<Save>)
    requires Stamped(saves)
    ensures ExpireInOrder(Run(saves))
    decreases |saves|
  {
    if saves != [] { StampedExpireInOrder(saves[..|saves| - 1]); }
  }

  // ---------- Single transactions ----------

  function Fetch(s: Store, id: string, now: nat): (r: Option<Transaction>) {
    if Live(s, id, now) then Some(s.records[id].tx) else None
  }

  /** The last save of the id in the history. */
  ghost function LastSave(saves: seq<Save>, id: string): Option<Save>
    decreases |saves|
  {
    if saves == [] then None
    else if saves[|saves| - 1].tx.id == id then Some(saves[|saves| - 1])
    else LastSave(saves[..|saves| - 1], id)
  }

  /** After every run, a transaction is found exactly during the thirty days after its last save, as it was
      saved then. */
  lemma {:induction false} FetchIsLastSave(saves: seq<Save>, id: string, now: nat)
    ensures var last := LastSave(saves, id);
            Fetch(Run(saves), id, now) ==
            if last.Some? && now < last.value.now + 30 * 24 * 60 * 60 then Some(last.value.tx) else None
    decreases |saves|
  {
    if saves != [] { FetchIsLastSave(saves[..|saves| - 1], id, now); }
  }

  // ---------- The query ----------

  ghost function LiveIds(s: Store, now: nat): set<string> {
    set id | id in s.records && now < s.records[id].expiresAt
  }

  /** Among equal timestamps the greater id comes first. */
  ghost predicate NewestFirst(txs: seq<Transaction>) {
    forall i, j | 0 <= i < j < |txs| ::
      txs[i].timestamp > txs[j].timestamp
      || (txs[i].timestamp == txs[j].timestamp && LessId(txs[j].id, txs[i].id))
  }

  ghost function Ids(txs: seq<Transaction>): set<string> {
    set i | 0 <= i < |txs| :: txs[i].id
  }

  /** How many of `n` transactions a limit lets through: a limit of 0 lets all of them through. */
  function Size(limit: nat, n: nat): (r: nat) {
    if limit == 0 then n else Min(limit, n)
  }

  /** The answer holds the newest live transactions, newest first, each once, as many as there are up
      to the limit. */
  ghost predicate IsNewest(s: Store, limit: nat, now: nat, txs: seq<Transaction>) {
    && NewestFirst(txs)
    && (forall i | 0 <= i < |txs| :: Live(s, txs[i].id, now) && s.records[txs[i].id].tx == txs[i])
    && |Ids(txs)| == |txs| == Size(limit, |LiveIds(s, now)|)
    && (forall id, i | id in LiveIds(s, now) - Ids(txs) && 0 <= i < |txs| ::
          s.records[id].tx.timestamp <= txs[i].timestamp)
  }

  /** The number of leading members whose record is live. */
  ghost function LivePrefix(s: Store, members: seq<Member>, now: nat): (n: nat)
    ensures n <= |members|
    ensures forall i | 0 <= i < n :: Live(s, members[i].id, now)
    ensures n < |members| ==> !Live(s, members[n].id, now)
    decreases |members|
  {
    if members == [] || !Live(s, members[0].id, now) then 0
    else
      var n := LivePrefix(s, members[1..], now);
      assert forall i | 1 <= i <= n :: members[i] == members[1..][i - 1];
      assert n < |members[1..]| ==> members[n + 1] == members[1..][n];
      1 + n
  }

  lemma {:induction false} DescendingAt(s: seq<Member>, i: nat, j: nat)
    requires Descending(s) && i < j < |s|
    ensures Ahead(s[i], s[j])
  {
    if i == 0 { assert s[1..][j - 1] in s[1..]; } else { DescendingAt(s[1..], i - 1, j - 1); }
  }

  lemma {:induction false} UniqueAt(s: seq<Member>, i: nat, j: nat)
    requires UniqueIds(s) && i < j < |s|
    ensures s[i].id != s[j].id
  {
    if i == 0 { assert s[1..][j - 1] in s[1..]; } else { UniqueAt(s[1..], i - 1, j - 1); }
  }

  /** No expired id stands before a live one in the index. */
  ghost predicate LiveFirst(s: Store, now: nat) {
    forall i, j | 0 <= i < j < |s.index| && Live(s, s.index[j].id, now) :: Live(s, s.index[i].id, now)
  }

  /** Although the index is never trimmed, ids that are saved with their save times stay in an order in
      which the live ones come first. */
  lemma LiveIdsComeFirst(saves: seq<Save>, now: nat)
    requires Stamped(saves)
    ensures LiveFirst(Run(saves), now)
  {
    RunIsMirrored(saves);
    StampedExpireInOrder(saves);
    var s := Run(saves);
    forall i, j | 0 <= i < j < |s.index| && Live(s, s.index[j].id, now) ensures Live(s, s.index[i].id, now) {
      DescendingAt(s.index, i, j);
      assert s.index[i] in s.index && s.index[j] in s.index;
    }
  }

  ghost function IdsOf(members: seq<Member>): set<string> {
    set i | 0 <= i < |members| :: members[i].id
  }

  lemma {:induction false} IdsOfSize(members: seq<Member>)
    requires forall i, j | 0 <= i < j < |members| :: members[i].id != members[j].id
    ensures |IdsOf(members)| == |members|
  {
    if members == [] {
      assert IdsOf(members) == {};
    } else {
      var n := |members| - 1;
      var before := members[..n];
      IdsOfSize(before);
      assert IdsOf(members) == IdsOf(before) + {members[n].id} by {
        forall id | id in IdsOf(members) ensures id in IdsOf(before) + {members[n].id} {
          var i :| 0 <= i < |members| && members[i].id == id;
          assert i < n ==> before[i].id == id;
        }
        forall id | id in IdsOf(before) ensures id in IdsOf(members) {
          var i :| 0 <= i < n && before[i].id == id;
          assert members[i].id == id;
        }
      }
      assert members[n].id !in IdsOf(before);
    }
  }

  lemma LiveIdsAre(s: Store, now: nat)
    requires Mirrored(s) && LiveFirst(s, now)
    ensures LiveIds(s, now) == IdsOf(s.index[..LivePrefix(s, s.index, now)])
    ensures |LiveIds(s, now)| == LivePrefix(s, s.index, now)
  {
    var n := LivePrefix(s, s.index, now);
    var front := s.index[..n];
    forall id | id in LiveIds(s, now) ensures id in IdsOf(front) {
      var m := Member(id, s.records[id].tx.timestamp);
      var i :| 0 <= i < |s.index| && s.index[i] == m;
      assert front[i].id == id;
    }
    forall i, j | 0 <= i < j < |front| ensures front[i].id != front[j].id { UniqueAt(s.index, i, j); }
    IdsOfSize(front);
  }

  lemma {:induction false} FetchedLive(s: Store, members: seq<Member>, now: nat)
    requires forall i | 0 <= i < |members| :: Live(s, members[i].id, now)
    ensures |Fetched(s, members, now)| == |members|
    ensures forall i | 0 <= i < |members| ::
              Live(s, members[i].id, now) && Fetched(s, members, now)[i] == s.records[members[i].id].tx
    decreases |members|
  {
    if members != [] { FetchedLive(s, members[..|members| - 1], now); }
  }

  lemma {:induction false} FetchedExpired(s: Store, live: seq<Member>, expired: seq<Member>, now: nat)
    requires forall i | 0 <= i < |expired| :: !Live(s, expired[i].id, now)
    ensures Fetched(s, live + expired, now) == Fetched(s, live, now)
    decreases |expired|
  {
    if expired == [] {
      assert live + expired == live;
    } else {
      var members := live + expired;
      assert members[..|members| - 1] == live + expired[..|expired| - 1];
      FetchedExpired(s, live, expired[..|expired| - 1], now);
    }
  }

  /** The answer is the records of the first min(limit, live) ids of the index. */
  lemma RecentIsFront(s: Store, limit: nat, now: nat)
    requires Mirrored(s) && LiveFirst(s, now)
    ensures Recent(s, limit, now) == Fetched(s, s.index[..Size(limit, LivePrefix(s, s.index, now))], now)
  {
    var n := LivePrefix(s, s.index, now);
    var top := Top(s, limit);
    var k := Size(limit, n);
    forall i | 0 <= i < |top[k..]| ensures !Live(s, top[k..][i].id, now) {
    }
    assert top[..k] == s.index[..k] && top == top[..k] + top[k..];
    FetchedExpired(s, s.index[..k], top[k..], now);
  }

  lemma RecentAt(s: Store, limit: nat, now: nat)
    requires Mirrored(s) && LiveFirst(s, now)
    ensures var txs := Recent(s, limit, now);
            && |txs| == Size(limit, |LiveIds(s, now)|) <= |s.index|
            && forall i | 0 <= i < |txs| ::
                 Live(s, s.index[i].id, now) && txs[i] == s.records[s.index[i].id].tx && txs[i].id == s.index[i].id
                 && txs[i].timestamp == s.index[i].score
  {
    LiveIdsAre(s, now);
    RecentIsFront(s, limit, now);
    var k := Size(limit, LivePrefix(s, s.index, now));
    FetchedLive(s, s.index[..k], now);
    forall i | 0 <= i < k ensures s.index[i] in s.index { }
  }

  lemma SameIds(txs: seq<Transaction>, members: seq<Member>)
    requires |txs| == |members| && forall i | 0 <= i < |txs| :: txs[i].id == members[i].id
    ensures Ids(txs) == IdsOf(members)
  {
    forall id | id in IdsOf(members) ensures id in Ids(txs) {
      var i :| 0 <= i < |members| && members[i].id == id;
      assert txs[i].id == id;
    }
    forall id | id in Ids(txs) ensures id in IdsOf(members) {
      var i :| 0 <= i < |txs| && txs[i].id == id;
      assert members[i].id == id;
    }
  }

  lemma IdsOfRecent(s: Store, limit: nat, now: nat)
    requires Mirrored(s) && LiveFirst(s, now)
    ensures |Recent(s, limit, now)| <= |s.index|
    ensures Ids(Recent(s, limit, now)) == IdsOf(s.index[..|Recent(s, limit, now)|])
    ensures |Ids(Recent(s, limit, now))| == |Recent(s, limit, now)|
  {
    RecentAt(s, limit, now);
    var txs := Recent(s, limit, now);
    var front := s.index[..|txs|];
    forall i, j | 0 <= i < j < |front| ensures front[i].id != front[j].id { UniqueAt(s.index, i, j); }
    IdsOfSize(front);
    SameIds(txs, front);
  }

  lemma OthersAreOlder(s: Store, limit: nat, now: nat, id: string, i: nat)
    requires Mirrored(s) && LiveFirst(s, now) && i < |Recent(s, limit, now)|
    requires id in LiveIds(s, now) && id !in Ids(Recent(s, limit, now))
    ensures s.records[id].tx.timestamp <= Recent(s, limit, now)[i].timestamp
  {
    RecentAt(s, limit, now);
    IdsOfRecent(s, limit, now);
    var front := s.index[..|Recent(s, limit, now)|];
    var j :| 0 <= j < |s.index| && s.index[j] == Member(id, s.records[id].tx.timestamp);
    DescendingAt(s.index, i, j);
  }

  lemma AnswersNewest(s: Store, limit: nat, now: nat)
    requires Mirrored(s) && LiveFirst(s, now)
    ensures IsNewest(s, limit, now, Recent(s, limit, now))
  {
    var txs := Recent(s, limit, now);
    RecentAt(s, limit, now);
    IdsOfRecent(s, limit, now);
    forall i, j | 0 <= i < j < |txs| ensures Ahead(s.index[i], s.index[j]) { DescendingAt(s.index, i, j); }
    forall id, i | id in LiveIds(s, now) - Ids(txs) && 0 <= i < |txs|
      ensures s.records[id].tx.timestamp <= txs[i].timestamp
    {
      OthersAreOlder(s, limit, now, id, i);
    }
  }

  /** After every run of saves that carry their save times, the query returns exactly the
      min(limit, live) newest unexpired transactions, newest first; for a limit of 0, all of them. */
  lemma RecentAreNewest(saves: seq<Save>, limit: nat, now: nat)
    requires Stamped(saves)
    ensures IsNewest(Run(saves), limit, now, Recent(Run(saves), limit, now))
  {
    RunIsMirrored(saves);
    LiveIdsComeFirst(saves, now);
    AnswersNewest(Run(saves), limit, now);
  }

  lemma {:induction false} LiveMembers(s: Store, members: seq<Member>, now: nat)
    requires forall i, j | 0 <= i < j < |members| :: members[i].id != members[j].id
    requires forall i | 0 <= i < |members| :: Live(s, members[i].id, now)
    ensures |members| <= |LiveIds(s, now)|
  {
    IdsOfSize(members);
    SubsetSize(IdsOf(members), LiveIds(s, now));
  }

  lemma LiveBehind(s: Store, now: nat, n: nat, j: nat)
    requires UniqueIds(s.index) && n < j < |s.index| && Live(s, s.index[j].id, now)
    requires forall i | 0 <= i < n :: Live(s, s.index[i].id, now)
    ensures |LiveIds(s, now)| > n
  {
    var live := s.index[..n] + [s.index[j]];
    forall a, b | 0 <= a < b < |live| ensures live[a].id != live[b].id {
      UniqueAt(s.index, a, if b < n then b else j);
    }
    LiveMembers(s, live, now);
  }

  lemma ShortAnswer(s: Store, now: nat, n: nat)
    requires n < |s.index| && !Live(s, s.index[n].id, now)
    requires forall i | 0 <= i < n :: Live(s, s.index[i].id, now)
    ensures |Recent(s, n + 1, now)| == n
  {
    assert Top(s, n + 1) == s.index[..n] + [s.index[n]];
    FetchedExpired(s, s.index[..n], [s.index[n]], now);
    FetchedLive(s, s.index[..n], now);
  }

  /** A live id behind an expired one is missing from a query that stops in between. */
  lemma CrowdedOut(s: Store, now: nat, i: nat, j: nat) returns (limit: nat)
    requires UniqueIds(s.index) && i < j < |s.index| && Live(s, s.index[j].id, now) && !Live(s, s.index[i].id, now)
    ensures !IsNewest(s, limit, now, Recent(s, limit, now))
  {
    var n := LivePrefix(s, s.index, now);
    limit := n + 1;
    LiveBehind(s, now, n, j);
    ShortAnswer(s, now, n);
  }

  /** For arbitrary timestamps: the query is right for every limit exactly when no expired id stands
      before a live one. */
  lemma NewestIffLiveFirst(saves: seq<Save>, now: nat)
    ensures LiveFirst(Run(saves), now) <==>
            forall limit: nat :: IsNewest(Run(saves), limit, now, Recent(Run(saves), limit, now))
  {
    RunIsMirrored(saves);
    var s := Run(saves);
    if LiveFirst(s, now) {
      forall limit: nat ensures IsNewest(s, limit, now, Recent(s, limit, now)) {
        AnswersNewest(s, limit, now);
      }
    } else {
      var i, j :| 0 <= i < j < |s.index| && Live(s, s.index[j].id, now) && !Live(s, s.index[i].id, now);
      var limit := CrowdedOut(s, now, i, j);
    }
  }

  /** Without the condition on timestamps the answer may be empty although a live transaction exists: an
      expired one with a later timestamp occupies the only place asked for. */
  lemma StaleIdsCrowdOut(stale: string, live: string, saved: nat) returns (saves: seq<Save>)
    requires stale != live && saved >= TTL
    ensures LiveIds(Run(saves), saved) == {live}
    ensures Recent(Run(saves), 1, saved) == []
  {
    saves := [Save(Transaction(stale, "", saved + 1), 0), Save(Transaction(live, "", saved), saved)];
    assert saves[..1] == [saves[0]] && [saves[0]][..0] == [];
    var a, b := Member(stale, saved + 1), Member(live, saved);
    assert [a][1..] == [] && [a][..0] == [];
    var s := Run(saves);
    assert Run(saves[..1]).index == [a];
    assert s.index == Insert(RemoveId([a], live), b) == [a, b];
    assert Fetched(s, [a][..0], saved) == [];
    assert !Live(s, stale, saved);
    assert Top(s, 1) == [a];
  }

  // ---------- The storage object ----------

  class RedisStorage {
    var store: Store

    constructor ()
      ensures store == Store(map[], [])
    {
      store := Store(map[], []);
    }

    /** Two commands: the expiring record first, then the index. */
    method SaveTransaction(tx: Transaction, now: nat)
      modifies this
      ensures store == Saved(old(store), tx, now)
    {
      store := store.(records := store.records[tx.id := Record(tx, now + TTL)]);
      store := store.(index := Scored(store.index, Member(tx.id, tx.timestamp)));
    }

    method GetTransaction(id: string, now: nat) returns (tx: Option<Transaction>)
      ensures tx == Fetch(store, id, now)
    {
      tx := if id in store.records && now < store.records[id].expiresAt then Some(store.records[id].tx) else None;
    }

    method GetRecentTransactions(limit: nat, now: nat) returns (transactions: seq<Transaction>)
      ensures transactions == Recent(store, limit, now)
      ensures Mirrored(store) && LiveFirst(store, now) ==> IsNewest(store, limit, now, transactions)
    {
      var members := Top(store, limit);
      transactions := [];
      for i := 0 to |members|
        invariant transactions == Fetched(store, members[..i], now)
      {
        assert members[..i + 1][..i] == members[..i];
        var tx := GetTransaction(members[i].id, now);
        if tx.Some? { transactions := transactions + [tx.value]; }
      }
      assert members[..|members|] == members;
      if Mirrored(store) && LiveFirst(store, now) { AnswersNewest(store, limit, now); }
    }
  }
}
