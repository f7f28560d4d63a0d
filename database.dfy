/** The data layer (backend/database.py): the tables as values held by a
    store object, the SQL statements the backend runs as updates of those
    values, and the pure rules applied to query results (controversy
    levels, the pro/con partition, the validity ordering, and the stored
    JSON columns). */
module Database {
  import opened Common

  // ---------------------------------------------------------------------
  // Rows
  // ---------------------------------------------------------------------

  /** A row of `topics`; timestamps are abstract instants. */
  datatype TopicRow = TopicRow(
    id: string, proposition: string, createdBy: string, userId: Option<string>, createdAt: int,
    overallSummary: Option<string>, consensusView: Option<string>, timelineView: Option<string>)

  /** A row of `arguments`; `keyUrls` holds the JSON text of the URL list. */
  datatype ArgumentRow = ArgumentRow(
    id: int, topicId: string, side: string, title: string, content: string,
    sources: Option<string>, author: string, userId: Option<string>, createdAt: int, votes: int,
    validityScore: Option<int>, validityReasoning: Option<string>, validityCheckedAt: Option<int>,
    keyUrls: Option<string>)

  /** A row of `argument_matches`. */
  datatype MatchRow = MatchRow(topicId: string, proId: int, conId: int, reason: Option<string>)

  /** A match as handed to `save_argument_matches`. */
  datatype MatchInput = MatchInput(proId: int, conId: int, reason: Option<string>)

  /** A row of `user_profiles`. */
  datatype Profile = Profile(id: string, username: string, email: string, avatarUrl: Option<string>)

  // ---------------------------------------------------------------------
  // Controversy level (get_all_topics)
  // ---------------------------------------------------------------------

  datatype Controversy = HighlyContested | ModeratelyContested | ClearConsensus

  function Min(a: int, b: int): int {
    if a <= b then a else b
  }

  /** The level computed from the pro and con counts: none up to six
      arguments, then by the share of the smaller side, computed as a
      real ratio against the thresholds 0.4 and 0.25. The contract states
      the same thresholds in integer arithmetic. */
  function ControversyLevel(pro: nat, con: nat): (r: Option<Controversy>)
    ensures r.None? <==> pro + con <= 6
    ensures r == Some(HighlyContested) <==> pro + con > 6 && 5 * Min(pro, con) >= 2 * (pro + con)
    ensures r == Some(ModeratelyContested) <==>
              pro + con > 6 && 5 * Min(pro, con) < 2 * (pro + con) && 4 * Min(pro, con) >= pro + con
    ensures r == Some(ClearConsensus) <==> pro + con > 6 && 4 * Min(pro, con) < pro + con
  {
    var total := pro + con;
    if total == 0 || total <= 6 then None
    else
      var ratio := if total > 0 then (Min(pro, con) as real) / (total as real) else 0.0;
      RatioAtLeast(Min(pro, con), total, 2, 5);
      RatioAtLeast(Min(pro, con), total, 1, 4);
      if ratio >= 0.4 then Some(HighlyContested)
      else if ratio >= 0.25 then Some(ModeratelyContested)
      else Some(ClearConsensus)
  }

  /** `m / t >= p / q` over the reals is `q * m >= p * t` over the integers. */
  lemma RatioAtLeast(m: nat, t: nat, p: nat, q: nat)
    requires t > 0 && q > 0
    ensures (m as real) / (t as real) >= (p as real) / (q as real) <==> q * m >= p * t
  {
    var x := (m as real) / (t as real);
    assert x * (t as real) == m as real;
    var y := (p as real) / (q as real);
    assert y * (q as real) == p as real;
    calc <==> {
      x >= y;
      x * (t as real) * (q as real) >= y * (t as real) * (q as real);
      (m as real) * (q as real) >= (p as real) * (t as real);
      q * m >= p * t;
    }
  }

  /** A listed topic with its argument counts and computed level. */
  datatype TopicListItem = TopicListItem(
    id: string, proposition: string, createdBy: string, createdAt: int,
    proCount: nat, conCount: nat, controversyLevel: Option<Controversy>)

  /** The loop of `get_all_topics` that sets each fetched topic's level. */
  method ClassifyTopics(topics: array<TopicListItem>)
    modifies topics
    ensures forall i :: 0 <= i < topics.Length ==>
              topics[i] == old(topics[i]).(controversyLevel := ControversyLevel(old(topics[i]).proCount, old(topics[i]).conCount))
  {
    for i := 0 to topics.Length
      invariant forall k :: 0 <= k < i ==>
                  topics[k] == old(topics[k]).(controversyLevel := ControversyLevel(old(topics[k]).proCount, old(topics[k]).conCount))
      invariant forall k :: i <= k < topics.Length ==> topics[k] == old(topics[k])
    {
      var t := topics[i];
      topics[i] := t.(controversyLevel := ControversyLevel(t.proCount, t.conCount));
    }
  }

  // ---------------------------------------------------------------------
  // The pro/con partition (get_topic_with_arguments)
  // ---------------------------------------------------------------------

  /** `[arg for arg in arguments if arg['side'] == side]`. */
  function OnSide(args: seq<ArgumentRow>, side: string): (r: seq<ArgumentRow>)
    ensures |r| <= |args|
    ensures forall k :: 0 <= k < |r| ==> r[k].side == side
  {
    if args == [] then []
    else
      var rest := OnSide(args[1..], side);
      if args[0].side == side then [args[0]] + rest else rest
  }

  /** Splitting by side keeps the rows in creation order. */
  lemma {:induction false} OnSideChronological(args: seq<ArgumentRow>, side: string)
    ensures Chronological(args) ==> Chronological(OnSide(args, side))
    decreases |args|
  {
    if args != [] && Chronological(args) {
      var rest := OnSide(args[1..], side);
      OnSideChronological(args[1..], side);
      if args[0].side == side {
        forall k | 0 <= k < |rest| ensures args[0].createdAt <= rest[k].createdAt {
          OnSideCounts(args[1..], side, rest[k]);
          assert rest[k] in multiset(rest);
          var j :| 0 <= j < |args[1..]| && args[1..][j] == rest[k];
          assert args[j + 1] == rest[k];
        }
      }
    }
  }

  /** Each row occurs in the list of its own side exactly as often as in
      the query result, and not at all in the list of any other side. */
  lemma {:induction false} OnSideCounts(args: seq<ArgumentRow>, side: string, a: ArgumentRow)
    ensures multiset(OnSide(args, side))[a] == if a.side == side then multiset(args)[a] else 0
    decreases |args|
  {
    if args != [] {
      OnSideCounts(args[1..], side, a);
      assert args == [args[0]] + args[1..];
    }
  }

  /** The two side counts add up to the number of rows when every side is
      "pro" or "con". */
  lemma SidesCoverRows(args: seq<ArgumentRow>)
    ensures (forall a :: a in args ==> a.side == "pro" || a.side == "con") ==>
              |OnSide(args, "pro")| + |OnSide(args, "con")| == |args|
  {
    if forall a :: a in args ==> a.side == "pro" || a.side == "con" {
      PartitionIsExact(args);
      assert |multiset(OnSide(args, "pro")) + multiset(OnSide(args, "con"))| == |multiset(args)|;
    }
  }

  /** When every side is "pro" or "con" (the table's CHECK constraint), the
      two lists together are a rearrangement of the query result, and no
      row is in both. */
  lemma PartitionIsExact(args: seq<ArgumentRow>)
    requires forall a :: a in args ==> a.side == "pro" || a.side == "con"
    ensures multiset(OnSide(args, "pro")) + multiset(OnSide(args, "con")) == multiset(args)
    ensures forall a :: a in OnSide(args, "pro") ==> a !in OnSide(args, "con")
  {
    forall a ensures (multiset(OnSide(args, "pro")) + multiset(OnSide(args, "con")))[a] == multiset(args)[a] {
      OnSideCounts(args, "pro", a);
      OnSideCounts(args, "con", a);
      if a !in args {
        assert multiset(args)[a] == 0;
      }
    }
  }

  /** Partitioning a concatenation partitions each part: the lists keep
      the order of the query result. */
  lemma {:induction false} OnSideAppend(xs: seq<ArgumentRow>, ys: seq<ArgumentRow>, side: string)
    ensures OnSide(xs + ys, side) == OnSide(xs, side) + OnSide(ys, side)
    decreases |xs|
  {
    if xs != [] {
      OnSideAppend(xs[1..], ys, side);
      var zs := xs + ys;
      assert zs[0] == xs[0] && zs[1..] == xs[1..] + ys;
      assert OnSide(zs, side) == (if xs[0].side == side then [xs[0]] else []) + OnSide(zs[1..], side);
      assert OnSide(xs, side) == (if xs[0].side == side then [xs[0]] else []) + OnSide(xs[1..], side);
    } else {
      assert xs + ys == ys;
    }
  }

  // ---------------------------------------------------------------------
  // The validity ordering
  // ---------------------------------------------------------------------

  /** `ORDER BY validity_score IS NULL, validity_score DESC, created_at DESC`:
      `a` may be listed before `b`. */
  predicate ListedNoLaterThan(a: ArgumentRow, b: ArgumentRow) {
    match (a.validityScore, b.validityScore)
    case (Some(x), None) => true
    case (None, Some(y)) => false
    case (Some(x), Some(y)) => x > y || (x == y && a.createdAt >= b.createdAt)
    case (None, None) => a.createdAt >= b.createdAt
  }

  /** The ordering is total: of any two rows, one may come first. */
  lemma ListedTotal(a: ArgumentRow, b: ArgumentRow)
    ensures ListedNoLaterThan(a, b) || ListedNoLaterThan(b, a)
  {
  }

  predicate SortedByValidity(s: seq<ArgumentRow>) {
    forall i, j :: 0 <= i < j < |s| ==> ListedNoLaterThan(s[i], s[j])
  }

  /** Inserts `a` into a sorted list before the first row it may precede. */
  function Insert(a: ArgumentRow, s: seq<ArgumentRow>): (r: seq<ArgumentRow>)
    requires SortedByValidity(s)
    ensures SortedByValidity(r)
    ensures multiset(r) == multiset(s) + multiset{a}
    ensures |r| == |s| + 1
  {
    if s == [] then [a]
    else if ListedNoLaterThan(a, s[0]) then
      InsertFront(a, s);
      [a] + s
    else
      var rest := Insert(a, s[1..]);
      InsertBehind(a, s, rest);
      assert s == [s[0]] + s[1..];
      [s[0]] + rest
  }

  lemma InsertFront(a: ArgumentRow, s: seq<ArgumentRow>)
    requires s != [] && SortedByValidity(s) && ListedNoLaterThan(a, s[0])
    ensures SortedByValidity([a] + s)
  {
    forall j | 0 < j < |[a] + s| ensures ListedNoLaterThan(a, ([a] + s)[j]) {
      ListedTransitive(a, s[0], s[j - 1]);
    }
  }

  lemma InsertBehind(a: ArgumentRow, s: seq<ArgumentRow>, rest: seq<ArgumentRow>)
    requires s != [] && SortedByValidity(s) && !ListedNoLaterThan(a, s[0])
    requires SortedByValidity(rest) && multiset(rest) == multiset(s[1..]) + multiset{a}
    ensures SortedByValidity([s[0]] + rest)
  {
    forall j | 0 <= j < |rest| ensures ListedNoLaterThan(s[0], rest[j]) {
      assert rest[j] in multiset(rest);
      if rest[j] != a {
        assert rest[j] in multiset(s[1..]);
        var k :| 0 <= k < |s[1..]| && s[1..][k] == rest[j];
        assert s[k + 1] == rest[j];
      } else {
        ListedTotal(a, s[0]);
      }
    }
  }

  lemma ListedTransitive(a: ArgumentRow, b: ArgumentRow, c: ArgumentRow)
    requires ListedNoLaterThan(a, b) && ListedNoLaterThan(b, c)
    ensures ListedNoLaterThan(a, c)
  {
  }

  /** The rows of one topic in the order the query returns them: sorted
      by the validity ordering, and a permutation of the rows. */
  function SortByValidity(s: seq<ArgumentRow>): (r: seq<ArgumentRow>)
    ensures SortedByValidity(r)
    ensures multiset(r) == multiset(s)
  {
    if s == [] then []
    else
      assert s == [s[0]] + s[1..];
      Insert(s[0], SortByValidity(s[1..]))
  }

  /** What the ordering promises to a reader of the list: scored rows come
      first, higher scores earlier, and equal scores newest first. */
  lemma SortedMeans(s: seq<ArgumentRow>, i: nat, j: nat)
    requires SortedByValidity(s) && i < j < |s|
    ensures s[j].validityScore.Some? ==> s[i].validityScore.Some?
    ensures s[i].validityScore.Some? && s[j].validityScore.Some? ==>
              s[i].validityScore.value >= s[j].validityScore.value
    ensures s[i].validityScore == s[j].validityScore ==> s[i].createdAt >= s[j].createdAt
  {
    assert ListedNoLaterThan(s[i], s[j]);
  }

  // ---------------------------------------------------------------------
  // Stored JSON columns
  // ---------------------------------------------------------------------

  /** The `key_urls` column written by `update_argument_validity`:
      JSON text of the list, or NULL for an empty or absent list. */
  function EncodeKeyUrls(urls: seq<string>, dumps: Json -> string): (r: Option<string>)
    ensures r.None? <==> urls == []
  {
    if urls == [] then None else Some(dumps(UrlList(urls)))
  }

  function UrlList(urls: seq<string>): (j: Json)
    ensures j.JArr? && |j.items| == |urls|
    ensures forall k :: 0 <= k < |urls| ==> j.items[k] == JStr(urls[k])
  {
    JArr(seq(|urls|, k requires 0 <= k < |urls| => JStr(urls[k])))
  }

  /** The `key_urls` value returned to readers: the parsed column, or []
      when it is NULL, empty, or not valid JSON. */
  function DecodeKeyUrls(stored: Option<string>, loads: string -> Option<Json>): (r: Json)
    ensures stored.None? || stored.value == "" ==> r == JArr([])
    ensures stored.Some? && stored.value != "" && loads(stored.value).None? ==> r == JArr([])
    ensures stored.Some? && stored.value != "" && loads(stored.value).Some? ==> r == loads(stored.value).value
  {
    match stored
    case None => JArr([])
    case Some(text) =>
      if text == "" then JArr([])
      else match loads(text)
        case None => JArr([])
        case Some(v) => v
  }

  /** Writing a URL list and reading it back gives the same list. */
  lemma KeyUrlsRoundTrip(lib: JsonLib, urls: seq<string>)
    requires Conforming(lib)
    ensures DecodeKeyUrls(EncodeKeyUrls(urls, lib.dumps), lib.loads) == UrlList(urls)
  {
    if urls != [] {
      assert lib.dumps(UrlList(urls)) != "";
      assert lib.loads(lib.dumps(UrlList(urls))) == Some(UrlList(urls));
    } else {
      assert UrlList(urls) == JArr([]);
    }
  }

  /** The `timeline_view` column written by `update_topic_analysis`. */
  function EncodeTimeline(timeline: seq<Json>, dumps: Json -> string): (r: Option<string>)
    ensures r.None? <==> timeline == []
  {
    if timeline == [] then None else Some(dumps(JArr(timeline)))
  }

  /** The `timeline_view` returned by `get_topic_with_arguments`: parsed
      when the column is non-empty and valid JSON, otherwise None. */
  function DecodeTimeline(stored: Option<string>, loads: string -> Option<Json>): (r: Option<Json>)
    ensures stored.None? || stored.value == "" ==> r.None?
    ensures stored.Some? && stored.value != "" ==> r == loads(stored.value)
  {
    match stored
    case None => None
    case Some(text) => if text == "" then None else loads(text)
  }

  /** A stored timeline reads back as the same list; an empty one reads
      back as None, which the topic route treats as missing analysis. */
  lemma TimelineRoundTrip(lib: JsonLib, timeline: seq<Json>)
    requires Conforming(lib)
    ensures timeline != [] ==> DecodeTimeline(EncodeTimeline(timeline, lib.dumps), lib.loads) == Some(JArr(timeline))
    ensures timeline == [] ==> DecodeTimeline(EncodeTimeline(timeline, lib.dumps), lib.loads).None?
  {
    if timeline != [] {
      assert lib.dumps(JArr(timeline)) != "";
      assert lib.loads(lib.dumps(JArr(timeline))) == Some(JArr(timeline));
    }
  }

  // ---------------------------------------------------------------------
  // The API usage counter
  // ---------------------------------------------------------------------

  /** `get_api_call_count`: 0 for a service never counted. */
  function CallCount(usage: map<string, int>, name: string): int {
    if name in usage then usage[name] else 0
  }

  /** The `api_usage` table after `increment_api_call_count(name)`: the
      upsert inserts 1 or adds 1. */
  function Incremented(usage: map<string, int>, name: string): (u: map<string, int>)
    ensures CallCount(u, name) == CallCount(usage, name) + 1
    ensures forall other :: other != name ==> CallCount(u, other) == CallCount(usage, other)
    ensures u.Keys == usage.Keys + {name}
  {
    if name in usage then usage[name := usage[name] + 1] else usage[name := 1]
  }

  /** The table after `n` increments of one service. */
  function IncrementedTimes(usage: map<string, int>, name: string, n: nat): map<string, int> {
    if n == 0 then usage else Incremented(IncrementedTimes(usage, name, n - 1), name)
  }

  /** `n` increments add exactly `n` to that service and nothing to any other. */
  lemma {:induction false} CountAfterIncrements(usage: map<string, int>, name: string, n: nat)
    ensures CallCount(IncrementedTimes(usage, name, n), name) == CallCount(usage, name) + n
    ensures forall other :: other != name ==>
              CallCount(IncrementedTimes(usage, name, n), other) == CallCount(usage, other)
  {
    if n > 0 {
      CountAfterIncrements(usage, name, n - 1);
    }
  }

  /** `check_api_limit(name, limit=750)`. */
  predicate UnderLimit(usage: map<string, int>, name: string, limit: int := 750) {
    CallCount(usage, name) < limit
  }

  /** Starting from an unseen service, the limit is reached after exactly
      `limit` increments. */
  lemma LimitReachedAfterLimitCalls(usage: map<string, int>, name: string, limit: nat, n: nat)
    requires name !in usage
    ensures UnderLimit(IncrementedTimes(usage, name, n), name, limit) <==> n < limit
  {
    CountAfterIncrements(usage, name, n);
  }

  // ---------------------------------------------------------------------
  // Argument rows by primary key
  // ---------------------------------------------------------------------

  /** The `id` column is the primary key. */
  predicate UniqueIds(rows: seq<ArgumentRow>) {
    forall i, j :: 0 <= i < j < |rows| ==> rows[i].id != rows[j].id
  }

  /** The table's own order is `ORDER BY created_at ASC`: a row is
      inserted with the clock reading of its insert, and the clock does not
      run backwards. Rows with equal times may come in either order in the
      database's answer; the table order is one of them. */
  predicate Chronological(rows: seq<ArgumentRow>) {
    forall i, j :: 0 <= i < j < |rows| ==> rows[i].createdAt <= rows[j].createdAt
  }

  /** `SELECT * FROM arguments WHERE id = %s`. */
  function FindArgument(rows: seq<ArgumentRow>, id: int): (r: Option<ArgumentRow>)
    ensures r.None? <==> forall k :: 0 <= k < |rows| ==> rows[k].id != id
    ensures r.Some? ==> r.value in rows && r.value.id == id
  {
    if rows == [] then None
    else if rows[0].id == id then Some(rows[0])
    else
      var r := FindArgument(rows[1..], id);
      assert forall k :: 1 <= k < |rows| ==> rows[k] == rows[1..][k - 1];
      r
  }

  /** With unique keys, looking a row's key up finds that row. */
  lemma {:induction false} FindUnique(rows: seq<ArgumentRow>, a: ArgumentRow)
    requires UniqueIds(rows) && a in rows
    ensures FindArgument(rows, a.id) == Some(a)
    decreases |rows|
  {
    if rows[0] != a {
      assert a in rows[1..];
      assert UniqueIds(rows[1..]) by {
        forall i, j | 0 <= i < j < |rows[1..]| ensures rows[1..][i].id != rows[1..][j].id {
          assert rows[1..][i] == rows[i + 1] && rows[1..][j] == rows[j + 1];
        }
      }
      FindUnique(rows[1..], a);
      var k :| 0 <= k < |rows| && rows[k] == a;
      assert rows[0].id != a.id;
    }
  }

  /** The `SET` part of an `UPDATE arguments` statement. */
  datatype Edit =
    | Vote(delta: int)                                                   // votes = votes + delta
    | Text(title: string, content: string, sources: Option<string>)      // update_argument
    | Validity(score: int, reasoning: string, checkedAt: int, keyUrls: Option<string>)  // update_argument_validity

  function Applied(a: ArgumentRow, e: Edit): (b: ArgumentRow)
    ensures b.id == a.id && b.topicId == a.topicId && b.side == a.side && b.userId == a.userId
    ensures b.createdAt == a.createdAt
  {
    match e
    case Vote(d) => a.(votes := a.votes + d)
    case Text(t, c, src) => a.(title := t, content := c, sources := src)
    case Validity(sc, why, at, urls) =>
      a.(validityScore := Some(sc), validityReasoning := Some(why), validityCheckedAt := Some(at), keyUrls := urls)
  }

  /** `UPDATE arguments SET ... WHERE id = %s`. */
  function Updated(rows: seq<ArgumentRow>, id: int, e: Edit): (r: seq<ArgumentRow>)
    ensures |r| == |rows|
  {
    seq(|rows|, k requires 0 <= k < |rows| => if rows[k].id == id then Applied(rows[k], e) else rows[k])
  }

  /** An update changes the row with that key, as the edit says, and no
      other row; the keys, topics, sides and owners of all rows stay. */
  lemma {:induction false} UpdatedRows(rows: seq<ArgumentRow>, id: int, e: Edit, other: int)
    ensures FindArgument(Updated(rows, id, e), other) ==
            if other != id then FindArgument(rows, other)
            else match FindArgument(rows, id) case None => None case Some(a) => Some(Applied(a, e))
    decreases |rows|
  {
    if rows != [] {
      UpdatedRows(rows[1..], id, e, other);
      assert Updated(rows, id, e)[1..] == Updated(rows[1..], id, e);
    }
  }

  lemma UpdatedKeepsKeys(rows: seq<ArgumentRow>, id: int, e: Edit)
    ensures forall k :: 0 <= k < |rows| ==>
              Updated(rows, id, e)[k].id == rows[k].id && Updated(rows, id, e)[k].topicId == rows[k].topicId &&
              Updated(rows, id, e)[k].side == rows[k].side && Updated(rows, id, e)[k].userId == rows[k].userId
  {
  }

  /** `SELECT * FROM arguments WHERE topic_id = %s`, in table order. This
      is the same kind of filter as OnSide, but on another column: the
      database selects by topic, the route then splits by side. */
  function OfTopic(rows: seq<ArgumentRow>, topicId: string): (r: seq<ArgumentRow>)
    ensures |r| <= |rows|
    ensures forall k :: 0 <= k < |r| ==> r[k].topicId == topicId
  {
    if rows == [] then []
    else
      var rest := OfTopic(rows[1..], topicId);
      if rows[0].topicId == topicId then [rows[0]] + rest else rest
  }

  /** A row is listed for its topic exactly when it is in the table. */
  lemma {:induction false} OfTopicMembers(rows: seq<ArgumentRow>, topicId: string, a: ArgumentRow)
    ensures a in OfTopic(rows, topicId) <==> a in rows && a.topicId == topicId
    decreases |rows|
  {
    if rows != [] {
      OfTopicMembers(rows[1..], topicId, a);
      assert rows == [rows[0]] + rows[1..];
    }
  }

  /** Selecting a topic's rows keeps them in creation order. */
  lemma {:induction false} OfTopicChronological(rows: seq<ArgumentRow>, topicId: string)
    ensures Chronological(rows) ==> Chronological(OfTopic(rows, topicId))
    decreases |rows|
  {
    if rows != [] && Chronological(rows) {
      var rest := OfTopic(rows[1..], topicId);
      OfTopicChronological(rows[1..], topicId);
      if rows[0].topicId == topicId {
        forall k | 0 <= k < |rest| ensures rows[0].createdAt <= rest[k].createdAt {
          OfTopicMembers(rows[1..], topicId, rest[k]);
          var j :| 0 <= j < |rows[1..]| && rows[1..][j] == rest[k];
          assert rows[j + 1] == rest[k];
        }
      }
    }
  }

  /** `SELECT COUNT(*) FROM arguments WHERE user_id = %s`. */
  function OwnedArguments(rows: seq<ArgumentRow>, userId: string): (n: nat)
    ensures n <= |rows|
  {
    if rows == [] then 0
    else (if rows[0].userId == Some(userId) then 1 else 0) + OwnedArguments(rows[1..], userId)
  }

  lemma {:induction false} OwnedAppend(rows: seq<ArgumentRow>, a: ArgumentRow, userId: string)
    ensures OwnedArguments(rows + [a], userId) == OwnedArguments(rows, userId) + (if a.userId == Some(userId) then 1 else 0)
    decreases |rows|
  {
    if rows == [] {
      assert rows + [a] == [a];
    } else {
      OwnedAppend(rows[1..], a, userId);
      assert (rows + [a])[1..] == rows[1..] + [a];
    }
  }

  /** `SELECT COUNT(*) FROM topics WHERE user_id = %s`. */
  function OwnedTopics(topics: map<string, TopicRow>, userId: string): (n: nat)
    ensures n <= |topics|
  {
    var owned := set t | t in topics && topics[t].userId == Some(userId);
    SubsetCard(owned, topics.Keys);
    |owned|
  }

  /** A subset is no larger than its superset. */
  lemma {:induction false} SubsetCard<T>(a: set<T>, b: set<T>)
    requires a <= b
    ensures |a| <= |b|
    decreases |b|
  {
    if a != {} {
      var x :| x in a;
      SubsetCard(a - {x}, b - {x});
    }
  }

  /** Editing a row never moves it to another owner, so no owner's count
      of arguments changes. */
  lemma {:induction false} UpdatedKeepsOwned(rows: seq<ArgumentRow>, id: int, e: Edit, userId: string)
    ensures OwnedArguments(Updated(rows, id, e), userId) == OwnedArguments(rows, userId)
    decreases |rows|
  {
    if rows != [] {
      UpdatedKeepsOwned(rows[1..], id, e, userId);
      assert Updated(rows, id, e)[1..] == Updated(rows[1..], id, e);
    }
  }

  /** A new topic counts once towards its owner's contributions and not
      at all towards anyone else's. */
  lemma NewTopicCounts(topics: map<string, TopicRow>, id: string, row: TopicRow, userId: string)
    requires id !in topics
    ensures OwnedTopics(topics[id := row], userId) ==
            OwnedTopics(topics, userId) + (if row.userId == Some(userId) then 1 else 0)
  {
    var before := set t | t in topics && topics[t].userId == Some(userId);
    var m := topics[id := row];
    var after := set t | t in m && m[t].userId == Some(userId);
    if row.userId == Some(userId) {
      assert after == before + {id};
    } else {
      assert after == before;
    }
  }

  /** A sublist of a sorted list is sorted: the side lists keep the
      validity order of the query. */
  lemma {:induction false} OnSideKeepsSorted(s: seq<ArgumentRow>, side: string)
    requires SortedByValidity(s)
    ensures SortedByValidity(OnSide(s, side))
    decreases |s|
  {
    if s != [] {
      OnSideKeepsSorted(s[1..], side);
      if s[0].side == side {
        var rest := OnSide(s[1..], side);
        forall j | 0 <= j < |rest| ensures ListedNoLaterThan(s[0], rest[j]) {
          OnSideCounts(s[1..], side, rest[j]);
          assert rest[j] in multiset(rest);
          var k :| 0 <= k < |s[1..]| && s[1..][k] == rest[j];
          assert s[k + 1] == rest[j];
        }
      }
    }
  }

  // ---------------------------------------------------------------------
  // Argument matches
  // ---------------------------------------------------------------------

  /** `SELECT ... FROM argument_matches WHERE topic_id = %s`. */
  function MatchesOf(rows: seq<MatchRow>, topicId: string): (r: seq<MatchRow>)
    ensures forall k :: 0 <= k < |r| ==> r[k].topicId == topicId
    ensures forall m :: m in r <==> m in rows && m.topicId == topicId
  {
    if rows == [] then []
    else
      assert rows == [rows[0]] + rows[1..];
      (if rows[0].topicId == topicId then [rows[0]] else []) + MatchesOf(rows[1..], topicId)
  }

  /** The table after `DELETE FROM argument_matches WHERE topic_id = %s`. */
  function WithoutTopic(rows: seq<MatchRow>, topicId: string): (r: seq<MatchRow>)
    ensures forall k :: 0 <= k < |r| ==> r[k].topicId != topicId
  {
    if rows == [] then []
    else (if rows[0].topicId != topicId then [rows[0]] else []) + WithoutTopic(rows[1..], topicId)
  }

  /** The rows inserted for a list of matches of one topic. */
  function MatchRows(topicId: string, ms: seq<MatchInput>): (r: seq<MatchRow>)
    ensures |r| == |ms|
    ensures forall k :: 0 <= k < |ms| ==> r[k] == MatchRow(topicId, ms[k].proId, ms[k].conId, ms[k].reason)
  {
    seq(|ms|, k requires 0 <= k < |ms| => MatchRow(topicId, ms[k].proId, ms[k].conId, ms[k].reason))
  }

  lemma {:induction false} MatchesOfAppend(xs: seq<MatchRow>, ys: seq<MatchRow>, topicId: string)
    ensures MatchesOf(xs + ys, topicId) == MatchesOf(xs, topicId) + MatchesOf(ys, topicId)
    decreases |xs|
  {
    if xs == [] {
      assert xs + ys == ys;
    } else {
      var xys := xs + ys;
      assert xys[0] == xs[0] && xys[1..] == xs[1..] + ys;
      MatchesOfAppend(xs[1..], ys, topicId);
      var head := if xs[0].topicId == topicId then [xs[0]] else [];
      calc {
        MatchesOf(xys, topicId);
        head + MatchesOf(xs[1..] + ys, topicId);
        head + (MatchesOf(xs[1..], topicId) + MatchesOf(ys, topicId));
        (head + MatchesOf(xs[1..], topicId)) + MatchesOf(ys, topicId);
      }
    }
  }

  lemma {:induction false} MatchesOfOwnTopic(rows: seq<MatchRow>, topicId: string)
    requires forall k :: 0 <= k < |rows| ==> rows[k].topicId == topicId
    ensures MatchesOf(rows, topicId) == rows
    decreases |rows|
  {
    if rows != [] {
      MatchesOfOwnTopic(rows[1..], topicId);
      assert rows == [rows[0]] + rows[1..];
    }
  }

  lemma {:induction false} MatchesOfOtherTopic(rows: seq<MatchRow>, topicId: string, other: string)
    requires forall k :: 0 <= k < |rows| ==> rows[k].topicId == topicId
    requires other != topicId
    ensures MatchesOf(rows, other) == []
    decreases |rows|
  {
    if rows != [] {
      MatchesOfOtherTopic(rows[1..], topicId, other);
    }
  }

  lemma {:induction false} WithoutTopicMatches(rows: seq<MatchRow>, topicId: string, other: string)
    ensures MatchesOf(WithoutTopic(rows, topicId), other) == if other == topicId then [] else MatchesOf(rows, other)
    decreases |rows|
  {
    if rows != [] {
      WithoutTopicMatches(rows[1..], topicId, other);
      var head := if rows[0].topicId != topicId then [rows[0]] else [];
      MatchesOfAppend(head, WithoutTopic(rows[1..], topicId), other);
      if head != [] {
        assert head[1..] == [];
      }
    }
  }

  /** After replacing a topic's matches, that topic has exactly the new
      list, in order, and every other topic keeps its own. */
  lemma ReplacedMatches(rows: seq<MatchRow>, topicId: string, ms: seq<MatchInput>, other: string)
    ensures MatchesOf(WithoutTopic(rows, topicId) + MatchRows(topicId, ms), other) ==
            if other == topicId then MatchRows(topicId, ms) else MatchesOf(rows, other)
  {
    MatchesOfAppend(WithoutTopic(rows, topicId), MatchRows(topicId, ms), other);
    WithoutTopicMatches(rows, topicId, other);
    if other == topicId {
      MatchesOfOwnTopic(MatchRows(topicId, ms), topicId);
    } else {
      MatchesOfOtherTopic(MatchRows(topicId, ms), topicId, other);
    }
  }

  // ---------------------------------------------------------------------
  // Topic keys: text compared with a `uuid` column
  // ---------------------------------------------------------------------

  predicate IsHexDigit(c: char) {
    '0' <= c <= '9' || 'a' <= c <= 'f' || 'A' <= c <= 'F'
  }

  predicate IsLowerHexDigit(c: char) {
    '0' <= c <= '9' || 'a' <= c <= 'f'
  }

  predicate HyphenAt(i: int) {
    i == 8 || i == 13 || i == 18 || i == 23
  }

  /** The text of a `uuid` value as the database and `str(uuid)` print it:
      32 lower-case hex digits in groups of 8, 4, 4, 4 and 12. */
  predicate CanonicalUuid(s: string) {
    |s| == 36 && forall i :: 0 <= i < 36 ==> if HyphenAt(i) then s[i] == '-' else IsLowerHexDigit(s[i])
  }

  /** The same grouping with hex digits in either case. */
  predicate HyphenatedUuid(s: string) {
    |s| == 36 && forall i :: 0 <= i < 36 ==> if HyphenAt(i) then s[i] == '-' else IsHexDigit(s[i])
  }

  /** The text with the separators PostgreSQL's uuid input allows
      (hyphens and the surrounding braces) removed. */
  function Stripped(s: string): (r: string)
    ensures |r| <= |s|
  {
    if s == [] then [] else Kept(s[0]) + Stripped(s[1..])
  }

  /** A character as the separator removal leaves it. */
  function Kept(c: char): (r: string)
    ensures |r| <= 1
  {
    if c == '-' || c == '{' || c == '}' then [] else [c]
  }

  /** Some spelling of a UUID: 32 hex digits once the separators are
      removed. Any text that is not one is refused by the cast. */
  predicate UuidSpelling(s: string) {
    var digits := Stripped(s);
    |digits| == 32 && forall i :: 0 <= i < 32 ==> IsHexDigit(digits[i])
  }

  /** How the database reads a text key compared with a `uuid` column
      (`WHERE id = %s` on `topics`, `WHERE topic_id = %s` on `arguments`
      and `argument_matches`). The cast is the database's own and `key` is
      its outcome: None when the text is not a UUID, and the statement
      raises; otherwise the UUID's canonical text, which is what the
      tables hold. Only a text with 32 hex digits is read at all, and
      every hyphenated spelling, in either case, is read as its
      lower-case form. */
  predicate KeyCast(text: string, key: Option<string>) {
    (key.Some? ==> CanonicalUuid(key.value) && UuidSpelling(text)) &&
    (HyphenatedUuid(text) ==> key == Some(Lower(text)))
  }

  /** A text with too few hex digits, such as a small integer, makes the
      statement raise. */
  lemma ShortTextRaises(text: string, key: Option<string>)
    requires KeyCast(text, key) && |text| < 32
    ensures key.None?
  {
  }

  /** Every hyphenated spelling is some spelling, so the cast can read it. */
  lemma HyphenatedIsSpelling(s: string)
    requires HyphenatedUuid(s)
    ensures UuidSpelling(s)
  {
    HyphenatedGroups(s);
    HyphenatedDigits(s);
    var digits := s[0..8] + (s[9..13] + (s[14..18] + (s[19..23] + s[24..36])));
    forall i | 0 <= i < 32 ensures IsHexDigit(digits[i]) {
      if i < 8 { assert digits[i] == s[i]; }
      else if i < 12 { assert digits[i] == s[i + 1]; }
      else if i < 16 { assert digits[i] == s[i + 2]; }
      else if i < 20 { assert digits[i] == s[i + 3]; }
      else { assert digits[i] == s[i + 4]; }
    }
  }

  /** The digits left of a hyphenated spelling, group by group. */
  lemma HyphenatedDigits(s: string)
    requires |s| == 36 && s[8] == '-' && s[13] == '-' && s[18] == '-' && s[23] == '-'
    requires forall i :: 0 <= i < 8 ==> IsHexDigit(s[i])
    requires forall i :: 9 <= i < 13 ==> IsHexDigit(s[i])
    requires forall i :: 14 <= i < 18 ==> IsHexDigit(s[i])
    requires forall i :: 19 <= i < 23 ==> IsHexDigit(s[i])
    requires forall i :: 24 <= i < 36 ==> IsHexDigit(s[i])
    ensures Stripped(s) == s[0..8] + (s[9..13] + (s[14..18] + (s[19..23] + s[24..36])))
  {
    var g1, g2, g3, g4, g5 := s[0..8], s[9..13], s[14..18], s[19..23], s[24..36];
    assert Stripped(s[36..]) == [];
    HexRun(s, 24, 36);
    assert Stripped(s[24..]) == g5;
    SkipHyphen(s, 23);
    HexRun(s, 19, 23);
    assert Stripped(s[19..]) == g4 + g5;
    SkipHyphen(s, 18);
    HexRun(s, 14, 18);
    assert Stripped(s[14..]) == g3 + (g4 + g5);
    SkipHyphen(s, 13);
    HexRun(s, 9, 13);
    assert Stripped(s[9..]) == g2 + (g3 + (g4 + g5));
    SkipHyphen(s, 8);
    HexRun(s, 0, 8);
    assert s[0..] == s;
  }

  /** The hex runs and hyphens of a hyphenated spelling. */
  lemma HyphenatedGroups(s: string)
    requires HyphenatedUuid(s)
    ensures |s| == 36 && s[8] == '-' && s[13] == '-' && s[18] == '-' && s[23] == '-'
    ensures forall i :: 0 <= i < 8 ==> IsHexDigit(s[i])
    ensures forall i :: 9 <= i < 13 ==> IsHexDigit(s[i])
    ensures forall i :: 14 <= i < 18 ==> IsHexDigit(s[i])
    ensures forall i :: 19 <= i < 23 ==> IsHexDigit(s[i])
    ensures forall i :: 24 <= i < 36 ==> IsHexDigit(s[i])
  {
    assert HyphenAt(8) && HyphenAt(13) && HyphenAt(18) && HyphenAt(23);
  }

  /** A hyphen at the head of a suffix is dropped. */
  lemma SkipHyphen(s: string, k: nat)
    requires k < |s| && s[k] == '-'
    ensures Stripped(s[k..]) == Stripped(s[k + 1..])
  {
    assert s[k..][0] == '-' && s[k..][1..] == s[k + 1..];
  }

  /** A run of hex digits at the head of a suffix is kept as it is. */
  lemma HexRun(s: string, k: nat, m: nat)
    requires k <= m <= |s|
    requires forall i :: k <= i < m ==> IsHexDigit(s[i])
    ensures Stripped(s[k..]) == s[k..m] + Stripped(s[m..])
  {
    assert s[k..] == s[k..m] + s[m..];
    StrippedAppend(s[k..m], s[m..]);
    StrippedHex(s[k..m]);
  }

  /** Removing separators commutes with concatenation. */
  lemma {:induction false} StrippedAppend(a: string, b: string)
    ensures Stripped(a + b) == Stripped(a) + Stripped(b)
    decreases |a|
  {
    if a == [] {
      assert a + b == b;
    } else {
      var ab := a + b;
      assert ab[0] == a[0] && ab[1..] == a[1..] + b;
      StrippedAppend(a[1..], b);
      calc {
        Stripped(ab);
        Kept(a[0]) + Stripped(a[1..] + b);
        Kept(a[0]) + (Stripped(a[1..]) + Stripped(b));
        (Kept(a[0]) + Stripped(a[1..])) + Stripped(b);
      }
    }
  }

  /** A run of hex digits has no separator to remove. */
  lemma {:induction false} StrippedHex(g: string)
    requires forall i :: 0 <= i < |g| ==> IsHexDigit(g[i])
    ensures Stripped(g) == g
    decreases |g|
  {
    if g != [] {
      assert IsHexDigit(g[0]);
      StrippedHex(g[1..]);
    }
  }

  /** A canonical key is read as itself, and its upper-case spelling is
      read as the same key. */
  lemma CanonicalKeyCast(id: string, key: Option<string>, upper: Option<string>)
    requires CanonicalUuid(id) && KeyCast(id, key) && KeyCast(Upper(id), upper)
    ensures key == Some(id) && upper == Some(id)
  {
    assert HyphenatedUuid(id);
    assert Lower(id) == id by {
      forall i | 0 <= i < 36 ensures Lower(id)[i] == id[i] {
        if !HyphenAt(i) {
          assert IsLowerHexDigit(id[i]);
        }
      }
    }
    assert HyphenatedUuid(Upper(id)) by {
      forall i | 0 <= i < 36
        ensures if HyphenAt(i) then Upper(id)[i] == '-' else IsHexDigit(Upper(id)[i])
      {
        if !HyphenAt(i) {
          assert IsLowerHexDigit(id[i]);
        }
      }
    }
    assert Lower(Upper(id)) == id by {
      forall i | 0 <= i < 36 ensures Lower(Upper(id))[i] == id[i] {
        if !HyphenAt(i) {
          assert IsLowerHexDigit(id[i]);
        }
      }
    }
  }

  // ---------------------------------------------------------------------
  // Profiles
  // ---------------------------------------------------------------------

  /** The UNIQUE constraint on `username` would be violated by giving
      `username` to `id`. */
  predicate UsernameTaken(profiles: map<string, Profile>, id: string, username: string) {
    exists other :: other in profiles && other != id && profiles[other].username == username
  }

  // ---------------------------------------------------------------------
  // Query results
  // ---------------------------------------------------------------------

  /** An argument as returned with its topic: the row and its parsed URL list. */
  datatype ArgumentOut = ArgumentOut(row: ArgumentRow, keyUrls: Json)

  /** The result of `get_topic_with_arguments`. */
  datatype TopicDetail = TopicDetail(
    topic: TopicRow, pro: seq<ArgumentOut>, con: seq<ArgumentOut>, timeline: Option<Json>)

  function Outs(rows: seq<ArgumentRow>, loads: string -> Option<Json>): (r: seq<ArgumentOut>)
    ensures |r| == |rows|
    ensures forall k :: 0 <= k < |rows| ==> r[k] == ArgumentOut(rows[k], DecodeKeyUrls(rows[k].keyUrls, loads))
  {
    seq(|rows|, k requires 0 <= k < |rows| => ArgumentOut(rows[k], DecodeKeyUrls(rows[k].keyUrls, loads)))
  }

  function RowsOf(outs: seq<ArgumentOut>): (r: seq<ArgumentRow>)
    ensures |r| == |outs|
    ensures forall k :: 0 <= k < |outs| ==> r[k] == outs[k].row
  {
    seq(|outs|, k requires 0 <= k < |outs| => outs[k].row)
  }

  /** `side and side in ['pro', 'con']`: the side filter is applied only
      for a truthy 'pro' or 'con'. */
  predicate Filters(side: Option<string>) {
    side == Some("pro") || side == Some("con")
  }

  /** Every row of a side list comes from the list it was taken from. */
  lemma OnSideFrom(args: seq<ArgumentRow>, side: string)
    ensures forall k :: 0 <= k < |OnSide(args, side)| ==> OnSide(args, side)[k] in args
  {
    forall k | 0 <= k < |OnSide(args, side)| ensures OnSide(args, side)[k] in args {
      OnSideCounts(args, side, OnSide(args, side)[k]);
      assert OnSide(args, side)[k] in multiset(OnSide(args, side));
    }
  }

  /** The two side lists of one topic's rows in validity order. */
  lemma ValidityLists(mine: seq<ArgumentRow>, topicId: string)
    requires forall k :: 0 <= k < |mine| ==> mine[k].topicId == topicId
    requires forall k :: 0 <= k < |mine| ==> mine[k].side == "pro" || mine[k].side == "con"
    ensures var sorted := SortByValidity(mine);
            SortedByValidity(OnSide(sorted, "pro")) && SortedByValidity(OnSide(sorted, "con")) &&
            multiset(OnSide(sorted, "pro")) + multiset(OnSide(sorted, "con")) == multiset(mine) &&
            (forall k :: 0 <= k < |OnSide(sorted, "pro")| ==> OnSide(sorted, "pro")[k].topicId == topicId) &&
            (forall k :: 0 <= k < |OnSide(sorted, "con")| ==> OnSide(sorted, "con")[k].topicId == topicId)
  {
    var sorted := SortByValidity(mine);
    OnSideKeepsSorted(sorted, "pro");
    OnSideKeepsSorted(sorted, "con");
    forall a | a in sorted ensures a in mine {
      assert a in multiset(mine);
    }
    PartitionIsExact(sorted);
    OnSideFrom(sorted, "pro");
    OnSideFrom(sorted, "con");
  }

  /** The database: its tables, as the statements of database.py read and
      write them. Arguments are kept in insertion order; `nextArgumentId`
      is the SERIAL sequence of `arguments.id`. */
  class Store {
    var topics: map<string, TopicRow>
    var arguments: seq<ArgumentRow>
    var nextArgumentId: int
    var matches: seq<MatchRow>
    var apiUsage: map<string, int>
    var profiles: map<string, Profile>

    /** Primary keys are unique, every argument key was drawn from the
        sequence, and the side CHECK constraint holds. */
    predicate Valid()
      reads this
    {
      UniqueIds(arguments) &&
      (forall k :: 0 <= k < |arguments| ==> arguments[k].id < nextArgumentId) &&
      (forall k :: 0 <= k < |arguments| ==> arguments[k].side == "pro" || arguments[k].side == "con") &&
      Chronological(arguments)
    }

    /** An empty database. */
    constructor Empty()
      ensures Valid()
      ensures topics == map[] && arguments == [] && matches == [] && apiUsage == map[] && profiles == map[]
    {
      topics := map[];
      arguments := [];
      nextArgumentId := 1;
      matches := [];
      apiUsage := map[];
      profiles := map[];
    }

    // --- topics ---------------------------------------------------------

    /** `get_topic`, given the key as the database reads it (see KeyCast). */
    function GetTopic(id: string): (r: Option<TopicRow>)
      reads this
      ensures r.Some? <==> id in topics
      ensures r.Some? ==> r.value == topics[id]
    {
      if id in topics then Some(topics[id]) else None
    }

    /** `create_topic`, with the fresh UUID and the clock reading as
        parameters: the new row has no analysis yet. */
    method CreateTopic(id: string, proposition: string, createdBy: string, userId: Option<string>, now: int)
      returns (row: TopicRow)
      requires id !in topics
      modifies this
      ensures row == TopicRow(id, proposition, createdBy, userId, now, None, None, None)
      ensures topics == old(topics)[id := row]
      ensures arguments == old(arguments) && nextArgumentId == old(nextArgumentId) && matches == old(matches)
      ensures apiUsage == old(apiUsage) && profiles == old(profiles)
      ensures forall u :: ContributionCount(u) == old(ContributionCount(u)) + (if userId == Some(u) then 1 else 0)
    {
      row := TopicRow(id, proposition, createdBy, userId, now, None, None, None);
      topics := topics[id := row];
      forall u ensures ContributionCount(u) == old(ContributionCount(u)) + (if userId == Some(u) then 1 else 0) {
        NewTopicCounts(old(topics), id, row, u);
      }
    }

    /** `update_topic_analysis`: an empty timeline is stored as NULL; an
        unknown topic matches no row. */
    method UpdateTopicAnalysis(topicId: string, summary: string, consensus: string, timeline: seq<Json>,
                               dumps: Json -> string)
      modifies this
      ensures topicId in old(topics) ==>
                topics == old(topics)[topicId := old(topics)[topicId].(overallSummary := Some(summary),
                  consensusView := Some(consensus), timelineView := EncodeTimeline(timeline, dumps))]
      ensures topicId !in old(topics) ==> topics == old(topics)
      ensures arguments == old(arguments) && nextArgumentId == old(nextArgumentId) && matches == old(matches)
      ensures apiUsage == old(apiUsage) && profiles == old(profiles)
    {
      if topicId in topics {
        var t := topics[topicId];
        topics := topics[topicId := t.(overallSummary := Some(summary), consensusView := Some(consensus),
                                       timelineView := EncodeTimeline(timeline, dumps))];
      }
    }

    /** `get_topic_with_arguments`: the topic, its arguments in validity
        order split by side, each with its URL list parsed, and the parsed
        timeline. */
    function GetTopicWithArguments(topicId: string, loads: string -> Option<Json>): (r: Option<TopicDetail>)
      reads this
      ensures r.None? <==> topicId !in topics
      ensures r.Some? ==> r.value.topic == topics[topicId]
      ensures r.Some? ==> RowsOf(r.value.pro) == OnSide(SortByValidity(OfTopic(arguments, topicId)), "pro")
      ensures r.Some? ==> RowsOf(r.value.con) == OnSide(SortByValidity(OfTopic(arguments, topicId)), "con")
      ensures r.Some? ==> forall k :: 0 <= k < |r.value.pro| ==>
                r.value.pro[k].keyUrls == DecodeKeyUrls(r.value.pro[k].row.keyUrls, loads)
      ensures r.Some? ==> forall k :: 0 <= k < |r.value.con| ==>
                r.value.con[k].keyUrls == DecodeKeyUrls(r.value.con[k].row.keyUrls, loads)
      ensures r.Some? ==> r.value.timeline == DecodeTimeline(topics[topicId].timelineView, loads)
    {
      if topicId !in topics then None
      else
        var sorted := SortByValidity(OfTopic(arguments, topicId));
        var pro := Outs(OnSide(sorted, "pro"), loads);
        var con := Outs(OnSide(sorted, "con"), loads);
        assert RowsOf(pro) == OnSide(sorted, "pro");
        assert RowsOf(con) == OnSide(sorted, "con");
        Some(TopicDetail(topics[topicId], pro, con, DecodeTimeline(topics[topicId].timelineView, loads)))
    }

    /** The lists of a topic's page: each is sorted by the validity order,
        holds only that topic's arguments of that side, and together they
        are a rearrangement of all of the topic's arguments. */
    lemma TopicDetailLists(topicId: string, loads: string -> Option<Json>)
      requires Valid() && topicId in topics
      ensures var d := GetTopicWithArguments(topicId, loads).value;
              SortedByValidity(RowsOf(d.pro)) && SortedByValidity(RowsOf(d.con)) &&
              multiset(RowsOf(d.pro)) + multiset(RowsOf(d.con)) == multiset(OfTopic(arguments, topicId)) &&
              (forall k :: 0 <= k < |d.pro| ==> d.pro[k].row.side == "pro" && d.pro[k].row.topicId == topicId) &&
              (forall k :: 0 <= k < |d.con| ==> d.con[k].row.side == "con" && d.con[k].row.topicId == topicId)
    {
      var d := GetTopicWithArguments(topicId, loads).value;
      var mine := OfTopic(arguments, topicId);
      forall k | 0 <= k < |mine| ensures mine[k].side == "pro" || mine[k].side == "con" {
        OfTopicMembers(arguments, topicId, mine[k]);
      }
      ValidityLists(mine, topicId);
      var sorted := SortByValidity(mine);
      assert RowsOf(d.pro) == OnSide(sorted, "pro");
      assert RowsOf(d.con) == OnSide(sorted, "con");
      forall k | 0 <= k < |d.pro| ensures d.pro[k].row.side == "pro" && d.pro[k].row.topicId == topicId {
        assert d.pro[k].row == OnSide(sorted, "pro")[k];
      }
      forall k | 0 <= k < |d.con| ensures d.con[k].row.side == "con" && d.con[k].row.topicId == topicId {
        assert d.con[k].row == OnSide(sorted, "con")[k];
      }
    }

    /** The loop of `get_all_topics` over the topics the listing query
        returned: each item carries the topic's argument counts and the
        level computed from them. */
    method GetAllTopics(listed: seq<TopicRow>) returns (items: array<TopicListItem>)
      ensures items.Length == |listed|
      ensures forall i :: 0 <= i < |listed| ==>
                items[i] == ListItem(listed[i], OfTopic(arguments, listed[i].id)).(controversyLevel :=
                  ControversyLevel(|OnSide(OfTopic(arguments, listed[i].id), "pro")|,
                                   |OnSide(OfTopic(arguments, listed[i].id), "con")|))
    {
      items := new TopicListItem[|listed|](i requires 0 <= i < |listed| reads this =>
                                              ListItem(listed[i], OfTopic(arguments, listed[i].id)));
      ClassifyTopics(items);
    }

    // --- arguments ------------------------------------------------------

    /** `get_argument`. */
    function GetArgument(id: int): (r: Option<ArgumentRow>)
      reads this
      ensures r.Some? ==> r.value in arguments && r.value.id == id
      ensures r.None? <==> forall k :: 0 <= k < |arguments| ==> arguments[k].id != id
    {
      FindArgument(arguments, id)
    }

    /** `get_arguments(topic_id, side)`: the topic's arguments in creation
        order, of one side when `side` is a truthy 'pro' or 'con'. */
    function GetArguments(topicId: string, side: Option<string>): (r: seq<ArgumentRow>)
      reads this
      ensures forall k :: 0 <= k < |r| ==> r[k].topicId == topicId
      ensures Filters(side) ==> r == OnSide(OfTopic(arguments, topicId), side.value)
      ensures !Filters(side) ==> r == OfTopic(arguments, topicId)
      ensures Valid() ==> Chronological(r)
    {
      OfTopicChronological(arguments, topicId);
      if Filters(side) then
        OnSideFrom(OfTopic(arguments, topicId), side.value);
        OnSideChronological(OfTopic(arguments, topicId), side.value);
        OnSide(OfTopic(arguments, topicId), side.value)
      else OfTopic(arguments, topicId)
    }

    /** `get_arguments_sorted_by_validity(topic_id, side)`. */
    function GetArgumentsSortedByValidity(topicId: string, side: Option<string>): (r: seq<ArgumentRow>)
      reads this
      ensures SortedByValidity(r)
      ensures !Filters(side) ==> multiset(r) == multiset(OfTopic(arguments, topicId))
    {
      var sorted := SortByValidity(OfTopic(arguments, topicId));
      if Filters(side) then
        OnSideKeepsSorted(sorted, side.value);
        OnSide(sorted, side.value)
      else sorted
    }

    /** `create_argument`: a new row with no votes and no validity, keyed
        by the next value of the sequence. A side outside 'pro'/'con'
        violates the CHECK constraint: the insert raises (None) and nothing
        is stored. */
    method CreateArgument(topicId: string, side: string, title: string, content: string, author: string,
                          sources: Option<string>, userId: Option<string>, now: int)
      returns (id: Option<int>)
      requires Valid()
      requires forall k :: 0 <= k < |arguments| ==> arguments[k].createdAt <= now
      modifies this
      ensures Valid()
      ensures id.None? <==> side != "pro" && side != "con"
      ensures id.None? ==> arguments == old(arguments) && nextArgumentId == old(nextArgumentId)
      ensures id.Some? ==> id.value == old(nextArgumentId) && nextArgumentId == old(nextArgumentId) + 1
      ensures id.Some? ==> arguments == old(arguments) + [ArgumentRow(id.value, topicId, side, title, content, sources,
                                                                      author, userId, now, 0, None, None, None, None)]
      ensures topics == old(topics) && matches == old(matches) && apiUsage == old(apiUsage) && profiles == old(profiles)
      ensures forall u :: ContributionCount(u) ==
                old(ContributionCount(u)) + (if id.Some? && userId == Some(u) then 1 else 0)
    {
      if side != "pro" && side != "con" {
        return None;
      }
      var row := ArgumentRow(nextArgumentId, topicId, side, title, content, sources, author,
                             userId, now, 0, None, None, None, None);
      forall u ensures OwnedArguments(arguments + [row], u) == OwnedArguments(arguments, u) + (if userId == Some(u) then 1 else 0) {
        OwnedAppend(arguments, row, u);
      }
      arguments := arguments + [row];
      id := Some(nextArgumentId);
      nextArgumentId := nextArgumentId + 1;
    }

    /** The `UPDATE arguments` statements: the row with that key is edited
        and every other row stays. */
    method Update(id: int, e: Edit)
      requires Valid()
      modifies this
      ensures Valid()
      ensures arguments == Updated(old(arguments), id, e)
      ensures topics == old(topics) && nextArgumentId == old(nextArgumentId) && matches == old(matches)
      ensures apiUsage == old(apiUsage) && profiles == old(profiles)
      ensures forall u :: ContributionCount(u) == old(ContributionCount(u))
    {
      UpdatedKeepsKeys(arguments, id, e);
      forall u ensures OwnedArguments(Updated(arguments, id, e), u) == OwnedArguments(arguments, u) {
        UpdatedKeepsOwned(arguments, id, e, u);
      }
      arguments := Updated(arguments, id, e);
    }

    /** `update_argument`. */
    method UpdateArgument(id: int, title: string, content: string, sources: Option<string>)
      requires Valid()
      modifies this
      ensures Valid()
      ensures arguments == Updated(old(arguments), id, Text(title, content, sources))
      ensures topics == old(topics) && nextArgumentId == old(nextArgumentId) && matches == old(matches)
      ensures apiUsage == old(apiUsage) && profiles == old(profiles)
    {
      Update(id, Text(title, content, sources));
    }

    /** `update_argument_validity`, with the clock reading as a parameter;
        an empty URL list is stored as NULL. */
    method UpdateArgumentValidity(id: int, score: int, reasoning: string, keyUrls: seq<string>, now: int,
                                  dumps: Json -> string)
      requires Valid()
      modifies this
      ensures Valid()
      ensures arguments == Updated(old(arguments), id, Validity(score, reasoning, now, EncodeKeyUrls(keyUrls, dumps)))
      ensures topics == old(topics) && nextArgumentId == old(nextArgumentId) && matches == old(matches)
      ensures apiUsage == old(apiUsage) && profiles == old(profiles)
      ensures forall u :: ContributionCount(u) == old(ContributionCount(u))
    {
      Update(id, Validity(score, reasoning, now, EncodeKeyUrls(keyUrls, dumps)));
    }

    /** `upvote_argument` and `downvote_argument`: `votes = votes + delta`
        on the row with that key, returning the new count, or 0 when no
        row matched. */
    method AddVote(id: int, delta: int) returns (votes: int)
      requires Valid()
      modifies this
      ensures Valid()
      ensures arguments == Updated(old(arguments), id, Vote(delta))
      ensures votes == match FindArgument(old(arguments), id) case None => 0 case Some(a) => a.votes + delta
      ensures topics == old(topics) && nextArgumentId == old(nextArgumentId) && matches == old(matches)
      ensures apiUsage == old(apiUsage) && profiles == old(profiles)
    {
      var before := FindArgument(arguments, id);
      Update(id, Vote(delta));
      votes := match before case None => 0 case Some(a) => a.votes + delta;
    }

    method UpvoteArgument(id: int) returns (votes: int)
      requires Valid()
      modifies this
      ensures Valid()
      ensures arguments == Updated(old(arguments), id, Vote(1))
      ensures votes == match FindArgument(old(arguments), id) case None => 0 case Some(a) => a.votes + 1
      ensures topics == old(topics) && nextArgumentId == old(nextArgumentId) && matches == old(matches)
      ensures apiUsage == old(apiUsage) && profiles == old(profiles)
    {
      votes := AddVote(id, 1);
    }

    method DownvoteArgument(id: int) returns (votes: int)
      requires Valid()
      modifies this
      ensures Valid()
      ensures arguments == Updated(old(arguments), id, Vote(-1))
      ensures votes == match FindArgument(old(arguments), id) case None => 0 case Some(a) => a.votes - 1
      ensures topics == old(topics) && nextArgumentId == old(nextArgumentId) && matches == old(matches)
      ensures apiUsage == old(apiUsage) && profiles == old(profiles)
    {
      votes := AddVote(id, -1);
    }

    // --- argument matches -----------------------------------------------

    /** `get_argument_matches`. */
    function GetArgumentMatches(topicId: string): (r: seq<MatchRow>)
      reads this
      ensures forall k :: 0 <= k < |r| ==> r[k].topicId == topicId
      ensures forall m :: m in r <==> m in matches && m.topicId == topicId
    {
      MatchesOf(matches, topicId)
    }

    /** `save_argument_matches`: the topic's rows are deleted, then one row
        is inserted per match, in order. */
    method SaveArgumentMatches(topicId: string, ms: seq<MatchInput>)
      modifies this
      ensures matches == WithoutTopic(old(matches), topicId) + MatchRows(topicId, ms)
      ensures topics == old(topics) && arguments == old(arguments) && nextArgumentId == old(nextArgumentId)
      ensures apiUsage == old(apiUsage) && profiles == old(profiles)
    {
      matches := WithoutTopic(matches, topicId);
      for i := 0 to |ms|
        invariant matches == WithoutTopic(old(matches), topicId) + MatchRows(topicId, ms[..i])
        invariant topics == old(topics) && arguments == old(arguments) && nextArgumentId == old(nextArgumentId)
        invariant apiUsage == old(apiUsage) && profiles == old(profiles)
      {
        matches := matches + [MatchRow(topicId, ms[i].proId, ms[i].conId, ms[i].reason)];
        assert MatchRows(topicId, ms[..i + 1]) == MatchRows(topicId, ms[..i]) + [MatchRow(topicId, ms[i].proId, ms[i].conId, ms[i].reason)];
      }
      assert ms[..|ms|] == ms;
    }

    /** `delete_argument_matches_for_topic`. */
    method DeleteArgumentMatchesForTopic(topicId: string)
      modifies this
      ensures matches == WithoutTopic(old(matches), topicId)
      ensures topics == old(topics) && arguments == old(arguments) && nextArgumentId == old(nextArgumentId)
      ensures apiUsage == old(apiUsage) && profiles == old(profiles)
    {
      matches := WithoutTopic(matches, topicId);
    }

    // --- profiles and contributions -------------------------------------

    /** `get_user_profile`. */
    function GetUserProfile(id: string): (r: Option<Profile>)
      reads this
      ensures r.Some? <==> id in profiles
      ensures r.Some? ==> r.value == profiles[id]
    {
      if id in profiles then Some(profiles[id]) else None
    }

    /** `create_user_profile`: updates the profile with that id, or inserts
        one. A NULL e-mail (None) violates `email TEXT NOT NULL` and a
        username held by another profile violates the UNIQUE constraint;
        either way the transaction is rolled back and the error re-raised
        (None). */
    method CreateUserProfile(id: string, email: Option<string>, username: string, avatarUrl: Option<string>)
      returns (r: Option<Profile>)
      modifies this
      ensures r.None? <==> email.None? || UsernameTaken(old(profiles), id, username)
      ensures r.None? ==> profiles == old(profiles)
      ensures r.Some? ==> r.value == Profile(id, username, email.value, avatarUrl) && profiles == old(profiles)[id := r.value]
      ensures topics == old(topics) && arguments == old(arguments) && nextArgumentId == old(nextArgumentId)
      ensures matches == old(matches) && apiUsage == old(apiUsage)
    {
      if email.None? || UsernameTaken(profiles, id, username) {
        return None;
      }
      var p := Profile(id, username, email.value, avatarUrl);
      profiles := profiles[id := p];
      r := Some(p);
    }

    /** `get_or_create_user_profile`: an existing profile is returned as
        stored, whatever username was offered. */
    method GetOrCreateUserProfile(id: string, email: Option<string>, username: string, avatarUrl: Option<string>)
      returns (r: Option<Profile>)
      modifies this
      ensures id in old(profiles) ==> r == Some(old(profiles)[id]) && profiles == old(profiles)
      ensures id !in old(profiles) ==> (r.None? <==> email.None? || UsernameTaken(old(profiles), id, username))
      ensures id !in old(profiles) && r.Some? ==>
                r.value == Profile(id, username, email.value, avatarUrl) && profiles == old(profiles)[id := r.value]
      ensures r.None? ==> profiles == old(profiles)
      ensures topics == old(topics) && arguments == old(arguments) && nextArgumentId == old(nextArgumentId)
      ensures matches == old(matches) && apiUsage == old(apiUsage)
    {
      var existing := GetUserProfile(id);
      if existing.Some? {
        return existing;
      }
      r := CreateUserProfile(id, email, username, avatarUrl);
    }

    /** `get_user_contribution_count`: topics plus arguments owned by the
        user, never more than the rows of both tables. How each statement
        moves it is stated on CreateTopic, CreateArgument and Update. */
    function ContributionCount(userId: string): (n: nat)
      reads this
      ensures n == OwnedTopics(topics, userId) + OwnedArguments(arguments, userId)
      ensures n <= |topics| + |arguments|
    {
      OwnedTopics(topics, userId) + OwnedArguments(arguments, userId)
    }

    // --- API usage ------------------------------------------------------

    /** `get_api_call_count`. */
    function GetApiCallCount(name: string): int
      reads this
    {
      CallCount(apiUsage, name)
    }

    /** `increment_api_call_count`: the upsert, returning the new count. */
    method IncrementApiCallCount(name: string) returns (count: int)
      modifies this
      ensures apiUsage == Incremented(old(apiUsage), name)
      ensures count == CallCount(old(apiUsage), name) + 1
      ensures topics == old(topics) && arguments == old(arguments) && nextArgumentId == old(nextArgumentId)
      ensures matches == old(matches) && profiles == old(profiles)
    {
      apiUsage := Incremented(apiUsage, name);
      count := CallCount(apiUsage, name);
    }

    /** `check_api_limit(api_name, limit=750)`. */
    predicate CheckApiLimit(name: string, limit: int := 750)
      reads this
    {
      UnderLimit(apiUsage, name, limit)
    }
  }

  /** A listed topic before its level is set: the topic's own columns, and
      the two `COUNT(CASE WHEN a.side = ...)` columns, which together count
      every joined row once the side constraint holds. */
  function ListItem(t: TopicRow, mine: seq<ArgumentRow>): (item: TopicListItem)
    ensures item.id == t.id && item.proposition == t.proposition
    ensures item.createdBy == t.createdBy && item.createdAt == t.createdAt
    ensures (forall a :: a in mine ==> a.side == "pro" || a.side == "con") ==> item.proCount + item.conCount == |mine|
    ensures item.controversyLevel.None?
  {
    SidesCoverRows(mine);
    TopicListItem(t.id, t.proposition, t.createdBy, t.createdAt, |OnSide(mine, "pro")|, |OnSide(mine, "con")|, None)
  }
}
