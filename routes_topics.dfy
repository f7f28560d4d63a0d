/** The topic endpoints (backend/routes/topics.py): checking a proposition,
    creating a topic under the caller's profile name, and serving a topic
    page, which first has unscored arguments checked and a missing
    analysis written. */
module RoutesTopics {
  import opened Common
  import opened Database
  import UserProfile
  import ValidateProposition
  import RoutesArguments

  // ---------------------------------------------------------------------
  // validate_proposition_endpoint
  // ---------------------------------------------------------------------

  /** `validate_proposition_endpoint`: the checked reply, or a 500 for any
      exception `validate_proposition` raised. */
  function ValidateEndpoint(reply: Option<string>, loads: string -> Option<Json>): (r: RoutesArguments.Reply<Json>)
    ensures r.Ok? <==> ValidateProposition.Validate(reply, loads).Validated?
    ensures r.Ok? ==> r.body == ValidateProposition.Validate(reply, loads).result
    ensures r.Error? ==> r.status == 500
    ensures reply.None? ==> r.Error?
  {
    match ValidateProposition.Validate(reply, loads)
    case Validated(result) => RoutesArguments.Ok(result)
    case _ => RoutesArguments.Error(500, JStr("Internal Server Error"))
  }

  // ---------------------------------------------------------------------
  // create_topic
  // ---------------------------------------------------------------------

  /** The request body (`TopicCreate`); its `created_by` is not used. */
  datatype TopicCreate = TopicCreate(proposition: string, createdBy: string)

  /** `TopicResponse`. */
  datatype TopicResponse = TopicResponse(topicId: string, proposition: string, createdBy: string, createdAt: int)

  /** `create_topic`: a caller who has a profile, or for whom one can be
      inserted, gets the topic, recorded under the profile's name and id
      whatever `created_by` the request carried; any other caller gets a
      500. `newId` is the UUID the store draws and `now` the clock
      reading. */
  method CreateTopic(store: Store, body: TopicCreate, user: UserProfile.UserData, parsedId: Option<string>,
                     newId: string, now: int)
    returns (r: RoutesArguments.Reply<TopicResponse>)
    requires newId !in store.topics
    modifies store
    ensures parsedId.None? ==> r.Error? && r.status == 500 && store.topics == old(store.topics)
    ensures r.Ok? <==> UserProfile.Ensurable(old(store.profiles), user, parsedId)
    ensures r.Error? ==> r == RoutesArguments.Error(500, RoutesArguments.InternalError) && store.topics == old(store.topics)
    ensures store.profiles == UserProfile.AfterEnsure(old(store.profiles), user, parsedId)
    ensures r.Ok? ==>
              parsedId.Some? && parsedId.value in store.profiles &&
              r.body == TopicResponse(newId, body.proposition, store.profiles[parsedId.value].username, now) &&
              store.topics == old(store.topics)[newId := TopicRow(newId, body.proposition,
                store.profiles[parsedId.value].username, parsedId, now, None, None, None)]
    ensures store.arguments == old(store.arguments) && store.nextArgumentId == old(store.nextArgumentId)
    ensures store.matches == old(store.matches) && store.apiUsage == old(store.apiUsage)
    ensures forall u :: store.ContributionCount(u) ==
              old(store.ContributionCount(u)) + (if r.Ok? && parsedId == Some(u) then 1 else 0)
  {
    var ensured := UserProfile.EnsureUserProfile(store, user, parsedId);
    if !ensured.Ensured? {
      return RoutesArguments.Error(500, RoutesArguments.InternalError);
    }
    var row := store.CreateTopic(newId, body.proposition, ensured.username, Some(ensured.userId), now);
    r := RoutesArguments.Ok(TopicResponse(row.id, row.proposition, row.createdBy, row.createdAt));
  }

  // ---------------------------------------------------------------------
  // get_topic, as written: the path parameter is declared `int`
  // ---------------------------------------------------------------------

  predicate IsDigit(c: char) {
    '0' <= c <= '9'
  }

  function DigitsValue(s: string): (n: nat)
    requires forall k :: 0 <= k < |s| ==> IsDigit(s[k])
  {
    if s == [] then 0
    else
      assert IsDigit(s[|s| - 1]);
      DigitsValue(s[..|s| - 1]) * 10 + (s[|s| - 1] as int - '0' as int)
  }

  /** The path segment read as an `int`: an optional sign and one or more
      decimal digits (None when it is not one). */
  function ParseIntPath(s: string): (r: Option<int>)
    ensures r.Some? ==> forall k :: 1 <= k < |s| ==> IsDigit(s[k])
  {
    var body := if s != [] && (s[0] == '-' || s[0] == '+') then s[1..] else s;
    if body == [] || exists k :: 0 <= k < |body| && !IsDigit(body[k]) then None
    else
      assert forall k :: 1 <= k < |s| ==> s[k] == body[k - (|s| - |body|)];
      var n: int := DigitsValue(body);
      Some(if s[0] == '-' then -n else n)
  }

  /** The text form of a topic key as `create_topic` stores it (a UUID
      with its four hyphens). */
  predicate UuidShaped(s: string) {
    |s| == 36 && s[8] == '-' && s[13] == '-' && s[18] == '-' && s[23] == '-'
  }

  /** `get_topic` as written. A path that is not an integer is refused
      with 422 before the endpoint runs; an integer that is one reaches
      the `WHERE id = %s` comparison with the `uuid` key column, which the
      database rejects, and the error surfaces as a 500. */
  function GetTopicAsWritten(path: string): (r: RoutesArguments.Reply<TopicDetail>)
    ensures r.Error?
    ensures ParseIntPath(path).None? ==> r.status == 422
    ensures ParseIntPath(path).Some? ==> r.status == 500
  {
    match ParseIntPath(path)
    case None => RoutesArguments.Error(422, JStr("Input should be a valid integer, unable to parse string as an integer"))
    case Some(_) => RoutesArguments.Error(500, JStr("Internal Server Error"))
  }

  /** The key of every stored topic is refused by the endpoint as
      written, while the data layer finds that very topic. */
  lemma StoredTopicUnreachable(store: Store, id: string, loads: string -> Option<Json>)
    requires UuidShaped(id) && id in store.topics
    ensures GetTopicAsWritten(id) == RoutesArguments.Error(422, JStr("Input should be a valid integer, unable to parse string as an integer"))
    ensures store.GetTopicWithArguments(id, loads).Some?
  {
    UuidIsNotInt(id);
  }

  /** A hyphen inside the text is neither a sign nor a digit. */
  lemma UuidIsNotInt(id: string)
    requires UuidShaped(id)
    ensures ParseIntPath(id).None?
  {
    assert 1 <= 8 < |id| && !IsDigit(id[8]);
  }

  /** A concrete key: the page of the topic it names cannot be fetched. */
  lemma TopicPageExample()
    ensures GetTopicAsWritten("3f2a6c1e-9b7d-4c2a-8e5f-0a1b2c3d4e5f").Error?
    ensures GetTopicAsWritten("3f2a6c1e-9b7d-4c2a-8e5f-0a1b2c3d4e5f").status == 422
    ensures UuidShaped("3f2a6c1e-9b7d-4c2a-8e5f-0a1b2c3d4e5f")
  {
    var id := "3f2a6c1e-9b7d-4c2a-8e5f-0a1b2c3d4e5f";
    assert UuidShaped(id) by {
      assert id[8] == '-' && id[13] == '-' && id[18] == '-' && id[23] == '-';
    }
    UuidIsNotInt(id);
  }

  // ---------------------------------------------------------------------
  // get_topic, corrected: the path parameter is the topic's key string
  // ---------------------------------------------------------------------

  /** The rows of a page's arguments, pro then con. */
  function AllArguments(d: TopicDetail): seq<ArgumentRow> {
    RowsOf(d.pro) + RowsOf(d.con)
  }

  /** `any(arg.get('validity_score') is None for arg in all_arguments)`. */
  predicate NeedsVerification(rows: seq<ArgumentRow>) {
    exists k :: 0 <= k < |rows| && rows[k].validityScore.None?
  }

  /** The arguments sent to the fact checker, in page order: those
      without a score. */
  function Unscored(rows: seq<ArgumentRow>): (r: seq<ArgumentRow>)
    ensures forall k :: 0 <= k < |r| ==> r[k].validityScore.None?
    ensures r == [] <==> !NeedsVerification(rows)
  {
    if rows == [] then []
    else
      var init := Unscored(rows[..|rows| - 1]);
      assert forall k :: 0 <= k < |rows| - 1 ==> rows[..|rows| - 1][k] == rows[k];
      init + (if rows[|rows| - 1].validityScore.None? then [rows[|rows| - 1]] else [])
  }

  /** The table after one fact check: a verdict is saved, a raised one
      (None) changes nothing. */
  function Checked(rows: seq<ArgumentRow>, a: ArgumentRow, verdicts: int -> Option<RoutesArguments.Verdict>,
                   now: int, dumps: Json -> string): seq<ArgumentRow>
  {
    match verdicts(a.id)
    case None => rows
    case Some(v) => Updated(rows, a.id, Validity(v.validityScore, v.reasoning, now, EncodeKeyUrls(v.keyUrls, dumps)))
  }

  /** The table after checking `pending` in order. */
  function AllChecked(rows: seq<ArgumentRow>, pending: seq<ArgumentRow>, verdicts: int -> Option<RoutesArguments.Verdict>,
                      now: int, dumps: Json -> string): seq<ArgumentRow>
  {
    if pending == [] then rows
    else Checked(AllChecked(rows, pending[..|pending| - 1], verdicts, now, dumps), pending[|pending| - 1], verdicts, now, dumps)
  }

  /** After the checks, an argument that was pending and got a verdict
      carries that verdict's score; any other argument keeps its row. */
  lemma {:induction false} AllCheckedRows(rows: seq<ArgumentRow>, pending: seq<ArgumentRow>,
                                          verdicts: int -> Option<RoutesArguments.Verdict>, now: int,
                                          dumps: Json -> string, id: int)
    ensures (forall k :: 0 <= k < |pending| ==> pending[k].id != id) || verdicts(id).None? ==>
              FindArgument(AllChecked(rows, pending, verdicts, now, dumps), id) == FindArgument(rows, id)
    ensures (exists k :: 0 <= k < |pending| && pending[k].id == id) && verdicts(id).Some? ==>
              FindArgument(AllChecked(rows, pending, verdicts, now, dumps), id) ==
              match FindArgument(rows, id)
              case None => None
              case Some(a) => Some(a.(validityScore := Some(verdicts(id).value.validityScore),
                                      validityReasoning := Some(verdicts(id).value.reasoning),
                                      validityCheckedAt := Some(now),
                                      keyUrls := EncodeKeyUrls(verdicts(id).value.keyUrls, dumps)))
    decreases |pending|
  {
    if pending != [] {
      var init := pending[..|pending| - 1];
      var last := pending[|pending| - 1];
      AllCheckedRows(rows, init, verdicts, now, dumps, id);
      var before := AllChecked(rows, init, verdicts, now, dumps);
      assert forall k :: 0 <= k < |init| ==> init[k] == pending[k];
      match verdicts(last.id)
      case None =>
      case Some(v) =>
        UpdatedRows(before, last.id, Validity(v.validityScore, v.reasoning, now, EncodeKeyUrls(v.keyUrls, dumps)), id);
        if exists k :: 0 <= k < |pending| && pending[k].id == id {
          var k :| 0 <= k < |pending| && pending[k].id == id;
          if k < |init| {
            assert init[k].id == id;
          }
        }
    }
  }

  lemma AllCheckedKeepsKeys(rows: seq<ArgumentRow>, pending: seq<ArgumentRow>,
                            verdicts: int -> Option<RoutesArguments.Verdict>, now: int, dumps: Json -> string)
    ensures |AllChecked(rows, pending, verdicts, now, dumps)| == |rows|
    ensures forall k :: 0 <= k < |rows| ==>
              AllChecked(rows, pending, verdicts, now, dumps)[k].id == rows[k].id &&
              AllChecked(rows, pending, verdicts, now, dumps)[k].topicId == rows[k].topicId &&
              AllChecked(rows, pending, verdicts, now, dumps)[k].side == rows[k].side
    decreases |pending|
  {
    if pending != [] {
      AllCheckedKeepsKeys(rows, pending[..|pending| - 1], verdicts, now, dumps);
    }
  }

  /** Falsy analysis fields: `not topic_data.get(...)` for the summary, the
      consensus view or the parsed timeline. */
  predicate NeedsAnalysis(d: TopicDetail) {
    d.topic.overallSummary.None? || d.topic.overallSummary == Some("") ||
    d.topic.consensusView.None? || d.topic.consensusView == Some("") ||
    d.timeline.None? || !PyTruthy(d.timeline.value)
  }

  /** The analysis the summariser returns. */
  datatype Summary = Summary(overallSummary: string, consensusView: string, timelineView: seq<Json>)

  /** The page after the analysis was written into `topic_data`. */
  function WithSummary(d: TopicDetail, s: Summary): TopicDetail {
    d.(topic := d.topic.(overallSummary := Some(s.overallSummary), consensusView := Some(s.consensusView)),
       timeline := Some(JArr(s.timelineView)))
  }

  /** The verification loop of `get_topic`: every argument of the page
      without a score is sent to the fact checker, in page order, and a
      verdict is saved; a check that raised (None) skips that argument
      only. Returns the arguments sent. */
  method CheckUnscored(store: Store, all: seq<ArgumentRow>, verdicts: int -> Option<RoutesArguments.Verdict>,
                       now: int, dumps: Json -> string)
    returns (checked: seq<ArgumentRow>)
    requires store.Valid()
    modifies store
    ensures store.Valid()
    ensures checked == Unscored(all)
    ensures store.arguments == AllChecked(old(store.arguments), checked, verdicts, now, dumps)
    ensures store.topics == old(store.topics) && store.matches == old(store.matches)
    ensures store.profiles == old(store.profiles) && store.apiUsage == old(store.apiUsage)
  {
    checked := [];
    for i := 0 to |all|
      invariant store.Valid()
      invariant checked == Unscored(all[..i])
      invariant store.arguments == AllChecked(old(store.arguments), checked, verdicts, now, dumps)
      invariant store.topics == old(store.topics) && store.matches == old(store.matches)
      invariant store.profiles == old(store.profiles) && store.apiUsage == old(store.apiUsage)
    {
      assert all[..i + 1][..i] == all[..i];
      var arg := all[i];
      if arg.validityScore.None? {
        CheckOne(store, arg, verdicts, now, dumps);
        checked := checked + [arg];
        assert AllChecked(old(store.arguments), checked, verdicts, now, dumps) ==
               Checked(AllChecked(old(store.arguments), checked[..|checked| - 1], verdicts, now, dumps), arg, verdicts, now, dumps);
      }
    }
    assert all[..|all|] == all;
  }

  /** One fact check of the loop: a verdict is saved, a raised check
      (None) changes nothing. */
  method CheckOne(store: Store, arg: ArgumentRow, verdicts: int -> Option<RoutesArguments.Verdict>,
                  now: int, dumps: Json -> string)
    requires store.Valid()
    modifies store
    ensures store.Valid()
    ensures store.arguments == Checked(old(store.arguments), arg, verdicts, now, dumps)
    ensures store.topics == old(store.topics) && store.matches == old(store.matches)
    ensures store.profiles == old(store.profiles) && store.apiUsage == old(store.apiUsage)
  {
    var verdict := verdicts(arg.id);
    if verdict.Some? {
      var v := verdict.value;
      store.UpdateArgumentValidity(arg.id, v.validityScore, v.reasoning, v.keyUrls, now, dumps);
    }
  }

  /** The analysis step of `get_topic`: when the page's analysis is
      missing and both sides have arguments, the summariser is asked
      (`summary`, None when it or the write raised) and its analysis is
      stored and shown. */
  method Analyse(store: Store, topicId: string, page: TopicDetail, summary: Option<Summary>, dumps: Json -> string)
    returns (shown: TopicDetail, summarised: bool)
    requires topicId in store.topics
    modifies store
    ensures summarised <==> NeedsAnalysis(page) && page.pro != [] && page.con != []
    ensures summarised && summary.Some? ==>
              shown == WithSummary(page, summary.value) &&
              store.topics == old(store.topics)[topicId := old(store.topics)[topicId].(
                overallSummary := Some(summary.value.overallSummary), consensusView := Some(summary.value.consensusView),
                timelineView := EncodeTimeline(summary.value.timelineView, dumps))]
    ensures !(summarised && summary.Some?) ==> shown == page && store.topics == old(store.topics)
    ensures store.arguments == old(store.arguments) && store.nextArgumentId == old(store.nextArgumentId)
    ensures store.matches == old(store.matches) && store.profiles == old(store.profiles)
    ensures store.apiUsage == old(store.apiUsage)
  {
    shown := page;
    summarised := false;
    if NeedsAnalysis(page) && page.pro != [] && page.con != [] {
      summarised := true;
      if summary.Some? {
        var s := summary.value;
        store.UpdateTopicAnalysis(topicId, s.overallSummary, s.consensusView, s.timelineView, dumps);
        shown := WithSummary(page, s);
      }
    }
  }

  /** `get_topic` with the path read as a string. The first query reads it
      as a UUID (`key`, None when it is not one and the query raises: 500);
      404 for an unknown topic; otherwise the unscored arguments are
      checked and the page fetched again, then a missing analysis is
      generated. `checked` lists the arguments sent to the fact checker,
      `summarised` whether the summariser was asked. */
  method GetTopic(store: Store, topicId: string, key: Option<string>, loads: string -> Option<Json>,
                  dumps: Json -> string, verdicts: int -> Option<RoutesArguments.Verdict>, summary: Option<Summary>,
                  now: int)
    returns (r: RoutesArguments.Reply<TopicDetail>, checked: seq<ArgumentRow>, summarised: bool)
    requires store.Valid() && KeyCast(topicId, key)
    modifies store
    ensures store.Valid()
    ensures key.None? ==>
              r == RoutesArguments.Error(500, RoutesArguments.InternalError) &&
              checked == [] && !summarised && store.arguments == old(store.arguments) &&
              store.topics == old(store.topics)
    ensures key.Some? && key.value !in old(store.topics) ==>
              r == RoutesArguments.Error(404, RoutesArguments.TopicNotFoundDetail(topicId)) &&
              checked == [] && !summarised && store.arguments == old(store.arguments) &&
              store.topics == old(store.topics)
    ensures key.Some? && key.value in old(store.topics) ==>
              r.Ok? && key.value in store.topics &&
              checked == Unscored(AllArguments(old(store.GetTopicWithArguments(key.value, loads)).value)) &&
              store.arguments == AllChecked(old(store.arguments), checked, verdicts, now, dumps)
    ensures r.Ok? ==> key.Some? && key.value in store.topics
    ensures r.Ok? ==> RowsOf(r.body.pro) == OnSide(SortByValidity(OfTopic(store.arguments, key.value)), "pro")
    ensures r.Ok? ==> RowsOf(r.body.con) == OnSide(SortByValidity(OfTopic(store.arguments, key.value)), "con")
    ensures r.Ok? ==>
              (summarised <==>
               NeedsAnalysis(old(store.GetTopicWithArguments(key.value, loads)).value.(pro := r.body.pro, con := r.body.con)) &&
               r.body.pro != [] && r.body.con != [])
    ensures r.Ok? && summarised && summary.Some? ==>
              r.body.topic == old(store.topics)[key.value].(overallSummary := Some(summary.value.overallSummary),
                                                            consensusView := Some(summary.value.consensusView)) &&
              r.body.timeline == Some(JArr(summary.value.timelineView)) &&
              store.topics == old(store.topics)[key.value := old(store.topics)[key.value].(
                overallSummary := Some(summary.value.overallSummary), consensusView := Some(summary.value.consensusView),
                timelineView := EncodeTimeline(summary.value.timelineView, dumps))]
    ensures r.Ok? && !(summarised && summary.Some?) ==>
              r.body.topic == old(store.topics)[key.value] &&
              r.body.timeline == DecodeTimeline(old(store.topics)[key.value].timelineView, loads) &&
              store.topics == old(store.topics)
    ensures store.matches == old(store.matches) && store.profiles == old(store.profiles)
    ensures store.apiUsage == old(store.apiUsage)
  {
    if key.None? {
      return RoutesArguments.Error(500, RoutesArguments.InternalError), [], false;
    }
    var fetched := store.GetTopicWithArguments(key.value, loads);
    if fetched.None? {
      return RoutesArguments.Error(404, RoutesArguments.TopicNotFoundDetail(topicId)), [], false;
    }
    var topicData := fetched.value;
    var all := AllArguments(topicData);
    checked := [];
    if NeedsVerification(all) && all != [] {
      checked := CheckUnscored(store, all, verdicts, now, dumps);
      topicData := store.GetTopicWithArguments(key.value, loads).value;
    }
    var shown;
    shown, summarised := Analyse(store, key.value, topicData, summary, dumps);
    r := RoutesArguments.Ok(shown);
  }

  /** What the page promises about verification: every argument of the
      topic that had no score and got a verdict now carries it, and an
      argument that already had a score is left alone. */
  lemma VerificationOutcome(rows: seq<ArgumentRow>, page: seq<ArgumentRow>,
                            verdicts: int -> Option<RoutesArguments.Verdict>, now: int, dumps: Json -> string,
                            a: ArgumentRow)
    requires a in page
    ensures a.validityScore.Some? ==>
              FindArgument(AllChecked(rows, Unscored(page), verdicts, now, dumps), a.id) == FindArgument(rows, a.id) ||
              exists b :: b in Unscored(page) && b.id == a.id
    ensures a.validityScore.None? && verdicts(a.id).Some? && FindArgument(rows, a.id).Some? ==>
              FindArgument(AllChecked(rows, Unscored(page), verdicts, now, dumps), a.id).Some? &&
              FindArgument(AllChecked(rows, Unscored(page), verdicts, now, dumps), a.id).value.validityScore ==
              Some(verdicts(a.id).value.validityScore)
  {
    UnscoredMembers(page, a);
    AllCheckedRows(rows, Unscored(page), verdicts, now, dumps, a.id);
    if a.validityScore.None? {
      var p := Unscored(page);
      var k :| 0 <= k < |p| && p[k] == a;
    } else if exists k :: 0 <= k < |Unscored(page)| && Unscored(page)[k].id == a.id {
      var k :| 0 <= k < |Unscored(page)| && Unscored(page)[k].id == a.id;
      assert Unscored(page)[k] in Unscored(page);
    }
  }

  lemma {:induction false} UnscoredMembers(page: seq<ArgumentRow>, a: ArgumentRow)
    ensures a in Unscored(page) <==> a in page && a.validityScore.None?
    decreases |page|
  {
    if page != [] {
      var init := page[..|page| - 1];
      UnscoredMembers(init, a);
      assert page == init + [page[|page| - 1]];
    }
  }
}
