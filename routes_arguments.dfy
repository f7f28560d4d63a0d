/** The argument endpoints (backend/routes/arguments.py): the checks a new
    argument passes before it is stored, editing an argument, and listing
    a topic's arguments by side. */
module RoutesArguments {
  import opened Common
  import opened Database
  import UserProfile
  import Api

  /** `USER_CONTRIBUTION_LIMIT`: topics plus arguments per user. */
  const UserContributionLimit: nat := 25

  /** The request body (`ArgumentCreate`). */
  datatype ArgumentCreate = ArgumentCreate(side: string, title: string, content: string, sources: Option<string>)

  /** The fact checker's verdict on an argument. */
  datatype Verdict = Verdict(isRelevant: bool, validityScore: int, reasoning: string, keyUrls: seq<string>)

  /** How an endpoint answers: a body, or an HTTP error with its detail. */
  datatype Reply<T> = Ok(body: T) | Error(status: int, detail: Json)

  /** Where `create_argument` stops. */
  datatype Gate =
    | TopicNotFound
    | BadSide
      // `ensure_user_profile` raised: FastAPI answers 500
    | ProfileError
    | QuotaExceeded(count: nat)
      // the fact checker raised: FastAPI answers 500
    | VerifierError
    | NotRelevant(reasoning: string)
    | Accepted(verdict: Verdict)

  /** The checks of `create_argument` in the order the endpoint makes
      them. `count` is the user's contribution count and `verdict` the
      fact checker's answer (None when it raised); each is read only once
      the checks before it have passed. */
  function CreateGate(topicFound: bool, side: string, profileOk: bool, count: nat, verdict: Option<Verdict>): (g: Gate)
    ensures !topicFound <==> g == TopicNotFound
    ensures g == BadSide <==> topicFound && side != "pro" && side != "con"
    ensures g.QuotaExceeded? <==> topicFound && (side == "pro" || side == "con") && profileOk && count >= UserContributionLimit
    ensures g.Accepted? <==>
              topicFound && (side == "pro" || side == "con") && profileOk && count < UserContributionLimit &&
              verdict.Some? && verdict.value.isRelevant
    ensures g.Accepted? ==> g.verdict == verdict.value
  {
    if !topicFound then TopicNotFound
    else if side != "pro" && side != "con" then BadSide
    else if !profileOk then ProfileError
    else if count >= UserContributionLimit then QuotaExceeded(count)
    else if verdict.None? then VerifierError
    else if !verdict.value.isRelevant then NotRelevant(verdict.value.reasoning)
    else Accepted(verdict.value)
  }

  /** A missing topic is reported first, whatever else is wrong, and an
      exhausted quota is reported whatever the fact checker would say. */
  lemma GateOrder(side: string, profileOk: bool, count: nat, v1: Option<Verdict>, v2: Option<Verdict>)
    ensures CreateGate(false, side, profileOk, count, v1) == TopicNotFound
    ensures profileOk && (side == "pro" || side == "con") && count >= UserContributionLimit ==>
              CreateGate(true, side, profileOk, count, v1) == CreateGate(true, side, profileOk, count, v2) ==
              QuotaExceeded(count)
  {
  }

  /** `detail=f"Topic with id {topic_id} not found"`. */
  function TopicNotFoundDetail(topicId: string): Json {
    JStr("Topic with id " + topicId + " not found")
  }

  /** The 403 detail object. */
  function QuotaDetail(count: nat): (d: Json)
    ensures d.JObj? && "message" in d.fields && d.fields["message"] == JStr(QuotaMessage)
  {
    JObj(map[
      "error" := JStr("quota_exceeded"),
      "message" := JStr(QuotaMessage),
      "current_count" := JNum(count),
      "limit" := JNum(UserContributionLimit)])
  }

  const QuotaMessage: string :=
    "You've reached the limit of 25 contributions (topics + arguments). Thank you for your participation!"

  /** The 400 detail object for an irrelevant argument. */
  function NotRelevantDetail(reasoning: string, proposition: string): Json {
    JObj(map[
      "error" := JStr("Argument not relevant"),
      "reasoning" := JStr(reasoning),
      "message" := JStr("This argument was rejected as not relevant to the debate proposition: '" + proposition +
                        "'. Please submit an argument with factual claims related to the debate.")])
  }

  /** The reply for a gate that stops the request. */
  function GateError(g: Gate, topicId: string, proposition: string): (r: Reply<int>)
    requires !g.Accepted?
    ensures r.Error?
    ensures r.status == (match g
                         case TopicNotFound => 404
                         case BadSide => 400
                         case NotRelevant(_) => 400
                         case QuotaExceeded(_) => 403
                         case _ => 500)
  {
    match g
    case TopicNotFound => Error(404, TopicNotFoundDetail(topicId))
    case BadSide => Error(400, JStr("side must be either 'pro' or 'con'"))
    case ProfileError => Error(500, InternalError)
    case QuotaExceeded(c) => Error(403, QuotaDetail(c))
    case VerifierError => Error(500, InternalError)
    case NotRelevant(why) => Error(400, NotRelevantDetail(why, proposition))
  }

  /** The frontend shows the quota message itself: the detail object has a
      truthy `message`, which `handleResponse` prefers. */
  lemma QuotaMessageReachesUser(count: nat, statusText: string)
    ensures Api.HandleResponse(Api.Response(403, statusText, Some(JObj(map["detail" := QuotaDetail(count)])))) ==
            Api.HttpError(QuotaMessage, 403, QuotaDetail(count), false)
  {
    var body := JObj(map["detail" := QuotaDetail(count)]);
    assert Api.Prop(body, "detail") == Some(QuotaDetail(count));
    assert Api.ErrorDetail(body) == QuotaDetail(count);
    assert Api.Prop(QuotaDetail(count), "message") == Some(JStr(QuotaMessage));
  }

  /** Updating the row just appended changes only that row. */
  lemma UpdateLast(rows: seq<ArgumentRow>, row: ArgumentRow, e: Edit)
    requires forall k :: 0 <= k < |rows| ==> rows[k].id != row.id
    ensures Updated(rows + [row], row.id, e) == rows + [Applied(row, e)]
  {
  }

  /** The gate a request meets, read off the store as it was before the
      request. */
  function RequestGate(store: Store, key: string, side: string, user: UserProfile.UserData,
                       parsedId: Option<string>, verdict: Option<Verdict>): Gate
    reads store
  {
    CreateGate(key in store.topics, side, UserProfile.Ensurable(store.profiles, user, parsedId),
               if parsedId.Some? then store.ContributionCount(parsedId.value) else 0, verdict)
  }

  /** The proposition quoted in the 400 reply for an irrelevant argument. */
  function Proposition(topics: map<string, TopicRow>, key: string): string {
    if key in topics then topics[key].proposition else ""
  }

  /** The reply FastAPI gives for an exception the endpoint does not catch. */
  const InternalError: Json := JStr("Internal Server Error")

  /** `create_argument`. The path's topic key is read as a UUID by the
      first query (`key` is that reading, None when the text is not one and
      the query raises). The proposition check, the profile, the quota and
      the fact checker are consulted in that order, and the reply is the
      one the gate names; an accepted argument is stored with the
      profile's username as author and its verdict as validity, and its key
      is returned. `parsedId` is the user id parsed as a UUID, `verdict`
      the fact checker's answer (None when it raised), `consulted` whether
      the fact checker was asked. */
  method CreateArgument(store: Store, topicId: string, key: Option<string>, body: ArgumentCreate,
                        user: UserProfile.UserData, parsedId: Option<string>, verdict: Option<Verdict>,
                        now: int, dumps: Json -> string)
    returns (r: Reply<int>, consulted: bool)
    requires store.Valid() && KeyCast(topicId, key)
    requires forall k :: 0 <= k < |store.arguments| ==> store.arguments[k].createdAt <= now
    modifies store
    ensures store.Valid()
    ensures key.None? ==>
              r == Error(500, InternalError) && !consulted && store.profiles == old(store.profiles) &&
              store.arguments == old(store.arguments)
    ensures key.Some? ==>
              var g := old(RequestGate(store, key.value, body.side, user, parsedId, verdict));
              (r.Ok? <==> g.Accepted?) &&
              (!g.Accepted? ==> r == GateError(g, topicId, Proposition(old(store.topics), key.value))) &&
              (consulted <==> g.VerifierError? || g.NotRelevant? || g.Accepted?)
    ensures key.Some? ==>
              store.profiles == if key.value in old(store.topics) && (body.side == "pro" || body.side == "con")
                                then UserProfile.AfterEnsure(old(store.profiles), user, parsedId)
                                else old(store.profiles)
    ensures key.Some? && key.value !in old(store.topics) ==>
              r == Error(404, TopicNotFoundDetail(topicId)) && !consulted
    ensures key.Some? && key.value in old(store.topics) && body.side != "pro" && body.side != "con" ==>
              r == Error(400, JStr("side must be either 'pro' or 'con'")) && !consulted
    ensures r.Error? && r.status == 403 ==>
              !consulted && parsedId.Some? &&
              r.detail == QuotaDetail(old(store.ContributionCount(parsedId.value))) &&
              old(store.ContributionCount(parsedId.value)) >= UserContributionLimit
    ensures r.Error? ==> store.arguments == old(store.arguments) && store.nextArgumentId == old(store.nextArgumentId)
    ensures r.Ok? ==>
              key.Some? && consulted && verdict.Some? && verdict.value.isRelevant && parsedId.Some? &&
              old(store.ContributionCount(parsedId.value)) < UserContributionLimit &&
              r.body == old(store.nextArgumentId) && parsedId.value in store.profiles &&
              store.arguments == old(store.arguments) + [ArgumentRow(
                r.body, key.value, body.side, body.title, body.content, body.sources,
                store.profiles[parsedId.value].username, parsedId, now, 0,
                Some(verdict.value.validityScore), Some(verdict.value.reasoning), Some(now),
                EncodeKeyUrls(verdict.value.keyUrls, dumps))]
    ensures store.topics == old(store.topics) && store.matches == old(store.matches)
    ensures forall u :: store.ContributionCount(u) ==
              old(store.ContributionCount(u)) + (if r.Ok? && parsedId == Some(u) then 1 else 0)
    ensures store.apiUsage == old(store.apiUsage)
  {
    consulted := false;
    if key.None? {
      return Error(500, InternalError), false;
    }
    var topic := store.GetTopic(key.value);
    if topic.None? {
      return Error(404, TopicNotFoundDetail(topicId)), false;
    }
    if body.side != "pro" && body.side != "con" {
      return Error(400, JStr("side must be either 'pro' or 'con'")), false;
    }
    r, consulted := CreateForTopic(store, topicId, key.value, body, user, parsedId, verdict, now, dumps);
  }

  /** `create_argument` once the topic is found and the side is valid:
      the profile, the quota and the fact checker. */
  method CreateForTopic(store: Store, topicId: string, key: string, body: ArgumentCreate,
                        user: UserProfile.UserData, parsedId: Option<string>, verdict: Option<Verdict>,
                        now: int, dumps: Json -> string)
    returns (r: Reply<int>, consulted: bool)
    requires store.Valid() && key in store.topics && (body.side == "pro" || body.side == "con")
    requires forall k :: 0 <= k < |store.arguments| ==> store.arguments[k].createdAt <= now
    modifies store
    ensures store.Valid()
    ensures var g := old(RequestGate(store, key, body.side, user, parsedId, verdict));
            (r.Ok? <==> g.Accepted?) &&
            (!g.Accepted? ==> r == GateError(g, topicId, old(store.topics)[key].proposition)) &&
            (consulted <==> g.VerifierError? || g.NotRelevant? || g.Accepted?)
    ensures store.profiles == UserProfile.AfterEnsure(old(store.profiles), user, parsedId)
    ensures r.Error? ==> store.arguments == old(store.arguments) && store.nextArgumentId == old(store.nextArgumentId)
    ensures r.Ok? ==>
              parsedId.Some? && r.body == old(store.nextArgumentId) && parsedId.value in store.profiles &&
              store.arguments == old(store.arguments) + [ArgumentRow(
                r.body, key, body.side, body.title, body.content, body.sources,
                store.profiles[parsedId.value].username, parsedId, now, 0,
                Some(verdict.value.validityScore), Some(verdict.value.reasoning), Some(now),
                EncodeKeyUrls(verdict.value.keyUrls, dumps))]
    ensures store.topics == old(store.topics) && store.matches == old(store.matches)
    ensures forall u :: store.ContributionCount(u) ==
              old(store.ContributionCount(u)) + (if r.Ok? && parsedId == Some(u) then 1 else 0)
    ensures store.apiUsage == old(store.apiUsage)
  {
    consulted := false;
    ghost var g := RequestGate(store, key, body.side, user, parsedId, verdict);
    var proposition := store.topics[key].proposition;
    var ensured := UserProfile.EnsureUserProfile(store, user, parsedId);
    if !ensured.Ensured? {
      assert g == ProfileError;
      return Error(500, InternalError), false;
    }
    var userId := ensured.userId;
    // the profile row does not count towards the quota
    assert store.ContributionCount(userId) == old(store.ContributionCount(userId));
    var count := store.ContributionCount(userId);
    if count >= UserContributionLimit {
      assert g == QuotaExceeded(count);
      return Error(403, QuotaDetail(count)), false;
    }
    consulted := true;
    if verdict.None? {
      assert g == VerifierError;
      return Error(500, InternalError), true;
    }
    var v := verdict.value;
    if !v.isRelevant {
      assert g == NotRelevant(v.reasoning);
      return Error(400, NotRelevantDetail(v.reasoning, proposition)), true;
    }
    assert g == Accepted(v);
    var id := AcceptArgument(store, key, body, ensured.username, userId, v, now, dumps);
    r := Ok(id);
  }

  /** The two writes of an accepted argument: the row, then its validity. */
  method AcceptArgument(store: Store, key: string, body: ArgumentCreate, author: string, userId: string,
                        v: Verdict, now: int, dumps: Json -> string)
    returns (id: int)
    requires store.Valid() && (body.side == "pro" || body.side == "con")
    requires forall k :: 0 <= k < |store.arguments| ==> store.arguments[k].createdAt <= now
    modifies store
    ensures store.Valid()
    ensures id == old(store.nextArgumentId) && store.nextArgumentId == id + 1
    ensures store.arguments == old(store.arguments) + [ArgumentRow(
              id, key, body.side, body.title, body.content, body.sources, author, Some(userId),
              now, 0, Some(v.validityScore), Some(v.reasoning), Some(now), EncodeKeyUrls(v.keyUrls, dumps))]
    ensures store.topics == old(store.topics) && store.matches == old(store.matches)
    ensures store.apiUsage == old(store.apiUsage) && store.profiles == old(store.profiles)
    ensures forall u :: store.ContributionCount(u) == old(store.ContributionCount(u)) + (if userId == u then 1 else 0)
  {
    var created := store.CreateArgument(key, body.side, body.title, body.content, author, body.sources, Some(userId), now);
    id := created.value;
    ghost var appended := store.arguments;
    UpdateLast(old(store.arguments), appended[|appended| - 1], Validity(v.validityScore, v.reasoning, now,
                                                                       EncodeKeyUrls(v.keyUrls, dumps)));
    store.UpdateArgumentValidity(id, v.validityScore, v.reasoning, v.keyUrls, now, dumps);
  }

  /** The endpoint's reply is the one its gate names. */
  lemma CreateFollowsGate(topicFound: bool, side: string, profileOk: bool, count: nat, verdict: Option<Verdict>,
                          topicId: string, proposition: string)
    requires !CreateGate(topicFound, side, profileOk, count, verdict).Accepted?
    ensures GateError(CreateGate(topicFound, side, profileOk, count, verdict), topicId, proposition).status ==
            if !topicFound then 404
            else if side != "pro" && side != "con" then 400
            else if !profileOk then 500
            else if count >= UserContributionLimit then 403
            else if verdict.None? then 500
            else 400
  {
  }

  /** `any(a['id'] == argument_id for a in args)`. */
  predicate HasArgument(rows: seq<ArgumentRow>, id: int) {
    exists k :: 0 <= k < |rows| && rows[k].id == id
  }

  /** `update_argument`: a topic key that is not a UUID makes the first
      query raise (500); otherwise 404 unless the topic exists and the
      argument is one of its own; otherwise the argument is edited and the
      topic's stored matches are cleared so that they are computed again. */
  method UpdateArgument(store: Store, topicId: string, key: Option<string>, argumentId: int, body: ArgumentCreate)
    returns (r: Reply<string>)
    requires store.Valid() && KeyCast(topicId, key)
    modifies store
    ensures store.Valid()
    ensures key.None? ==>
              r == Error(500, InternalError) && store.arguments == old(store.arguments) &&
              store.matches == old(store.matches)
    ensures key.Some? && key.value !in old(store.topics) ==>
              r == Error(404, TopicNotFoundDetail(topicId)) && store.arguments == old(store.arguments) &&
              store.matches == old(store.matches)
    ensures key.Some? && key.value in old(store.topics) && !HasArgument(OfTopic(old(store.arguments), key.value), argumentId) ==>
              r == Error(404, JStr("Argument with id " + IntToString(argumentId) + " not found in topic " + topicId)) &&
              store.arguments == old(store.arguments) && store.matches == old(store.matches)
    ensures key.Some? && key.value in old(store.topics) && HasArgument(OfTopic(old(store.arguments), key.value), argumentId) ==>
              r == Ok("ok") &&
              store.arguments == Updated(old(store.arguments), argumentId, Text(body.title, body.content, body.sources)) &&
              store.matches == WithoutTopic(old(store.matches), key.value)
    ensures store.topics == old(store.topics) && store.profiles == old(store.profiles)
    ensures store.apiUsage == old(store.apiUsage)
  {
    if key.None? {
      return Error(500, InternalError);
    }
    if store.GetTopic(key.value).None? {
      return Error(404, TopicNotFoundDetail(topicId));
    }
    var args := store.GetArguments(key.value, None);
    if !HasArgument(args, argumentId) {
      return Error(404, JStr("Argument with id " + IntToString(argumentId) + " not found in topic " + topicId));
    }
    store.UpdateArgument(argumentId, body.title, body.content, body.sources);
    store.DeleteArgumentMatchesForTopic(key.value);
    r := Ok("ok");
  }

  /** An argument found in the topic is the one edited: after the update
      it carries the new text and still belongs to the topic. */
  lemma UpdatedArgumentStaysInTopic(rows: seq<ArgumentRow>, topicId: string, argumentId: int, body: ArgumentCreate)
    requires UniqueIds(rows) && HasArgument(OfTopic(rows, topicId), argumentId)
    ensures var a := FindArgument(Updated(rows, argumentId, Text(body.title, body.content, body.sources)), argumentId);
            a.Some? && a.value.topicId == topicId && a.value.title == body.title && a.value.content == body.content
  {
    var mine := OfTopic(rows, topicId);
    var k :| 0 <= k < |mine| && mine[k].id == argumentId;
    OfTopicMembers(rows, topicId, mine[k]);
    UpdatedRows(rows, argumentId, Text(body.title, body.content, body.sources), argumentId);
    FindUnique(rows, mine[k]);
  }

  /** `side and side not in ['pro', 'con', 'both']`: a non-empty side
      other than these is refused. */
  predicate SideRejected(side: Option<string>) {
    side.Some? && side.value != "" && side.value != "pro" && side.value != "con" && side.value != "both"
  }

  /** `filter_side`: no filter for an absent side or 'both'. */
  function FilterSide(side: Option<string>): Option<string> {
    if side.None? || side == Some("both") then None else side
  }

  /** `get_arguments`: 500 for a topic key that is not a UUID, 404 for an
      unknown topic, 400 for a side outside 'pro', 'con' and 'both',
      otherwise the topic's arguments in creation order, filtered by the
      normalised side. */
  function ListArguments(store: Store, topicId: string, key: Option<string>, side: Option<string>)
    : (r: Reply<seq<ArgumentRow>>)
    reads store
    requires KeyCast(topicId, key)
    ensures key.None? ==> r == Error(500, InternalError)
    ensures key.Some? && key.value !in store.topics ==> r == Error(404, TopicNotFoundDetail(topicId))
    ensures key.Some? && key.value in store.topics && SideRejected(side) ==>
              r == Error(400, JStr("side query parameter must be 'pro', 'con', or 'both'"))
    ensures r.Ok? <==> key.Some? && key.value in store.topics && !SideRejected(side)
    ensures r.Ok? ==> r.body == store.GetArguments(key.value, FilterSide(side))
    ensures r.Ok? && store.Valid() ==> Chronological(r.body)
  {
    if key.None? then Error(500, InternalError)
    else if store.GetTopic(key.value).None? then Error(404, TopicNotFoundDetail(topicId))
    else if SideRejected(side) then Error(400, JStr("side query parameter must be 'pro', 'con', or 'both'"))
    else Ok(store.GetArguments(key.value, FilterSide(side)))
  }

  /** What the side parameter selects: 'pro' or 'con' lists that side
      only; an absent, empty or 'both' side lists every argument of the
      topic; anything else is refused. */
  lemma SideNormalisation(store: Store, topicId: string, key: string, side: Option<string>)
    requires KeyCast(topicId, Some(key)) && key in store.topics
    ensures side == Some("pro") || side == Some("con") ==>
              ListArguments(store, topicId, Some(key), side) == Ok(OnSide(OfTopic(store.arguments, key), side.value))
    ensures side.None? || side == Some("both") || side == Some("") ==>
              ListArguments(store, topicId, Some(key), side) == Ok(OfTopic(store.arguments, key))
    ensures ListArguments(store, topicId, Some(key), side).Error? <==>
              side.Some? && side.value != "" && side.value != "pro" && side.value != "con" && side.value != "both"
  {
  }
}
