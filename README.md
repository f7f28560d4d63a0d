# Debately, modelled in Dafny

Debately is a debate platform. A user proposes a proposition, has it checked
by a language model (which may suggest sharper wordings), confirms one, and
opens a debate topic with pro and con arguments. Every argument is checked by
a fact checker for relevance and given a validity score; topics get a
controversy level and, once both sides have arguments, an AI summary.

This project models the decision and bookkeeping logic of that system and
proves what it guarantees. One Dafny module per source file:

- `NewDebate` (frontend/app/new/page.tsx): the create-debate page as a class
  whose handlers update its state. The results of the backend calls are
  parameters, and the requests the page sends are recorded in order in a
  `log` field. The proofs cover:
  - the five-attempt validation bound and the page invariant every handler keeps
  - the reset rules
  - the commit: the topic first, then the filled-in pro drafts and then the
    con drafts, stopping at the first failure
- `Database` (backend/database.py): the tables as values held by a `Store`
  object, each SQL statement as an update of those values. The pure rules
  applied to query results are functions:
  - controversy levels
  - the pro/con partition
  - the validity ordering, proved as a sort and a permutation
  - the JSON columns, proved as round trips
- `RoutesArguments`, `RoutesTopics`, `RoutesVoting` (backend/routes/): the
  HTTP endpoints over a `Store`, with their ordered early-exit checks and
  their status codes.
- `UserProfile` (backend/utils/user.py): the username derived from the
  identity record, and the lookup-or-insert of the profile.
- `ValidateProposition` (backend/validate_proposition.py): extracting the JSON
  from the language model's reply, and the checks on the required fields.
- `Config` (backend/config.py): API-key masking, and the settings object
  that becomes read-only once loaded.
- `Api` (frontend/src/api.ts): request headers, and turning an HTTP error
  response into a message.
- `Browse`, `UserMenu`, `Aurora`: the topic search, the menu's name, initials
  and two-click account deletion, and the page-to-background mapping.
- `Common`: optional values, JSON values, and the JavaScript and Python
  string operations the code relies on (trim/strip, split, join, `in`,
  lower/upper case).

Quirks of the code are modelled as written, and lemmas show them:

- `UserProfile.EmptyEmailIgnoresNames`: the conditional expression binds
  loosest in backend/utils/user.py:26-30, so a user without an e-mail
  address is always named "user".
- `NewDebate.TitleOnlyDraftIsDropped`: a draft with only a title passes the
  "at least one argument" guard but is never sent.
- `Config.MaskWithZeroRevealsKey`: `key[-0:]` is the whole key.
- `UserProfile.NullEmailFails`: an e-mail entry holding None names the user
  "user", and the insert of their first profile fails on the NOT NULL e-mail
  column, so every endpoint that ensures a profile answers 500 for them.

Where the documented behaviour and the code differ, the model follows the
code:

- "Continue with original" confirms the original input whether or not it
  was judged valid. The validity check exists only in the view.
- The first failed argument request aborts the commit. The already-created
  topic is kept, and only the error message is shown; no success and failure
  counts are reported.
- The five-attempt bound is enforced only by `handleTryAgain`. The
  validation handler itself has no bound.

## Model

| member | source | states |
|---|---|---|
| Aurora.VariantFromPath | frontend/contexts/AuroraContext.tsx:14-20 | "/browse" and "/new" are recognised only exactly, a path is a topic page iff it starts with "/topic/", every other path (including "/") is the home variant |
| Aurora.ExactMatchesOnly | frontend/contexts/AuroraContext.tsx:14-20 | sub-paths of "/browse" and "/new" and the bare "/topic" fall back to home; "/topic/42" is a topic page |
| Browse.KeepMatching | frontend/app/browse/page.tsx:119-121 | a topic is kept iff it was loaded and its lower-cased proposition contains the lower-cased query; each matching topic is kept exactly as often as it was loaded and every other one not at all |
| Browse.FilterTopics | frontend/app/browse/page.tsx:116-121 | a blank (after trimming) query keeps every topic unchanged; any other query keeps exactly the matching topics, each as often as it was loaded |
| Browse.KeepMatchingIsSubsequence | frontend/app/browse/page.tsx:119-121 | the matching topics are a subsequence of the loaded ones |
| Browse.FilterPreservesOrder | frontend/app/browse/page.tsx:116-121 | the search result keeps the loaded order: it is a subsequence of the loaded topics |
| Browse.ListingFor | frontend/app/browse/page.tsx:116-159 | topics are listed iff the search result is non-empty; "No topics yet" iff the result is empty and the query blank; otherwise "No topics found" with the query as typed |
| Browse.NoTopicsYetMeansNoTopics | frontend/app/browse/page.tsx:123-138 | "No topics yet" appears iff nothing is loaded and the query is blank; with topics loaded an empty result is always "No topics found" |
| UserMenu.DisplayName | frontend/components/auth/UserMenu.tsx:26 | the shown name is never empty: full_name, else name, else the e-mail's part before '@', else "User", each taken only when non-empty |
| UserMenu.Initials | frontend/components/auth/UserMenu.tsx:28-33 | the initials are the first two (or fewer) word starts of the name, upper-cased |
| UserMenu.HeadsOfWordsAreWordStarts | frontend/components/auth/UserMenu.tsx:29-31 | joining the first character of every space-separated piece gives exactly the non-space characters that start the text or follow a space |
| UserMenu.InitialsExample | frontend/components/auth/UserMenu.tsx:28-33 | "jo Li" gives the initials "JL" |
| UserMenu.Render | frontend/components/auth/UserMenu.tsx:24-33 | without a user nothing is rendered; with one, the name shown is the user's display name (full name, else name, else e-mail prefix, else 'User'), never empty, with at most two initials derived from it |
| UserMenu.DeleteButton.constructor | frontend/components/auth/UserMenu.tsx:21-22 | confirmation not shown, not deleting, nothing called |
| UserMenu.DeleteButton.HandleDeleteAccount | frontend/components/auth/UserMenu.tsx:35-52 | the first click only asks for confirmation; the second calls deleteAccount once, then navigates home on success or resets both flags on failure |
| UserProfile.EmptyEmailIgnoresNames | backend/utils/user.py:26-30 | without an e-mail address the username is "user", even when the metadata holds a full name |
| UserProfile.UsernameWithEmail | backend/utils/user.py:26-30 | with an e-mail address the username is full_name, else name, else the address up to its first '@' (the whole address when it has none) |
| UserProfile.EmptyUsername | backend/utils/user.py:26-30 | the username is empty exactly when the fallback is taken and the address starts with '@' |
| UserProfile.AgreesWithMenu | backend/utils/user.py:26-30 | the stored username equals the name the user menu shows whenever the address has a non-empty local part; with no address the two differ |
| UserProfile.EnsureUserProfile | backend/utils/user.py:7-42 | an unparseable id fails and changes nothing; the call returns iff the user has a profile or one can be inserted (the e-mail is not None and no other profile holds the derived username); the profiles afterwards are the old ones plus exactly that inserted profile; an existing profile is returned with its stored username, a new one with the derived username; no other table changes |
| UserProfile.EnsureKeepsProfiles | backend/utils/user.py:34-39 | ensuring a profile keeps usernames unique and every other profile as it was, and leaves the user with a profile exactly when the call returns |
| UserProfile.NullEmailFails | backend/utils/user.py:23-39 | an e-mail entry holding None gives the username "user", and a first profile can never be inserted for that user (the e-mail column is NOT NULL) |
| Config.SliceFrom | backend/config.py:221 | Python's `s[k:]`: a suffix of the string; for non-negative `k` it drops the first `k` characters (all of them when `k` exceeds the length), for negative `k` it keeps the last `-k` characters (the whole string when `-k` exceeds the length) |
| Config.MaskApiKey | backend/config.py:207-222 | an empty key or one no longer than the visible count masks to "***"; otherwise "sk-" (only when the key starts with it), "...", and the key's last `visible_chars` characters |
| Config.MaskShowsLastChars | backend/config.py:218-222 | with a positive count below the key's length, exactly that many trailing characters are shown, and the masked length is fixed by the prefix and the count |
| Config.MaskWithZeroRevealsKey | backend/config.py:221 | a zero count reveals the whole key, because `key[-0:]` is the whole string |
| Config.MaskExample | backend/config.py:207-222 | "sk-ant-12345678" masks to "sk-...5678" |
| Config.GetEnvOr | backend/config.py:71-73 | `os.getenv(name, default)` is the environment value when set and the default otherwise |
| Config.Loaded | backend/config.py:58-82 | after both keys are present, every slot is filled: the two keys, port "5432", name and user "postgres" by default, unset optional settings as None, and the initialised flag true |
| Config.ImmutableConfig.Blank | backend/config.py:29-41 | a freshly allocated object has no slot assigned |
| Config.ImmutableConfig.Init | backend/config.py:47-82 | a missing or empty Anthropic key fails first and a missing or empty Tavily key second, each leaving the object uninitialised with only the slots written so far; otherwise all slots are loaded and the object is initialised |
| Config.ImmutableConfig.SetAttr | backend/config.py:84-91 | an assignment is refused iff the object is initialised or the name is not a slot; a refused one changes nothing, any other sets exactly that slot |
| Config.ImmutableConfig.DelAttr | backend/config.py:93-98 | deletion is always refused |
| Config.OverriddenByLoaded | backend/config.py:49-82 | the three slots written early are all overwritten by the loaded values |
| Config.LoadThenAssign | backend/config.py:47-91 | a configuration built from a complete environment refuses every later assignment |
| ValidateProposition.Before | backend/validate_proposition.py:110-112 | `s.split(sep)[0]`: the whole text when the separator is absent, else the text before its first occurrence |
| ValidateProposition.SplitPieces | backend/validate_proposition.py:110-112 | piece 0 of a split is the text before the first separator and, when there is one, piece 1 is the text between the first and the second |
| ValidateProposition.Payload | backend/validate_proposition.py:104-112 | the decoded text is the stripped reply, cut to the first "```json" block when there is one, else to the first plain fenced block, else whole |
| ValidateProposition.FencedPiece | backend/validate_proposition.py:110-112 | the piece after the opening fence, cut at the next fence, is the text between the first two openings up to the first "```" |
| ValidateProposition.BeforeHasNoSeparator | backend/validate_proposition.py:112 | cutting a second time at the same separator changes nothing |
| ValidateProposition.FenceInJsonFence | backend/validate_proposition.py:109-112 | text containing "```json" contains "```", so the plain-fence branch only handles replies without a json fence |
| ValidateProposition.Checked | backend/validate_proposition.py:114-130 | an undecodable payload is the not-JSON error; the reply is accepted iff it is an object with all five fields and a list of suggestions, and is then returned unchanged; a non-object and missing fields are distinct API errors |
| ValidateProposition.Validate | backend/validate_proposition.py:85-130 | a failed model call is an API error; any reply is judged by the checks on its decoded payload |
| ValidateProposition.FencedReplyRoundTrip | backend/validate_proposition.py:104-124 | a reply that is one "```json" block around a well-formed object's JSON text yields that object unchanged |
| ValidateProposition.SingleBlockPayload | backend/validate_proposition.py:104-110 | the payload of a single "```json" block is the block's text |
| ValidateProposition.FenceAtEnd | backend/validate_proposition.py:110 | in backtick-free text followed by a fence, the first fence is the closing one |
| ValidateProposition.NoJsonFence | backend/validate_proposition.py:110 | backtick-free text followed by a fence has no second "```json" |
| Api.AuthHeaders | frontend/src/api.ts:11-24 | the headers always carry the JSON content type, carry "Authorization: Bearer <token>" iff the session has a non-empty access token, and nothing else |
| Api.Prop | frontend/src/api.ts:140 | a property read yields a value iff the value is an object holding that key |
| Api.ErrorData | frontend/src/api.ts:138 | the parsed error body, or `{detail: statusText}` when the body does not parse |
| Api.ErrorDetail | frontend/src/api.ts:140 | a truthy `detail` property is the detail, otherwise the whole error body; never null |
| Api.FieldError | frontend/src/api.ts:146-149 | one validation error formats iff the item is not null and its `loc` is falsy or an array |
| Api.FieldErrors | frontend/src/api.ts:146-149 | every item formatted in order, or a failure iff some item cannot be formatted |
| Api.ErrorMessage | frontend/src/api.ts:142-155 | an array detail gives "Validation error: " and the joined field errors; a string detail is the message itself; otherwise `message`, else `error`, else "HTTP error! status: <status>" |
| Api.HandleResponse | frontend/src/api.ts:136-173 | an ok status yields the parsed body, or a parse error when there is none; any other status throws an error carrying the status, the detail and the message above, signing out iff the status is 401; it throws that error exactly when the error body is not null and a message can be built from it, and a TypeError otherwise |
| Api.UnparseableBodyWithoutStatusText | frontend/src/api.ts:138-154 | an unparseable 502 body with an empty status text gives "HTTP error! status: 502" |
| Api.ValidationErrorExample | frontend/src/api.ts:142-150 | a 422 body reporting a missing `side` gives "Validation error: body.side: field required" |
| Api.SideMissingMessage | frontend/src/api.ts:144-150 | a detail array holding only the missing-`side` item yields "Validation error: body.side: field required" |
| Api.SideMissingText | frontend/src/api.ts:146-148 | the missing-`side` item formats as "body.side: field required" |
| Database.ControversyLevel | backend/database.py:227-246 | no level up to six arguments; above that "Highly Contested" iff the smaller side is at least 40% of all arguments, "Moderately Contested" iff it is below 40% but at least 25%, "Clear Consensus" iff below 25% (thresholds restated in integer arithmetic) |
| Database.RatioAtLeast | backend/database.py:236-241 | comparing the real ratio `m/t` with `p/q` is the same as comparing `q*m` with `p*t` |
| Database.ClassifyTopics | backend/database.py:196-246 | every fetched topic gets the level computed from its own counts, and nothing else about it changes |
| Database.OnSide | backend/database.py:288-289 | the side list holds only rows of that side and is never longer than the query result |
| Database.OnSideCounts | backend/database.py:288-289 | a row occurs in its own side's list as often as in the query result, and in no other side's list |
| Database.PartitionIsExact | backend/database.py:288-289 | when every side is 'pro' or 'con', the two lists together are a rearrangement of the query result and share no row |
| Database.OnSideAppend | backend/database.py:288-289 | the side lists keep the order of the query result |
| Database.ListedTotal | backend/database.py:264-267 | of any two rows, one may be listed before the other under the validity ordering |
| Database.Insert | backend/database.py:264-267 | inserting into a sorted list keeps it sorted and adds exactly that row |
| Database.ListedTransitive | backend/database.py:264-267 | the validity ordering is transitive |
| Database.SortByValidity | backend/database.py:261-268 | the listed rows are sorted by the validity ordering and are a permutation of the topic's rows |
| Database.SortedMeans | backend/database.py:264-267 | in a sorted list scored rows precede unscored ones, higher scores come earlier, and equal scores are newest first |
| Database.EncodeKeyUrls | backend/database.py:532-533 | the stored URL column is NULL iff the list is empty |
| Database.UrlList | backend/database.py:533 | the JSON array holds the URLs as strings, in order |
| Database.DecodeKeyUrls | backend/database.py:277-283 | a NULL, empty or undecodable column reads as an empty list; anything else reads as its decoded value |
| Database.KeyUrlsRoundTrip | backend/database.py:277-283 | a URL list written and read back is the same list, the empty list included |
| Database.EncodeTimeline | backend/database.py:373 | the stored timeline is NULL iff the timeline is empty |
| Database.DecodeTimeline | backend/database.py:291-297 | a NULL or empty column reads as None; anything else as the decoder's result |
| Database.TimelineRoundTrip | backend/database.py:291-297 | a non-empty timeline written and read back is the same list; an empty one reads back as None |
| Database.Incremented | backend/database.py:858-863 | the upsert adds exactly one to the named service's count (starting from 0) and leaves every other service's count alone |
| Database.CountAfterIncrements | backend/database.py:851-868 | `n` increments add exactly `n` to that service and nothing to any other |
| Database.LimitReachedAfterLimitCalls | backend/database.py:834-877 | from an unseen service, `check_api_limit` still answers true after `n` increments iff `n` is below the limit |
| Database.FindArgument | backend/database.py:491-492 | a row is found iff some row has that key, and a found row is in the table with that key |
| Database.FindUnique | backend/database.py:491-492 | with unique keys, looking up a row's key finds that very row |
| Database.Applied | backend/database.py:517-540 | an edit never changes a row's key, topic, side, owner or creation time |
| Database.Updated | backend/database.py:517-522 | an update keeps the number of rows |
| Database.UpdatedRows | backend/database.py:517-540 | after an update, the row with that key reads as edited and every other key reads as before |
| Database.UpdatedKeepsKeys | backend/database.py:517-522 | an update keeps every row's key, topic, side and owner in place |
| Database.OfTopic | backend/database.py:262-263 | a topic's rows all belong to that topic |
| Database.OfTopicMembers | backend/database.py:262-263 | a row is listed for a topic iff it is in the table and belongs to that topic |
| Database.OwnedArguments | backend/database.py:820-824 | the count of a user's arguments never exceeds the table's size |
| Database.OwnedAppend | backend/database.py:820-824 | a new argument adds one to its owner's count and nothing to anyone else's |
| Database.NewTopicCounts | backend/database.py:813-817 | a new topic adds one to its owner's count and nothing to anyone else's |
| Database.OnSideKeepsSorted | backend/database.py:288-289 | a side list of a sorted list is itself sorted |
| Database.MatchesOf | backend/database.py:595-597 | a row is listed iff it is in the table and belongs to the topic |
| Database.WithoutTopic | backend/database.py:625-633 | after the delete no row of that topic remains |
| Database.MatchRows | backend/database.py:614-619 | one row per match, in the order given, carrying the topic and the match's ids and reason |
| Database.MatchesOfAppend | backend/database.py:595-597 | listing a concatenation lists each part, the first part's rows first |
| Database.MatchesOfOwnTopic | backend/database.py:595-597 | rows all of one topic are listed unchanged for it |
| Database.MatchesOfOtherTopic | backend/database.py:595-597 | rows of one topic are never listed for another |
| Database.WithoutTopicMatches | backend/database.py:625-633 | after the delete that topic lists nothing and every other topic lists what it did before |
| Database.ReplacedMatches | backend/database.py:604-623 | after replacing a topic's matches, that topic lists exactly the new matches (in the model's table order) and every other topic keeps its own |
| Database.Outs | backend/database.py:275-283 | each returned argument carries its row and its decoded URL list, in order |
| Database.RowsOf | backend/database.py:273 | the rows behind the returned arguments, in order |
| Database.OnSideFrom | backend/database.py:288-289 | every row of a side list comes from the list it was taken from |
| Database.ValidityLists | backend/database.py:261-289 | the two side lists of a topic's rows in validity order are each sorted, belong to that topic, and together rearrange all of its rows |
| Database.Store.Empty | backend/database.py:38-114 | an empty database satisfies the key and side constraints |
| Database.Store.GetTopic | backend/database.py:135-149 | given the key as the database reads it, a topic is returned iff that key is stored, and it is the stored row |
| Database.HyphenatedIsSpelling | backend/database.py:139 | every hyphenated spelling, in either case, has the 32 hex digits the cast reads, so the cast can find its key |
| Database.ShortTextRaises | backend/database.py:139 | a text shorter than 32 characters, such as 'abc' or a number, is not a UUID and the statement raises |
| Database.UpdatedKeepsOwned | backend/database.py:513-543 | editing a row keeps every user's argument count |
| Database.CanonicalKeyCast | backend/database.py:139 | comparing a text key with the uuid column reads a canonical key as itself and its upper-case spelling as the same key |
| Database.Store.CreateTopic | backend/database.py:151-171 | the new row has the given id, proposition, author, owner and time and no analysis yet; no other table changes; the owner's contribution count rises by one and no other user's changes |
| Database.Store.UpdateTopicAnalysis | backend/database.py:369-382 | the topic's summary, consensus and timeline (NULL when empty) are set; an unknown topic changes nothing; no other table changes |
| Database.Store.GetTopicWithArguments | backend/database.py:252-309 | None iff the topic is unknown; otherwise the topic row, its pro and con arguments taken from the validity-ordered rows, each with its decoded URL list, and the decoded timeline |
| Database.Store.TopicDetailLists | backend/database.py:252-309 | each side list is sorted, holds only that topic's arguments of that side, and together they rearrange all of the topic's arguments |
| Database.Store.GetAllTopics | backend/database.py:173-250 | one item per listed topic, carrying that topic's pro and con counts and the level computed from them |
| Database.Store.GetArgument | backend/database.py:487-511 | a row is returned iff one has that key, and it is that row |
| Database.Store.GetArguments | backend/database.py:326-351 | the topic's arguments in creation order (non-decreasing creation time while the table invariant holds), restricted to one side exactly when the side is 'pro' or 'con' |
| Database.OfTopicChronological | backend/database.py:338 | selecting a topic's rows from a table in creation order keeps them in creation order |
| Database.OnSideChronological | backend/database.py:333 | selecting one side's rows keeps them in creation order |
| Database.Store.GetArgumentsSortedByValidity | backend/database.py:545-588 | the result is sorted by the validity ordering; without a side filter it is a permutation of all the topic's arguments |
| Database.Store.CreateArgument | backend/database.py:311-324 | a side other than 'pro' or 'con' stores nothing; otherwise one row with the next key, the clock reading, no votes and no validity is appended; the constraints and the creation order still hold; a stored row raises its owner's contribution count by one and no other user's changes |
| Database.Store.Update | backend/database.py:513-543 | only the row with that key is edited; the constraints still hold; no contribution count changes |
| Database.Store.UpdateArgument | backend/database.py:513-525 | the row's title, content and sources are replaced and nothing else changes |
| Database.Store.UpdateArgumentValidity | backend/database.py:527-543 | the row's score, reasoning, check time and URL column (NULL when empty) are set and nothing else changes; no contribution count changes |
| Database.Store.AddVote | backend/database.py:635-667 | the row's votes change by the delta; the new count is returned, or 0 when no row has that key |
| Database.Store.UpvoteArgument | backend/database.py:635-650 | votes go up by one; the new count, or 0 for an unknown key, is returned |
| Database.Store.DownvoteArgument | backend/database.py:652-667 | votes go down by one; the new count, or 0 for an unknown key, is returned |
| Database.Store.GetArgumentMatches | backend/database.py:590-602 | a match is returned iff it is stored and belongs to the topic |
| Database.Store.SaveArgumentMatches | backend/database.py:604-623 | the topic's old matches are removed and one row per new match is appended in order; no other table changes |
| Database.Store.DeleteArgumentMatchesForTopic | backend/database.py:625-633 | exactly the topic's matches are removed |
| Database.Store.GetUserProfile | backend/database.py:754-771 | a profile is returned iff one is stored under that id |
| Database.Store.CreateUserProfile | backend/database.py:714-752 | fails and changes nothing iff the e-mail is None (the column is NOT NULL) or another profile holds the username; otherwise the profile under that id is written with the given values |
| Database.Store.GetOrCreateUserProfile | backend/database.py:773-778 | an existing profile is returned unchanged; otherwise one is created, failing iff the e-mail is None or the username is taken |
| Database.Store.ContributionCount | backend/database.py:806-829 | the user's topics plus the user's arguments, at most the size of both tables; creating a topic or an argument raises exactly its owner's count by one, and updates leave every count alone (stated on the statements below) |
| Database.Store.IncrementApiCallCount | backend/database.py:851-871 | the table is incremented for that service and the new count returned |
| Database.ListItem | backend/database.py:179-193 | a listed topic carries the topic's id, proposition, creator and time, and no level yet; its pro and con counts add up to the joined rows when every side is pro or con |
| Database.SidesCoverRows | backend/database.py:185-188 | when every side is pro or con, the pro and con counts add up to the number of joined rows |
| RoutesArguments.CreateGate | backend/routes/arguments.py:21-58 | the checks run in the source's order: an unknown topic stops first, then a side other than 'pro'/'con', then a failed profile, then a count at or above 25, then a failed or negative fact check; an argument is accepted iff it passes all of them |
| RoutesArguments.GateOrder | backend/routes/arguments.py:21-58 | a missing topic is reported whatever else is wrong, and an exhausted quota is reported whatever the fact checker would say |
| RoutesArguments.QuotaDetail | backend/routes/arguments.py:35-43 | the 403 detail is an object whose `message` is the quota text |
| RoutesArguments.GateError | backend/routes/arguments.py:21-58 | 404 for an unknown topic, 400 for a bad side or an irrelevant argument, 403 for the quota, 500 when the profile or the fact checker raised |
| RoutesArguments.QuotaMessageReachesUser | backend/routes/arguments.py:35-43 | the frontend's error for the 403 reply carries the quota message itself |
| RoutesArguments.UpdateLast | backend/routes/arguments.py:61-77 | updating the row just appended changes only that row |
| RoutesArguments.CreateArgument | backend/routes/arguments.py:14-79 | a topic key that is not a UUID answers 500 and changes nothing; otherwise the reply is exactly the one the first failing check names (404 unknown topic, 400 bad side, 500 profile failure, 403 at 25 or more contributions, 500 fact-checker failure, 400 irrelevant) and it succeeds iff every check passes; the fact checker is asked iff the first four pass; the profiles change only as ensuring the profile changes them; an error stores no argument; success stores exactly one row under the canonical key, by the profile's username, with the verdict's score, reasoning and URLs, and returns its key; the caller's contribution count rises by one on success and no count changes otherwise |
| RoutesArguments.CreateForTopic | backend/routes/arguments.py:30-79 | for a found topic and a valid side, the reply is the one the profile, quota and fact-checker checks name, and the profiles are those after ensuring the profile; success raises the caller's contribution count by one and nothing else changes a count |
| RoutesArguments.CreateFollowsGate | backend/routes/arguments.py:21-58 | the status of a stopped request is the one its first failing check names |
| RoutesArguments.UpdateArgument | backend/routes/arguments.py:82-99 | 500 for a topic key that is not a UUID, 404 for an unknown topic or an argument not in that topic, changing nothing; otherwise the argument's text is replaced and the topic's stored matches are cleared |
| RoutesArguments.UpdatedArgumentStaysInTopic | backend/routes/arguments.py:91-96 | the argument found in the topic is the one edited: it carries the new text and still belongs to the topic |
| RoutesArguments.ListArguments | backend/routes/arguments.py:101-118 | 500 for a topic key that is not a UUID, 404 for an unknown topic, 400 for a non-empty side other than 'pro', 'con' and 'both', otherwise the topic's arguments filtered by the normalised side, in creation order |
| RoutesArguments.SideNormalisation | backend/routes/arguments.py:113-117 | 'pro' or 'con' lists that side only; an absent, empty or 'both' side lists everything; the request is refused iff the side is anything else |
| RoutesTopics.ValidateEndpoint | backend/routes/topics.py:12-16 | the endpoint answers the checked reply iff validation accepted it, and 500 for every exception, a failed model call included |
| RoutesTopics.CreateTopic | backend/routes/topics.py:18-39 | answers with the topic iff the caller has a profile or one can be inserted, and otherwise 500 with no topic stored; the profiles are exactly those after ensuring the profile; the topic is stored under the caller's profile name and id (the request's `created_by` is ignored) without analysis, and its id, proposition, author and time are returned; arguments and matches are untouched; success raises the caller's contribution count by one and no other count changes |
| RoutesTopics.ParseIntPath | backend/routes/topics.py:48 | a path segment read as an `int` consists of an optional sign and digits only |
| RoutesTopics.GetTopicAsWritten | backend/routes/topics.py:47-56 | with the path declared `int`, every request fails: a non-integer path with 422, an integer one with 500 |
| RoutesTopics.StoredTopicUnreachable | backend/routes/topics.py:47-56 | the key of every stored topic is refused with 422, although the data layer finds that topic |
| RoutesTopics.UuidIsNotInt | backend/routes/topics.py:48 | a UUID-shaped key never parses as an integer |
| RoutesTopics.TopicPageExample | backend/routes/topics.py:47-56 | the page of the topic "3f2a6c1e-9b7d-4c2a-8e5f-0a1b2c3d4e5f" cannot be fetched |
| RoutesTopics.Unscored | backend/routes/topics.py:59-67 | the arguments sent to the fact checker have no score, and there are none iff no argument needs verification |
| RoutesTopics.AllCheckedRows | backend/routes/topics.py:64-82 | after the checks, a pending argument that got a verdict carries that verdict's score, reasoning, time and URLs; every other argument reads as before |
| RoutesTopics.AllCheckedKeepsKeys | backend/routes/topics.py:64-82 | the checks keep every row's key, topic and side in place |
| RoutesTopics.CheckUnscored | backend/routes/topics.py:64-82 | every unscored argument is sent to the fact checker in page order; each verdict is saved and a failed check skips only that argument |
| RoutesTopics.Analyse | backend/routes/topics.py:87-118 | the summariser is asked iff the analysis is missing and both sides have arguments; its result is stored and shown, while a failure leaves page and table unchanged |
| RoutesTopics.GetTopic | backend/routes/topics.py:47-120 | 500 for a key that is not a UUID and 404 for an unknown topic, changing nothing; otherwise the unscored arguments are checked, the pages are re-read in validity order, and a missing analysis is generated only when both sides have arguments, written to the topic row and shown |
| RoutesTopics.VerificationOutcome | backend/routes/topics.py:59-85 | an argument that had no score and got a verdict now carries it; one that already had a score is left alone unless its key was also pending |
| RoutesTopics.UnscoredMembers | backend/routes/topics.py:60-67 | an argument is sent iff it is on the page without a score |
| RoutesVoting.Vote | backend/routes/voting.py:6-32 | 404 for an unknown argument and 500 with the exception text when the store raises, both changing nothing; otherwise the count changes by the delta and the new count is answered |
| RoutesVoting.UpvoteArgument | backend/routes/voting.py:6-18 | an existing argument's count goes up by one and the new count is answered; 404 and 500 change nothing |
| RoutesVoting.DownvoteArgument | backend/routes/voting.py:20-32 | an existing argument's count goes down by one, with no lower bound; 404 and 500 change nothing |
| RoutesVoting.StoredVotesMatchReply | backend/routes/voting.py:6-16 | the stored count after a vote is the one the endpoint answered with, and every other argument keeps its row |
| RoutesVoting.DownvoteUndoesUpvote | backend/routes/voting.py:6-32 | an upvote followed by a downvote leaves the table as it was |
| NewDebate.RemovedAt | frontend/app/new/page.tsx:82-87 | filtering out index `i` drops exactly one element when `i` is a valid index and none otherwise |
| NewDebate.RemovedAtSlice | frontend/app/new/page.tsx:82-87 | removing a valid index leaves the drafts before it followed by the drafts after it, in order |
| NewDebate.RemovedAtOutside | frontend/app/new/page.tsx:96-101 | removing an index outside the list leaves the drafts unchanged |
| NewDebate.ArgumentCalls | frontend/app/new/page.tsx:182-193 | one side's loop sends at most one request per draft |
| NewDebate.ArgumentCallsFields | frontend/app/new/page.tsx:184-191 | every request of a side's loop names the new topic, that side and the form's author |
| NewDebate.SentExactly | frontend/app/new/page.tsx:182-207 | a request is sent if and only if it is the request of some draft whose title and content are both non-blank |
| NewDebate.ArgumentCallsPrefix | frontend/app/new/page.tsx:182-193 | the requests for the first drafts are a prefix of the requests for the whole list (requests go out in draft order) |
| NewDebate.StopsAt | frontend/app/new/page.tsx:182-193 | if the request for draft `i` is the first to fail, it is the last one sent and the side's first failure |
| NewDebate.FirstFailure | frontend/app/new/page.tsx:182-207 | yields the lowest failing request number in the range, or none exactly when every request in it succeeds |
| NewDebate.FailsAmongPro | frontend/app/new/page.tsx:182-193 | a failure among the pro requests is the first failure of the commit and no con request is sent |
| NewDebate.FailsAmongCon | frontend/app/new/page.tsx:196-207 | when every pro request succeeds, the commit's first failure is the first failing con request and all pro requests were sent before it |
| NewDebate.CommitAfterTopic | frontend/app/new/page.tsx:179-226 | once the topic exists the commit completes when no argument request fails, and otherwise ends at the first failing one with its message |
| NewDebate.NothingSendable | frontend/app/new/page.tsx:183 | drafts none of which has both a title and content produce no request |
| NewDebate.NoArgumentsSendsNothing | frontend/app/new/page.tsx:168-171 | a form rejected by the "at least one argument" guard would plan no argument request |
| NewDebate.TitleOnlyDraftIsDropped | frontend/app/new/page.tsx:168-193 | a draft with a title but no content passes the guard (which needs title or content) yet is never sent, so the topic is created without arguments |
| NewDebate.CommitSends | frontend/app/new/page.tsx:162-233 | a commit sends nothing exactly when the guard rejects the form; otherwise the topic request first, then a prefix of the pro-then-con argument requests; it completes if and only if the topic and every planned argument request succeed |
| NewDebate.AbortsAtFirstFailure | frontend/app/new/page.tsx:182-229 | when an argument request fails, every earlier one succeeded, it is the last request sent and its message becomes the error |
| NewDebate.ProBeforeCon | frontend/app/new/page.tsx:182-207 | all pro requests precede all con requests, each names the new topic and carries its side |
| NewDebate.SendArguments | frontend/app/new/page.tsx:182-193 | the loop over one side's drafts sends the side's planned requests up to and including its first failure, and reports that failure |
| NewDebate.SendPlanned | frontend/app/new/page.tsx:182-207 | both loops send the planned requests (pro, then con) up to and including the first failing one, and report it |
| NewDebate.NewDebatePage.constructor | frontend/app/new/page.tsx:44-67 | the page starts with an empty title, author "user", one empty draft per side, no validation result, attempt count 0, nothing confirmed and no error, and satisfies the page invariant |
| NewDebate.NewDebatePage.EditTitle | frontend/app/new/page.tsx:323 | typing replaces only the title and keeps the invariant |
| NewDebate.NewDebatePage.EditValidationInput | frontend/app/new/page.tsx:579 | typing in the try-again box sets the try-again input and keeps the invariant |
| NewDebate.NewDebatePage.EditProArg | frontend/app/new/page.tsx:377-401 | editing a pro draft replaces that draft only and keeps the invariant |
| NewDebate.NewDebatePage.EditConArg | frontend/app/new/page.tsx:448-472 | editing a con draft replaces that draft only and keeps the invariant |
| NewDebate.NewDebatePage.AddProArg | frontend/app/new/page.tsx:75-80 | appends one empty pro draft and keeps the invariant |
| NewDebate.NewDebatePage.AddConArg | frontend/app/new/page.tsx:89-94 | appends one empty con draft and keeps the invariant |
| NewDebate.NewDebatePage.RemoveProArg | frontend/app/new/page.tsx:82-87 | removes the pro draft at the index; keeps the invariant when the side had more than one draft (the only case the button is shown) |
| NewDebate.NewDebatePage.RemoveConArg | frontend/app/new/page.tsx:96-101 | removes the con draft at the index; keeps the invariant when the side had more than one draft |
| NewDebate.NewDebatePage.ValidateProposition | frontend/app/new/page.tsx:103-126 | a blank proposition is refused with its message and no request; otherwise one validation request is made, and success stores the result, counts one more attempt and opens the suggestions, while failure keeps the count and shows the error |
| NewDebate.NewDebatePage.TryAgain | frontend/app/new/page.tsx:134-140 | from five counted attempts on, the retry is refused with its message and no request; below five it validates the new input; the attempt count never exceeds five |
| NewDebate.NewDebatePage.SelectSuggestion | frontend/app/new/page.tsx:128-132 | confirms the suggestion's proposition and closes the suggestions panel |
| NewDebate.NewDebatePage.ContinueWithOriginal | frontend/app/new/page.tsx:142-148 | without a validation result nothing changes; with one, the original input is confirmed whether or not it was judged valid, and the panel closes |
| NewDebate.NewDebatePage.CancelValidation | frontend/app/new/page.tsx:150-160 | resets the validation state, the confirmed proposition, the try-again input and the error, leaving the drafts as they are |
| NewDebate.NewDebatePage.CommitArguments | frontend/app/new/page.tsx:179-232 | after the topic is created, the state is the commit's outcome: reset and navigation to `/topic/<id>` when all argument requests succeed, else the first failure's message with the form kept |
| NewDebate.NewDebatePage.CommitTopic | frontend/app/new/page.tsx:173-232 | a failed topic request records that one request and shows its message; otherwise the argument phase follows |
| NewDebate.NewDebatePage.CreateTopicWithProposition | frontend/app/new/page.tsx:162-233 | the page ends in the state `Commit` describes (requests sent, reset and navigation or error, loading cleared) and keeps the invariant |
| NewDebate.NewDebatePage.SubmitDebate | frontend/app/new/page.tsx:235-251 | a confirmed proposition is committed; otherwise a blank title is refused with no request and any other title is validated |

## Left out

- Database connections, SQL execution, table creation and migrations
  (`init_db`, the `migrate_*` functions, `ensure_argument_matches_table`,
  `get_db_connection`). Tables are values and each statement is an update of
  them. Foreign-key constraints are not modelled.
- Timestamps are abstract integers supplied by the caller, and their ISO
  formatting (`_format_datetime_to_iso`) is left out. `uuid4()` and the clock
  are parameters.
- Floating point. The validity averages and their rounding in
  `get_all_topics`, and the star counts of the browse page, are left out.
  The controversy thresholds are stated in the equivalent integer form.
- `Database.Store.GetAllTopics` takes the listed topics, in the order of
  `ORDER BY created_at DESC`, as a parameter, because that order depends on
  timestamps. It does not prove the ordering.
- `Database.Store.GetArgumentsSortedByValidity` with a side filter states
  only that the result is sorted. It does not state that the result is
  exactly that side's arguments. Without a filter the permutation is stated.
- `get_argument_counts`, `create_comment`, `get_comments`,
  `delete_user_profile` and `verify_config_integrity` are not part of this
  model. Neither are the configuration properties other than the database
  defaults and the call limit.
- The language model, the fact checker and the summariser: their results
  are parameters. JSON decoding and encoding are functions passed in. UUID
  parsing is a parameter (the parsed id, or none).
- JSON numbers are integers and user metadata values are strings.
- User metadata is a map or absent. backend/middleware/auth.py:65 replaces
  a null `user_metadata` with `{}`, so a null value is not modelled. The
  e-mail entry may be absent, None (auth.py:64) or an address.
- Reading a text topic key as a `uuid` is the database's own cast, and its
  outcome is a parameter (`key`). `Database.KeyCast` refuses every text
  without exactly 32 hex digits once hyphens and braces are removed, and
  fixes the key of every hyphenated spelling, in either case. Which other
  texts with 32 hex digits PostgreSQL accepts (braces, no hyphens, hyphens
  after other groups of four) is not enumerated.
- The order of `get_argument_matches` is not fixed by its statement (no
  `ORDER BY`). The model returns the matches in the order they were
  inserted; only membership is promised.
- Whitespace and case mapping are ASCII only. Python's `strip`/`upper` and
  JavaScript's `trim`/`toUpperCase` also handle Unicode whitespace and
  letters, which the model does not.
- The clock never runs backwards: `Database.Store.CreateArgument` and
  `RoutesArguments.CreateArgument` require the clock reading to be no
  earlier than every stored creation time. Under that assumption the table
  order is a creation order. Rows created at the same instant may come back
  in another order from the database.
- Database.Store.CreateArgument: an insert refused by the side constraint
  leaves the key counter unchanged, whereas a PostgreSQL SERIAL sequence
  consumes a value even for a failed insert. Later database keys may
  therefore skip numbers the model would use; keys stay unique and
  increasing either way. The route checks the side first, so it never
  reaches this case.
- The construction of the pydantic response models is left out. A route
  returns a status code and a detail value, or its result.
- The 500 "Failed to create topic" in `create_topic` cannot be reached,
  because the store always returns the new row. The model has no such
  branch.
- `ValidateProposition.Checked` reports a non-object reply as one error kind.
  It does not distinguish the different texts Python's `in` produces on a
  list or a string.
- The fetch wrappers of frontend/src/api.ts (every endpoint function after
  `handleResponse`) send requests over the network. Only `getAuthHeaders` and
  `handleResponse` are modelled.
- frontend/app/new/page.tsx at 184 and 198 passes one object to
  `createArgument`, while frontend/src/api.ts:221 expects a topic id and the
  data. The model sends the intended request (topic, side, draft and author).
- The new-debate page's handlers run one at a time, to completion. React's
  batching of state updates and interleaved async handlers are not modelled.
  The random placeholder example is left out.
- The page's drafts are edited in place in the source (`newProArgs[index].title
  = …`). The model replaces the whole draft value, so aliasing between the
  old and the new list is not modelled.
- A failed call's message is the text the page shows. The model does not
  distinguish an `Error` from another thrown value; the source falls back to
  a fixed text for the latter.
- `NewDebate.NewDebatePage.SelectSuggestion` keeps the page invariant only
  for a non-empty suggestion. An empty proposition is falsy, so after it the
  page has neither the suggestions panel open nor a confirmed proposition.
- `NewDebate.NewDebatePage.ContinueWithOriginal` keeps the page invariant
  only when the original input is non-empty, for the same reason.
- `NewDebate.NewDebatePage.RemoveProArg` and `RemoveConArg` keep the
  invariant only when the side had more than one draft. The remove button is
  shown only then (page.tsx:363 and 434).
- `NewDebate.NewDebatePage.ValidateProposition` keeps the attempt bound only
  below five attempts. The handler itself has no bound, so the bound is the
  caller's: `TryAgain` enforces it, and `SubmitDebate` keeps it while the
  suggestions panel is closed.
- The `get_topics` route is `Database.Store.GetAllTopics` and has no row of
  its own.
- Supabase authentication, token checks, the presentational components and
  the backend start-up are not part of this model.

## Findings

| source | as written | input that shows it | evidently intended | confidence | as-written member | corrected member |
|---|---|---|---|---|---|---|
| backend/routes/topics.py:48 | the path parameter of `get_topic` is declared `topic_id: int`, so FastAPI rejects every UUID topic key with 422 before the handler runs | GET /api/topics/3f2a6c1e-9b7d-4c2a-8e5f-0a1b2c3d4e5f for a stored topic | the parameter is the topic's string key, as in the argument routes under /api/topics/{topic_id}/arguments and in the database layer | not executed | `RoutesTopics.GetTopicAsWritten`, `RoutesTopics.StoredTopicUnreachable` | `RoutesTopics.GetTopic` |
