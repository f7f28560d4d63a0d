/** The create-debate page (frontend/app/new/page.tsx): the proposition is
    validated (at most five attempts), a suggestion or the original is
    confirmed, and the commit creates the topic and then each filled-in
    draft argument in turn, stopping at the first failure.

    Each handler runs to completion before the next one starts. The
    results of the three backend calls are parameters, and the calls the
    page makes are recorded, in order, in `log`. */
module NewDebate {
  import opened Common

  /** One draft argument of the form. */
  datatype Draft = Draft(title: string, content: string, sources: string)

  const EmptyDraft := Draft("", "", "")

  /** `newDebateForm`. */
  datatype DebateForm = DebateForm(title: string, createdBy: string, proArgs: seq<Draft>, conArgs: seq<Draft>)

  const InitialForm := DebateForm("", "user", [EmptyDraft], [EmptyDraft])

  /** `PropositionSuggestion`; `kind` is the "policy" / "value" / "fact" tag. */
  datatype Suggestion = Suggestion(proposition: string, kind: string)

  /** `PropositionValidationResponse`. */
  datatype ValidationResponse = ValidationResponse(
    originalInput: string,
    isValid: bool,
    rejectionReason: Option<string>,
    interpretation: Option<string>,
    suggestions: seq<Suggestion>)

  /** `validationState`. */
  datatype ValidationState = ValidationState(
    result: Option<ValidationResponse>,
    iterationCount: int,
    showSuggestions: bool,
    isValidating: bool)

  const InitialValidation := ValidationState(None, 0, false, false)

  /** The body of an argument-creation request; an empty `sources` is sent
      as absent (`arg.sources || undefined`). */
  datatype ArgumentCreate = ArgumentCreate(side: string, title: string, content: string, sources: Option<string>, author: string)

  /** A call to the backend. */
  datatype Call =
    | ValidateCall(proposition: string)
    | CreateTopicCall(proposition: string, createdBy: string)
    | CreateArgumentCall(topicId: string, data: ArgumentCreate)

  /** How an awaited call ends: its value, or the message of the Error it threw. */
  datatype CallResult<T> = Succeeded(value: T) | Failed(message: string)

  const MaxAttempts := 5
  const EmptyPropositionError := "Please enter a proposition to validate"
  const MaxAttemptsError := "Maximum validation attempts reached. Please select a suggestion."
  const NoArgumentsError := "Please provide at least one pro or con argument"
  const EmptyTopicError := "Please enter a debate topic"

  /** JavaScript truthiness of a `string | null`. */
  predicate Truthy(o: Option<string>) {
    o.Some? && o.value != ""
  }

  /** A draft that is sent: title and content both non-blank. */
  predicate Sendable(d: Draft) {
    !IsBlank(d.title) && !IsBlank(d.content)
  }

  /** A draft that counts as not filled in: title and content both blank. */
  predicate Unfilled(d: Draft) {
    IsBlank(d.title) && IsBlank(d.content)
  }

  /** The commit's guard: each side is empty or has only unfilled drafts. */
  predicate NoArguments(form: DebateForm) {
    (|form.proArgs| == 0 || forall i :: 0 <= i < |form.proArgs| ==> Unfilled(form.proArgs[i])) &&
    (|form.conArgs| == 0 || forall i :: 0 <= i < |form.conArgs| ==> Unfilled(form.conArgs[i]))
  }

  /** `list.filter((_, i) => i !== index)`. */
  function RemovedAt<T>(s: seq<T>, index: int): (r: seq<T>)
    ensures |r| == if 0 <= index < |s| then |s| - 1 else |s|
  {
    if |s| == 0 then []
    else (if index == 0 then [] else [s[0]]) + RemovedAt(s[1..], index - 1)
  }

  /** Removing index i deletes exactly that entry and keeps the others in
      order. */
  lemma {:induction false} RemovedAtSlice<T>(s: seq<T>, index: int)
    requires 0 <= index < |s|
    ensures RemovedAt(s, index) == s[..index] + s[index + 1..]
  {
    var t := s[1..];
    if index == 0 {
      RemovedAtOutside(t, -1);
      assert RemovedAt(s, 0) == RemovedAt(t, -1);
    } else {
      RemovedAtSlice(t, index - 1);
      assert RemovedAt(s, index) == [s[0]] + RemovedAt(t, index - 1);
      assert s[..index] + s[index + 1..] == [s[0]] + (t[..index - 1] + t[index..]);
    }
  }

  /** An index outside the list removes nothing. */
  lemma {:induction false} RemovedAtOutside<T>(s: seq<T>, index: int)
    requires !(0 <= index < |s|)
    ensures RemovedAt(s, index) == s
  {
    if |s| > 0 {
      RemovedAtOutside(s[1..], index - 1);
      assert s == [s[0]] + s[1..];
    }
  }

  /** The request for one draft. */
  function ArgumentCall(topicId: string, side: string, d: Draft, author: string): Call {
    CreateArgumentCall(topicId, ArgumentCreate(side, d.title, d.content, if d.sources == "" then None else Some(d.sources), author))
  }

  /** The requests one side's loop sends: one per sendable draft, in list order. */
  function ArgumentCalls(topicId: string, side: string, drafts: seq<Draft>, author: string): (r: seq<Call>)
    ensures |r| <= |drafts|
  {
    if |drafts| == 0 then []
    else
      var last := drafts[|drafts| - 1];
      ArgumentCalls(topicId, side, drafts[..|drafts| - 1], author) +
      (if Sendable(last) then [ArgumentCall(topicId, side, last, author)] else [])
  }

  /** Every request in `calls` is an argument request for `topicId`, on
      `side`, by `author`. */
  predicate AllFor(calls: seq<Call>, topicId: string, side: string, author: string) {
    forall k :: 0 <= k < |calls| ==>
      calls[k].CreateArgumentCall? && calls[k].topicId == topicId &&
      calls[k].data.side == side && calls[k].data.author == author
  }

  /** Every request of one side's loop is an argument request for the new
      topic, on that side, by the form's author. */
  lemma {:induction false} ArgumentCallsFields(topicId: string, side: string, drafts: seq<Draft>, author: string)
    ensures AllFor(ArgumentCalls(topicId, side, drafts, author), topicId, side, author)
  {
    if |drafts| > 0 {
      var init := drafts[..|drafts| - 1];
      ArgumentCallsFields(topicId, side, init, author);
      var r := ArgumentCalls(topicId, side, drafts, author);
      var a := ArgumentCalls(topicId, side, init, author);
      forall k | 0 <= k < |r|
        ensures r[k].CreateArgumentCall? && r[k].topicId == topicId && r[k].data.side == side && r[k].data.author == author
      {
        if k < |a| {
          assert r[k] == a[k];
          assert a[k].CreateArgumentCall?;
        } else {
          var last := drafts[|drafts| - 1];
          assert r == a + (if Sendable(last) then [ArgumentCall(topicId, side, last, author)] else []);
          assert r[k] == ArgumentCall(topicId, side, last, author);
        }
      }
    }
  }

  /** A request is sent exactly when it is the request of a sendable draft. */
  lemma {:induction false} SentExactly(topicId: string, side: string, drafts: seq<Draft>, author: string, c: Call)
    ensures c in ArgumentCalls(topicId, side, drafts, author) <==>
              exists i :: 0 <= i < |drafts| && Sendable(drafts[i]) && c == ArgumentCall(topicId, side, drafts[i], author)
  {
    if |drafts| > 0 {
      var init := drafts[..|drafts| - 1];
      SentExactly(topicId, side, init, author, c);
      if exists i :: 0 <= i < |drafts| && Sendable(drafts[i]) && c == ArgumentCall(topicId, side, drafts[i], author) {
        var i :| 0 <= i < |drafts| && Sendable(drafts[i]) && c == ArgumentCall(topicId, side, drafts[i], author);
        if i < |drafts| - 1 {
          assert init[i] == drafts[i];
        }
      }
      if c in ArgumentCalls(topicId, side, init, author) {
        var i :| 0 <= i < |init| && Sendable(init[i]) && c == ArgumentCall(topicId, side, init[i], author);
        assert drafts[i] == init[i];
      }
    }
  }

  /** The requests for the first i drafts are the first requests for the
      whole list. */
  lemma {:induction false} ArgumentCallsPrefix(topicId: string, side: string, drafts: seq<Draft>, author: string, i: nat)
    requires i <= |drafts|
    ensures ArgumentCalls(topicId, side, drafts[..i], author) <= ArgumentCalls(topicId, side, drafts, author)
  {
    if i < |drafts| {
      var init := drafts[..|drafts| - 1];
      ArgumentCallsPrefix(topicId, side, init, author, i);
      assert init[..i] == drafts[..i];
    } else {
      assert drafts[..i] == drafts;
    }
  }

  /** One more draft adds its request when it is sendable. */
  lemma ArgumentCallsStep(topicId: string, side: string, drafts: seq<Draft>, author: string, i: nat)
    requires i < |drafts|
    ensures ArgumentCalls(topicId, side, drafts[..i + 1], author) ==
            ArgumentCalls(topicId, side, drafts[..i], author) +
            (if Sendable(drafts[i]) then [ArgumentCall(topicId, side, drafts[i], author)] else [])
  {
    assert drafts[..i + 1][..i] == drafts[..i];
  }

  /** A loop that has sent `sent` requests for the first i drafts without a
      failure and then sees request number `offset + sent` fail has met the
      first failure of the whole side. */
  lemma StopsAt(topicId: string, side: string, drafts: seq<Draft>, author: string,
                fails: nat -> Option<string>, offset: nat, i: nat, sent: nat)
    requires i < |drafts| && Sendable(drafts[i])
    requires sent == |ArgumentCalls(topicId, side, drafts[..i], author)|
    requires FirstFailure(fails, offset, offset + sent).None? && fails(offset + sent).Some?
    ensures var calls := ArgumentCalls(topicId, side, drafts, author);
            sent + 1 <= |calls| &&
            calls[..sent + 1] == ArgumentCalls(topicId, side, drafts[..i], author) + [ArgumentCall(topicId, side, drafts[i], author)] &&
            FirstFailure(fails, offset, offset + |calls|) == Some(offset + sent)
  {
    ArgumentCallsStep(topicId, side, drafts, author, i);
    ArgumentCallsPrefix(topicId, side, drafts, author, i + 1);
    FirstFailureAt(fails, offset, offset + sent, offset + |ArgumentCalls(topicId, side, drafts, author)|);
  }

  /** The argument requests of a commit: the pro drafts, then the con drafts. */
  function Planned(topicId: string, form: DebateForm): seq<Call> {
    ArgumentCalls(topicId, "pro", form.proArgs, form.createdBy) +
    ArgumentCalls(topicId, "con", form.conArgs, form.createdBy)
  }

  /** The first k + 1 requests of the two loops together. */
  lemma PrefixOfBoth(pro: seq<Call>, con: seq<Call>, k: nat)
    requires k < |pro| + |con|
    ensures k < |pro| ==> (pro + con)[..k + 1] == pro[..k + 1]
    ensures |pro| <= k ==> (pro + con)[..k + 1] == pro + con[..k - |pro| + 1]
  {
    if k < |pro| {
      assert (pro + con)[..k + 1] == pro[..k + 1];
    } else {
      assert (pro + con)[..k + 1] == pro + con[..k - |pro| + 1];
    }
  }

  /** The index of the first failing argument request among lo .. hi - 1. */
  function FirstFailure(fails: nat -> Option<string>, lo: nat, hi: nat): (r: Option<nat>)
    decreases hi
    ensures r.None? ==> forall k :: lo <= k < hi ==> fails(k).None?
    ensures r.Some? ==> lo <= r.value < hi && fails(r.value).Some? &&
                        forall k :: lo <= k < r.value ==> fails(k).None?
  {
    if hi <= lo then None
    else
      var earlier := FirstFailure(fails, lo, hi - 1);
      if earlier.Some? then earlier
      else if fails(hi - 1).Some? then Some(hi - 1)
      else None
  }

  /** With no failure before m, a failure at m is the first one. */
  lemma FirstFailureAt(fails: nat -> Option<string>, lo: nat, m: nat, hi: nat)
    requires lo <= m < hi && FirstFailure(fails, lo, m).None? && fails(m).Some?
    ensures FirstFailure(fails, lo, hi) == Some(m)
  {
  }

  /** A range without failures can be skipped. */
  lemma FirstFailureSkip(fails: nat -> Option<string>, lo: nat, mid: nat, hi: nat)
    requires lo <= mid <= hi && FirstFailure(fails, lo, mid).None?
    ensures FirstFailure(fails, lo, hi) == FirstFailure(fails, mid, hi)
  {
    var r := FirstFailure(fails, mid, hi);
    if r.Some? {
      FirstFailureAt(fails, lo, r.value, hi);
    }
  }

  /** A failure among the pro requests is the commit's first failure. */
  lemma FailsAmongPro(fails: nat -> Option<string>, pro: seq<Call>, con: seq<Call>, k: nat)
    requires FirstFailure(fails, 0, |pro|) == Some(k)
    ensures FirstFailure(fails, 0, |pro + con|) == Some(k)
    ensures (pro + con)[..k + 1] == pro[..k + 1]
  {
    FirstFailureAt(fails, 0, k, |pro + con|);
    PrefixOfBoth(pro, con, k);
  }

  /** Without a failure among the pro requests, the commit's first failure
      is the first among the con requests. */
  lemma FailsAmongCon(fails: nat -> Option<string>, pro: seq<Call>, con: seq<Call>)
    requires FirstFailure(fails, 0, |pro|).None?
    ensures FirstFailure(fails, 0, |pro + con|) == FirstFailure(fails, |pro|, |pro| + |con|)
    ensures var f := FirstFailure(fails, |pro|, |pro| + |con|);
            f.Some? ==> (pro + con)[..f.value + 1] == pro + con[..f.value - |pro| + 1]
  {
    FirstFailureSkip(fails, 0, |pro|, |pro + con|);
    var f := FirstFailure(fails, |pro|, |pro| + |con|);
    if f.Some? {
      PrefixOfBoth(pro, con, f.value);
    }
  }

  /** How a commit ends. */
  datatype CommitOutcome =
    | NoArgumentsGiven
    | TopicFailed(message: string)
    | ArgumentFailed(index: nat, message: string)
    | Committed(topicId: string)

  /** The outcome of committing `form` under `proposition`, given the topic
      request's result and which argument requests (numbered in sending
      order) fail. */
  function Commit(form: DebateForm, proposition: string, topic: CallResult<string>, fails: nat -> Option<string>): CommitOutcome {
    if NoArguments(form) then NoArgumentsGiven
    else match topic
      case Failed(m) => TopicFailed(m)
      case Succeeded(id) =>
        match FirstFailure(fails, 0, |Planned(id, form)|)
        case Some(k) => ArgumentFailed(k, fails(k).value)
        case None => Committed(id)
  }

  /** The requests that commit sends. */
  function CommitCalls(form: DebateForm, proposition: string, topic: CallResult<string>, fails: nat -> Option<string>): seq<Call> {
    if NoArguments(form) then []
    else
      var t := CreateTopicCall(proposition, form.createdBy);
      match topic
      case Failed(_) => [t]
      case Succeeded(id) =>
        var p := Planned(id, form);
        match FirstFailure(fails, 0, |p|)
        case Some(k) => [t] + p[..k + 1]
        case None => [t] + p
  }

  /** A commit whose topic request succeeded ends as its argument requests
      decide. */
  lemma CommitAfterTopic(form: DebateForm, proposition: string, topicId: string, fails: nat -> Option<string>)
    requires !NoArguments(form)
    ensures var p := Planned(topicId, form);
            var f := FirstFailure(fails, 0, |p|);
            var t := CreateTopicCall(proposition, form.createdBy);
            (f.None? ==> Commit(form, proposition, Succeeded(topicId), fails) == Committed(topicId) &&
                         CommitCalls(form, proposition, Succeeded(topicId), fails) == [t] + p) &&
            (f.Some? ==> Commit(form, proposition, Succeeded(topicId), fails) == ArgumentFailed(f.value, fails(f.value).value) &&
                         CommitCalls(form, proposition, Succeeded(topicId), fails) == [t] + p[..f.value + 1])
  {
  }

  /** The error text a commit that did not complete leaves on the page. */
  function CommitError(c: CommitOutcome): string
    requires !c.Committed?
  {
    match c
    case NoArgumentsGiven => NoArgumentsError
    case TopicFailed(m) => m
    case ArgumentFailed(_, m) => m
  }

  /** Drafts none of which is sendable produce no request. */
  lemma {:induction false} NothingSendable(topicId: string, side: string, drafts: seq<Draft>, author: string)
    requires forall i :: 0 <= i < |drafts| ==> !Sendable(drafts[i])
    ensures ArgumentCalls(topicId, side, drafts, author) == []
  {
    if |drafts| > 0 {
      NothingSendable(topicId, side, drafts[..|drafts| - 1], author);
    }
  }

  /** A form without a filled-in draft sends no argument request. */
  lemma NoArgumentsSendsNothing(topicId: string, form: DebateForm)
    requires NoArguments(form)
    ensures Planned(topicId, form) == []
  {
    NothingSendable(topicId, "pro", form.proArgs, form.createdBy);
    NothingSendable(topicId, "con", form.conArgs, form.createdBy);
  }

  /** A draft with a title but no content passes the guard, yet is never
      sent: the commit then creates a topic without arguments. */
  lemma TitleOnlyDraftIsDropped(topicId: string)
    ensures var form := DebateForm("Cities should ban cars", "user", [Draft("Cleaner air", "", "")], [EmptyDraft]);
            !NoArguments(form) && Planned(topicId, form) == []
    ensures var form := DebateForm("Cities should ban cars", "user", [Draft("Cleaner air", "", "")], [EmptyDraft]);
            Commit(form, "Cities should ban cars", Succeeded(topicId), _ => None) == Committed(topicId) &&
            CommitCalls(form, "Cities should ban cars", Succeeded(topicId), _ => None) ==
              [CreateTopicCall("Cities should ban cars", "user")]
  {
    var d := Draft("Cleaner air", "", "");
    var form := DebateForm("Cities should ban cars", "user", [d], [EmptyDraft]);
    assert !IsSpace(d.title[0]);
    assert !Unfilled(form.proArgs[0]);
    assert !Sendable(d) && !Sendable(EmptyDraft);
    NothingSendable(topicId, "pro", form.proArgs, "user");
    NothingSendable(topicId, "con", form.conArgs, "user");
  }

  /** What a commit sends: nothing when no draft is filled in; otherwise the
      topic request first, then a prefix of the planned argument requests
      (pro before con), all of them when it completes. It completes exactly
      when the topic request and every planned argument request succeed. */
  lemma CommitSends(form: DebateForm, proposition: string, topic: CallResult<string>, fails: nat -> Option<string>)
    ensures var calls := CommitCalls(form, proposition, topic, fails);
            (calls == [] <==> NoArguments(form)) &&
            (calls != [] ==> calls[0] == CreateTopicCall(proposition, form.createdBy)) &&
            (calls != [] && topic.Succeeded? ==> calls[1..] <= Planned(topic.value, form))
    ensures Commit(form, proposition, topic, fails).Committed? ==>
              topic.Succeeded? &&
              CommitCalls(form, proposition, topic, fails) == [CreateTopicCall(proposition, form.createdBy)] + Planned(topic.value, form)
    ensures Commit(form, proposition, topic, fails).Committed? <==>
              !NoArguments(form) && topic.Succeeded? &&
              forall k :: 0 <= k < |Planned(topic.value, form)| ==> fails(k).None?
  {
    var calls := CommitCalls(form, proposition, topic, fails);
    if !NoArguments(form) && topic.Succeeded? {
      var p := Planned(topic.value, form);
      assert calls[1..] == p || calls[1..] == p[..|calls| - 1];
    }
  }

  /** After the first failing argument request nothing more is sent: the
      requests before it all succeeded, and it is the last one sent. */
  lemma AbortsAtFirstFailure(form: DebateForm, proposition: string, topic: CallResult<string>, fails: nat -> Option<string>)
    requires Commit(form, proposition, topic, fails).ArgumentFailed?
    ensures var c := Commit(form, proposition, topic, fails);
            var calls := CommitCalls(form, proposition, topic, fails);
            topic.Succeeded? && |calls| == c.index + 2 &&
            calls[|calls| - 1] == Planned(topic.value, form)[c.index] &&
            fails(c.index) == Some(c.message) &&
            forall j :: 0 <= j < c.index ==> fails(j).None?
  {
  }

  /** Within a commit all pro requests precede all con requests, and every
      request names the new topic. */
  lemma ProBeforeCon(topicId: string, form: DebateForm)
    ensures var pro := ArgumentCalls(topicId, "pro", form.proArgs, form.createdBy);
            var p := Planned(topicId, form);
            forall k :: 0 <= k < |p| ==>
              p[k].CreateArgumentCall? && p[k].topicId == topicId &&
              p[k].data.side == (if k < |pro| then "pro" else "con")
  {
    var pro := ArgumentCalls(topicId, "pro", form.proArgs, form.createdBy);
    var con := ArgumentCalls(topicId, "con", form.conArgs, form.createdBy);
    var p := Planned(topicId, form);
    ArgumentCallsFields(topicId, "pro", form.proArgs, form.createdBy);
    ArgumentCallsFields(topicId, "con", form.conArgs, form.createdBy);
    forall k | 0 <= k < |p|
      ensures p[k].CreateArgumentCall? && p[k].topicId == topicId &&
              p[k].data.side == (if k < |pro| then "pro" else "con")
    {
      if k >= |pro| {
        assert p[k] == con[k - |pro|];
        assert con[k - |pro|].CreateArgumentCall? && con[k - |pro|].data.side == "con";
      } else {
        assert p[k] == pro[k];
        assert pro[k].CreateArgumentCall? && pro[k].data.side == "pro";
      }
    }
  }

  /** One side's loop of the commit: a request per sendable draft, where
      request number `offset + k` fails when `fails` says so; the loop
      stops at the first failure. `sent` is the requests made. */
  method SendArguments(topicId: string, side: string, drafts: seq<Draft>, author: string,
                       fails: nat -> Option<string>, offset: nat)
    returns (failure: Option<nat>, sent: seq<Call>)
    ensures failure == FirstFailure(fails, offset, offset + |ArgumentCalls(topicId, side, drafts, author)|)
    ensures failure.None? ==> sent == ArgumentCalls(topicId, side, drafts, author)
    ensures failure.Some? ==> failure.value - offset < |ArgumentCalls(topicId, side, drafts, author)| &&
                              sent == ArgumentCalls(topicId, side, drafts, author)[..failure.value - offset + 1]
  {
    failure := None;
    sent := [];
    for i := 0 to |drafts|
      invariant sent == ArgumentCalls(topicId, side, drafts[..i], author)
      invariant FirstFailure(fails, offset, offset + |sent|).None?
    {
      ArgumentCallsStep(topicId, side, drafts, author, i);
      if Sendable(drafts[i]) {
        if fails(offset + |sent|).Some? {
          StopsAt(topicId, side, drafts, author, fails, offset, i, |sent|);
          failure := Some(offset + |sent|);
          sent := sent + [ArgumentCall(topicId, side, drafts[i], author)];
          return;
        }
        sent := sent + [ArgumentCall(topicId, side, drafts[i], author)];
      }
    }
    assert drafts[..|drafts|] == drafts;
  }

  /** Both loops of the commit: the pro drafts' requests, then the con
      drafts', numbered in that order, up to and including the first
      failing one. */
  method SendPlanned(topicId: string, form: DebateForm, fails: nat -> Option<string>)
    returns (failure: Option<nat>, sent: seq<Call>)
    ensures failure == FirstFailure(fails, 0, |Planned(topicId, form)|)
    ensures failure.None? ==> sent == Planned(topicId, form)
    ensures failure.Some? ==> sent == Planned(topicId, form)[..failure.value + 1]
  {
    ghost var pro := ArgumentCalls(topicId, "pro", form.proArgs, form.createdBy);
    ghost var con := ArgumentCalls(topicId, "con", form.conArgs, form.createdBy);
    assert Planned(topicId, form) == pro + con;
    var proSent;
    failure, proSent := SendArguments(topicId, "pro", form.proArgs, form.createdBy, fails, 0);
    if failure.Some? {
      FailsAmongPro(fails, pro, con, failure.value);
      sent := proSent;
      return;
    }
    var conSent;
    failure, conSent := SendArguments(topicId, "con", form.conArgs, form.createdBy, fails, |proSent|);
    FailsAmongCon(fails, pro, con);
    sent := proSent + conSent;
  }

  /** The page's state. */
  class NewDebatePage {
    var form: DebateForm
    var validation: ValidationState
    var selectedProposition: Option<string>
    var validationInput: Option<string>
    var error: Option<string>
    var loading: bool
    /** The route `router.push` was last given. */
    var navigatedTo: Option<string>
    /** The backend requests made so far, in order. */
    var log: seq<Call>

    /** What holds between handlers when the view's gates are respected:
        the attempt counter stays within 0..5; once it is positive, the
        suggestions panel is open or a proposition is confirmed; no call is
        in flight; each side keeps at least one draft (the remove button is
        shown only while a side has more than one). */
    predicate Inv()
      reads this
    {
      0 <= validation.iterationCount <= MaxAttempts &&
      (validation.iterationCount > 0 && !validation.showSuggestions ==> Truthy(selectedProposition)) &&
      !validation.isValidating && !loading &&
      |form.proArgs| >= 1 && |form.conArgs| >= 1
    }

    /** The state after a validation request for `proposition`. */
    twostate predicate Validated(proposition: string, outcome: CallResult<ValidationResponse>)
      reads this
    {
      (IsBlank(proposition) ==>
         error == Some(EmptyPropositionError) && validation == old(validation) &&
         validationInput == old(validationInput) && log == old(log)) &&
      (!IsBlank(proposition) ==>
         log == old(log) + [ValidateCall(proposition)] && validationInput == Some(proposition) &&
         match outcome
         case Succeeded(r) =>
           validation == ValidationState(Some(r), old(validation).iterationCount + 1, true, false) && error == None
         case Failed(m) =>
           validation == old(validation).(isValidating := false) && error == Some(m))
    }

    /** The state after a commit of the current form under `proposition`. */
    twostate predicate Committing(proposition: string, topic: CallResult<string>, fails: nat -> Option<string>)
      reads this
    {
      var c := Commit(old(form), proposition, topic, fails);
      log == old(log) + CommitCalls(old(form), proposition, topic, fails) && !loading &&
      (c.Committed? ==>
         form == InitialForm && validation == InitialValidation && selectedProposition == None &&
         validationInput == None && error == None && navigatedTo == Some("/topic/" + c.topicId)) &&
      (!c.Committed? ==>
         form == old(form) && validation == old(validation) && selectedProposition == old(selectedProposition) &&
         validationInput == old(validationInput) && navigatedTo == old(navigatedTo) && error == Some(CommitError(c)))
    }

    /** The page as first rendered. */
    constructor ()
      ensures form == InitialForm && validation == InitialValidation
      ensures selectedProposition == None && validationInput == None && error == None
      ensures !loading && navigatedTo == None && log == []
      ensures Inv()
    {
      form := InitialForm;
      validation := InitialValidation;
      selectedProposition := None;
      validationInput := None;
      error := None;
      loading := false;
      navigatedTo := None;
      log := [];
    }

    /** Typing in the proposition input. */
    method EditTitle(title: string)
      modifies this`form
      ensures form == old(form).(title := title)
      ensures old(Inv()) ==> Inv()
    {
      form := form.(title := title);
    }

    /** Typing in the try-again input. */
    method EditValidationInput(input: string)
      modifies this`validationInput
      ensures validationInput == Some(input)
      ensures old(Inv()) ==> Inv()
    {
      validationInput := Some(input);
    }

    /** Typing in one of the pro drafts' fields. */
    method EditProArg(index: nat, d: Draft)
      requires index < |form.proArgs|
      modifies this`form
      ensures form == old(form).(proArgs := old(form).proArgs[index := d])
      ensures old(Inv()) ==> Inv()
    {
      form := form.(proArgs := form.proArgs[index := d]);
    }

    /** Typing in one of the con drafts' fields. */
    method EditConArg(index: nat, d: Draft)
      requires index < |form.conArgs|
      modifies this`form
      ensures form == old(form).(conArgs := old(form).conArgs[index := d])
      ensures old(Inv()) ==> Inv()
    {
      form := form.(conArgs := form.conArgs[index := d]);
    }

    /** `handleAddProArg`: one blank draft at the end. */
    method AddProArg()
      modifies this`form
      ensures form == old(form).(proArgs := old(form).proArgs + [EmptyDraft])
      ensures old(Inv()) ==> Inv()
    {
      form := form.(proArgs := form.proArgs + [EmptyDraft]);
    }

    /** `handleAddConArg`. */
    method AddConArg()
      modifies this`form
      ensures form == old(form).(conArgs := old(form).conArgs + [EmptyDraft])
      ensures old(Inv()) ==> Inv()
    {
      form := form.(conArgs := form.conArgs + [EmptyDraft]);
    }

    /** `handleRemoveProArg`. */
    method RemoveProArg(index: int)
      modifies this`form
      ensures form == old(form).(proArgs := RemovedAt(old(form).proArgs, index))
      ensures old(Inv()) && |old(form).proArgs| > 1 ==> Inv()
    {
      form := form.(proArgs := RemovedAt(form.proArgs, index));
    }

    /** `handleRemoveConArg`. */
    method RemoveConArg(index: int)
      modifies this`form
      ensures form == old(form).(conArgs := RemovedAt(old(form).conArgs, index))
      ensures old(Inv()) && |old(form).conArgs| > 1 ==> Inv()
    {
      form := form.(conArgs := RemovedAt(form.conArgs, index));
    }

    /** `handleValidateProposition`: a blank proposition only sets an error;
        otherwise one request is made, and its success stores the result,
        counts one attempt and opens the suggestions, while its failure
        keeps the result and the count and shows the message. */
    method ValidateProposition(proposition: string, outcome: CallResult<ValidationResponse>)
      modifies this`validation, this`error, this`validationInput, this`log
      ensures Validated(proposition, outcome)
      ensures old(Inv()) && (IsBlank(proposition) || old(validation).iterationCount < MaxAttempts) ==> Inv()
    {
      if IsBlank(proposition) {
        error := Some(EmptyPropositionError);
        return;
      }
      validation := validation.(isValidating := true);
      error := None;
      validationInput := Some(proposition);
      log := log + [ValidateCall(proposition)];
      match outcome
      case Succeeded(r) =>
        validation := ValidationState(Some(r), validation.iterationCount + 1, true, false);
      case Failed(m) =>
        error := Some(m);
        validation := validation.(isValidating := false);
    }

    /** `handleTryAgain`: refused without a request once five attempts
        have been counted. */
    method TryAgain(newInput: string, outcome: CallResult<ValidationResponse>)
      modifies this`validation, this`error, this`validationInput, this`log
      ensures old(validation).iterationCount >= MaxAttempts ==>
                error == Some(MaxAttemptsError) && validation == old(validation) &&
                validationInput == old(validationInput) && log == old(log)
      ensures old(validation).iterationCount < MaxAttempts ==> Validated(newInput, outcome)
      ensures old(Inv()) ==> Inv()
    {
      if validation.iterationCount >= MaxAttempts {
        error := Some(MaxAttemptsError);
        return;
      }
      ValidateProposition(newInput, outcome);
    }

    /** `handleSelectSuggestion`. */
    method SelectSuggestion(suggestion: Suggestion)
      modifies this`selectedProposition, this`validation
      ensures selectedProposition == Some(suggestion.proposition)
      ensures validation == old(validation).(showSuggestions := false)
      ensures old(Inv()) && suggestion.proposition != "" ==> Inv()
    {
      selectedProposition := Some(suggestion.proposition);
      validation := validation.(showSuggestions := false);
    }

    /** `handleContinueWithOriginal`: nothing without a result; otherwise
        the original input is confirmed, whether or not it was judged valid. */
    method ContinueWithOriginal()
      modifies this`selectedProposition, this`validation
      ensures old(validation).result.None? ==>
                selectedProposition == old(selectedProposition) && validation == old(validation)
      ensures old(validation).result.Some? ==>
                selectedProposition == Some(old(validation).result.value.originalInput) &&
                validation == old(validation).(showSuggestions := false)
      ensures old(Inv()) && (old(validation).result.None? || old(validation).result.value.originalInput != "") ==> Inv()
    {
      if validation.result.None? {
        return;
      }
      selectedProposition := Some(validation.result.value.originalInput);
      validation := validation.(showSuggestions := false);
    }

    /** `handleCancelValidation`: the validation state, the confirmed
        proposition, the try-again input and the error are reset; the form
        (title and drafts) is left as it is. */
    method CancelValidation()
      modifies this`validation, this`selectedProposition, this`validationInput, this`error
      ensures validation == InitialValidation
      ensures selectedProposition == None && validationInput == None && error == None
      ensures old(Inv()) ==> Inv()
    {
      validation := InitialValidation;
      selectedProposition := None;
      validationInput := None;
      error := None;
    }

    /** The commit once the topic request has succeeded: the argument
        requests, then either the reset and the navigation to the new topic,
        or the first failure's message with the form kept. */
    method CommitArguments(proposition: string, topicId: string, fails: nat -> Option<string>)
      requires !NoArguments(form) && error == None
      modifies this
      ensures Committing(proposition, Succeeded(topicId), fails)
    {
      ghost var p := Planned(topicId, form);
      ghost var f := FirstFailure(fails, 0, |p|);
      var t := CreateTopicCall(proposition, form.createdBy);
      CommitAfterTopic(form, proposition, topicId, fails);
      var failure, sent := SendPlanned(topicId, form, fails);
      log := log + [t] + sent;
      if failure.Some? {
        assert old(log) + [t] + sent == old(log) + ([t] + p[..f.value + 1]);
        error := fails(failure.value);
        loading := false;
        return;
      }
      assert old(log) + [t] + sent == old(log) + ([t] + p);
      form := InitialForm;
      validation := InitialValidation;
      selectedProposition := None;
      validationInput := None;
      navigatedTo := Some("/topic/" + topicId);
      loading := false;
    }

    /** The commit past its guard: the topic request, then the argument
        requests; `error` has just been cleared. */
    method CommitTopic(proposition: string, topic: CallResult<string>, fails: nat -> Option<string>)
      requires !NoArguments(form) && error == None
      modifies this
      ensures Committing(proposition, topic, fails)
    {
      if topic.Failed? {
        log := log + [CreateTopicCall(proposition, form.createdBy)];
        error := Some(topic.message);
        loading := false;
        return;
      }
      CommitArguments(proposition, topic.value, fails);
    }

    /** `handleCreateTopicWithProposition`. */
    method CreateTopicWithProposition(proposition: string, topic: CallResult<string>, fails: nat -> Option<string>)
      modifies this
      ensures Committing(proposition, topic, fails)
      ensures old(Inv()) ==> Inv()
    {
      loading := true;
      error := None;
      if NoArguments(form) {
        assert Commit(form, proposition, topic, fails) == NoArgumentsGiven;
        assert CommitCalls(form, proposition, topic, fails) == [];
        error := Some(NoArgumentsError);
        loading := false;
        return;
      }
      CommitTopic(proposition, topic, fails);
    }

    /** `handleSubmitDebate`: a confirmed proposition is committed; without
        one, a blank title is refused without a request and any other title
        is validated. */
    method SubmitDebate(outcome: CallResult<ValidationResponse>, topic: CallResult<string>, fails: nat -> Option<string>)
      modifies this
      ensures Truthy(old(selectedProposition)) ==> Committing(old(selectedProposition).value, topic, fails)
      ensures !Truthy(old(selectedProposition)) && IsBlank(old(form).title) ==>
                error == Some(EmptyTopicError) && log == old(log) && form == old(form) &&
                validation == old(validation) && selectedProposition == old(selectedProposition) &&
                validationInput == old(validationInput) && loading == old(loading) && navigatedTo == old(navigatedTo)
      ensures !Truthy(old(selectedProposition)) && !IsBlank(old(form).title) ==>
                Validated(old(form).title, outcome) && form == old(form) &&
                selectedProposition == old(selectedProposition) && loading == old(loading) &&
                navigatedTo == old(navigatedTo)
      ensures old(Inv()) && !old(validation).showSuggestions ==> Inv()
    {
      if Truthy(selectedProposition) {
        CreateTopicWithProposition(selectedProposition.value, topic, fails);
        return;
      }
      if IsBlank(form.title) {
        error := Some(EmptyTopicError);
        return;
      }
      ValidateProposition(form.title, outcome);
    }
  }
}
