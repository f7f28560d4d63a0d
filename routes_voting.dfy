/** The voting endpoints (backend/routes/voting.py): an argument's vote
    count goes up or down by one. */
module RoutesVoting {
  import opened Common
  import opened Database

  /** The response body `{"argument_id": ..., "votes": ...}`. */
  datatype VoteBody = VoteBody(argumentId: int, votes: int)

  datatype VoteReply = Voted(body: VoteBody) | VoteError(status: int, detail: string)

  /** The shared body of both endpoints: 404 for an unknown argument;
      otherwise the store adds `delta`, and an exception it raises (its
      text in `failure`; the transaction is not committed) becomes a 500. */
  method Vote(store: Store, argumentId: int, delta: int, verb: string, failure: Option<string>)
    returns (r: VoteReply)
    requires store.Valid()
    modifies store
    ensures store.Valid()
    ensures FindArgument(old(store.arguments), argumentId).None? ==>
              r == VoteError(404, "Argument with id " + IntToString(argumentId) + " not found") &&
              store.arguments == old(store.arguments)
    ensures FindArgument(old(store.arguments), argumentId).Some? && failure.Some? ==>
              r == VoteError(500, "Failed to " + verb + " argument: " + failure.value) &&
              store.arguments == old(store.arguments)
    ensures FindArgument(old(store.arguments), argumentId).Some? && failure.None? ==>
              r == Voted(VoteBody(argumentId, FindArgument(old(store.arguments), argumentId).value.votes + delta)) &&
              store.arguments == Updated(old(store.arguments), argumentId, Edit.Vote(delta))
    ensures store.topics == old(store.topics) && store.matches == old(store.matches)
    ensures store.profiles == old(store.profiles) && store.apiUsage == old(store.apiUsage)
  {
    var argument := store.GetArgument(argumentId);
    if argument.None? {
      return VoteError(404, "Argument with id " + IntToString(argumentId) + " not found");
    }
    if failure.Some? {
      return VoteError(500, "Failed to " + verb + " argument: " + failure.value);
    }
    var votes := store.AddVote(argumentId, delta);
    r := Voted(VoteBody(argumentId, votes));
  }

  /** `upvote_argument`. */
  method UpvoteArgument(store: Store, argumentId: int, failure: Option<string>) returns (r: VoteReply)
    requires store.Valid()
    modifies store
    ensures store.Valid()
    ensures FindArgument(old(store.arguments), argumentId).None? ==>
              r == VoteError(404, "Argument with id " + IntToString(argumentId) + " not found") &&
              store.arguments == old(store.arguments)
    ensures FindArgument(old(store.arguments), argumentId).Some? && failure.Some? ==>
              r == VoteError(500, "Failed to upvote argument: " + failure.value) &&
              store.arguments == old(store.arguments)
    ensures FindArgument(old(store.arguments), argumentId).Some? && failure.None? ==>
              r == Voted(VoteBody(argumentId, FindArgument(old(store.arguments), argumentId).value.votes + 1)) &&
              store.arguments == Updated(old(store.arguments), argumentId, Edit.Vote(1))
    ensures store.topics == old(store.topics) && store.matches == old(store.matches)
    ensures store.profiles == old(store.profiles) && store.apiUsage == old(store.apiUsage)
  {
    r := Vote(store, argumentId, 1, "upvote", failure);
  }

  /** `downvote_argument`: there is no lower bound, so counts can go negative. */
  method DownvoteArgument(store: Store, argumentId: int, failure: Option<string>) returns (r: VoteReply)
    requires store.Valid()
    modifies store
    ensures store.Valid()
    ensures FindArgument(old(store.arguments), argumentId).None? ==>
              r == VoteError(404, "Argument with id " + IntToString(argumentId) + " not found") &&
              store.arguments == old(store.arguments)
    ensures FindArgument(old(store.arguments), argumentId).Some? && failure.Some? ==>
              r == VoteError(500, "Failed to downvote argument: " + failure.value) &&
              store.arguments == old(store.arguments)
    ensures FindArgument(old(store.arguments), argumentId).Some? && failure.None? ==>
              r == Voted(VoteBody(argumentId, FindArgument(old(store.arguments), argumentId).value.votes - 1)) &&
              store.arguments == Updated(old(store.arguments), argumentId, Edit.Vote(-1))
    ensures store.topics == old(store.topics) && store.matches == old(store.matches)
    ensures store.profiles == old(store.profiles) && store.apiUsage == old(store.apiUsage)
  {
    r := Vote(store, argumentId, -1, "downvote", failure);
  }

  /** After a vote the stored count is the one the endpoint answered with,
      and every other argument keeps its row. */
  lemma StoredVotesMatchReply(rows: seq<ArgumentRow>, argumentId: int, delta: int, other: int)
    requires FindArgument(rows, argumentId).Some?
    ensures FindArgument(Updated(rows, argumentId, Edit.Vote(delta)), argumentId).Some?
    ensures FindArgument(Updated(rows, argumentId, Edit.Vote(delta)), argumentId).value.votes ==
            FindArgument(rows, argumentId).value.votes + delta
    ensures other != argumentId ==>
              FindArgument(Updated(rows, argumentId, Edit.Vote(delta)), other) == FindArgument(rows, other)
  {
    UpdatedRows(rows, argumentId, Edit.Vote(delta), argumentId);
    UpdatedRows(rows, argumentId, Edit.Vote(delta), other);
  }

  /** An upvote followed by a downvote leaves the table as it was. */
  lemma DownvoteUndoesUpvote(rows: seq<ArgumentRow>, argumentId: int)
    ensures Updated(Updated(rows, argumentId, Edit.Vote(1)), argumentId, Edit.Vote(-1)) == rows
  {
    var once := Updated(rows, argumentId, Edit.Vote(1));
    var twice := Updated(once, argumentId, Edit.Vote(-1));
    forall k | 0 <= k < |rows| ensures twice[k] == rows[k] {
      if rows[k].id == argumentId {
        assert once[k] == rows[k].(votes := rows[k].votes + 1);
      }
    }
  }
}
