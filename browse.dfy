/** The topic search of the browse page (frontend/app/browse/page.tsx). */
module Browse {
  import opened Common

  /** The fields of a listed topic that the search looks at. */
  datatype TopicItem = TopicItem(id: string, proposition: string)

  /** What the page shows once the topics are loaded. */
  datatype Listing =
    | Topics(items: seq<TopicItem>)
    | NoTopicsYet               // "No topics yet. Be the first to start a debate!"
    | NoTopicsFound(query: string)  // "No topics found matching ..."

  /** A topic matches when its lower-cased proposition contains the
      lower-cased query; the query is not trimmed for this test. */
  predicate Matches(t: TopicItem, query: string) {
    Contains(Lower(t.proposition), Lower(query))
  }

  /** `topics.filter(...)` with the match test above: every matching
      topic is kept as often as it occurs, every other one is dropped. */
  function KeepMatching(topics: seq<TopicItem>, query: string): (r: seq<TopicItem>)
    ensures |r| <= |topics|
    ensures forall t :: t in r <==> t in topics && Matches(t, query)
    ensures forall t :: multiset(r)[t] == if Matches(t, query) then multiset(topics)[t] else 0
  {
    if topics == [] then []
    else
      assert topics == [topics[0]] + topics[1..];
      if Matches(topics[0], query) then [topics[0]] + KeepMatching(topics[1..], query)
      else KeepMatching(topics[1..], query)
  }

  /** `filteredTopics`: a query that is blank after trimming keeps every
      topic; otherwise exactly the matching topics are kept. */
  function FilterTopics(topics: seq<TopicItem>, query: string): (r: seq<TopicItem>)
    ensures IsBlank(query) ==> r == topics
    ensures !IsBlank(query) ==> forall t :: t in r <==> t in topics && Matches(t, query)
    ensures !IsBlank(query) ==> forall t :: multiset(r)[t] == if Matches(t, query) then multiset(topics)[t] else 0
  {
    if Trim(query) == "" then topics else KeepMatching(topics, query)
  }

  /** `a` is obtained from `b` by deleting elements, keeping the order. */
  ghost predicate IsSubsequence(a: seq<TopicItem>, b: seq<TopicItem>)
    decreases |b|
  {
    if a == [] then true
    else if b == [] then false
    else (a[0] == b[0] && IsSubsequence(a[1..], b[1..])) || IsSubsequence(a, b[1..])
  }

  lemma {:induction false} SubsequenceOfItself(b: seq<TopicItem>)
    ensures IsSubsequence(b, b)
    decreases |b|
  {
    if b != [] {
      SubsequenceOfItself(b[1..]);
    }
  }

  lemma {:induction false} KeepMatchingIsSubsequence(topics: seq<TopicItem>, query: string)
    ensures IsSubsequence(KeepMatching(topics, query), topics)
    decreases |topics|
  {
    if topics != [] {
      KeepMatchingIsSubsequence(topics[1..], query);
      var rest := KeepMatching(topics[1..], query);
      if Matches(topics[0], query) {
        assert ([topics[0]] + rest)[1..] == rest;
      }
    }
  }

  /** The search result is always an order-preserving subsequence of the
      loaded topics. */
  lemma FilterPreservesOrder(topics: seq<TopicItem>, query: string)
    ensures IsSubsequence(FilterTopics(topics, query), topics)
  {
    if IsBlank(query) {
      SubsequenceOfItself(topics);
    } else {
      KeepMatchingIsSubsequence(topics, query);
    }
  }

  /** The listing the page renders for a search. */
  function ListingFor(topics: seq<TopicItem>, query: string): (v: Listing)
    ensures v.Topics? <==> FilterTopics(topics, query) != []
    ensures v.Topics? ==> v.items == FilterTopics(topics, query)
    ensures v.NoTopicsYet? <==> FilterTopics(topics, query) == [] && IsBlank(query)
    ensures v.NoTopicsFound? ==> v.query == query && !IsBlank(query)
  {
    var filtered := FilterTopics(topics, query);
    if filtered != [] then Topics(filtered)
    else if Trim(query) == "" then NoTopicsYet
    else NoTopicsFound(query)
  }

  /** The "No topics yet" state appears only when there are no topics at
      all; an empty result for a real query is always "No topics found". */
  lemma NoTopicsYetMeansNoTopics(topics: seq<TopicItem>, query: string)
    ensures ListingFor(topics, query) == NoTopicsYet <==> topics == [] && IsBlank(query)
    ensures topics != [] && ListingFor(topics, query) != Topics(FilterTopics(topics, query)) ==>
              ListingFor(topics, query) == NoTopicsFound(query)
  {
  }
}
