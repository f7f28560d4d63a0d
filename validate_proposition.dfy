/** Unpacking the language model's reply to a proposition check
    (backend/validate_proposition.py): code-fence stripping, JSON decoding
    and the required-field checks, with the exceptions they raise. */
module ValidateProposition {
  import opened Common

  /** The part of `s` before the first `sep` (all of `s` without one). */
  function Before(s: string, sep: string): (r: string)
    ensures IndexOf(s, sep).None? ==> r == s
    ensures IndexOf(s, sep).Some? ==> r == s[..IndexOf(s, sep).value]
  {
    match IndexOf(s, sep)
    case None => s
    case Some(i) => s[..i]
  }

  /** The part of `s` after the first `sep`. */
  function After(s: string, sep: string): string
    requires Contains(s, sep)
  {
    s[IndexOf(s, sep).value + |sep|..]
  }

  /** `s.split(sep)[0]` is the text before the first separator, and, when
      there is one, `s.split(sep)[1]` is the text between the first and the
      second. */
  lemma SplitPieces(s: string, sep: string)
    requires sep != []
    ensures Split(s, sep)[0] == Before(s, sep)
    ensures Contains(s, sep) ==> |Split(s, sep)| >= 2 && Split(s, sep)[1] == Before(After(s, sep), sep)
  {
    match IndexOf(s, sep)
    case None =>
    case Some(i) =>
      SplitAt(s, sep, i);
      var rest := s[i + |sep|..];
      SplitPieces(rest, sep);
  }

  /** The text handed to `json.loads`: the reply stripped, then the fenced
      block cut out of it. A "```json" fence wins over a plain one; the
      block then runs up to the next fence, cut short by a second "```json"
      that starts before any plain fence ends. */
  function Payload(reply: string): (r: string)
    ensures Contains(Trim(reply), "```json") ==>
              r == Trim(Before(Before(After(Trim(reply), "```json"), "```json"), "```"))
    ensures !Contains(Trim(reply), "```json") && Contains(Trim(reply), "```") ==>
              r == Trim(Before(After(Trim(reply), "```"), "```"))
    ensures !Contains(Trim(reply), "```") ==> r == Trim(reply)
  {
    var t := Trim(reply);
    FenceInJsonFence(t);
    if Contains(t, "```json") then
      FencedPiece(t, "```json");
      Trim(Split(Split(t, "```json")[1], "```")[0])
    else if Contains(t, "```") then
      FencedPiece(t, "```");
      BeforeHasNoSeparator(After(t, "```"), "```");
      Trim(Split(Split(t, "```")[1], "```")[0])
    else
      t
  }

  /** `t.split(open)[1].split("```")[0]`: the text between the first two
      occurrences of `open`, up to its first fence. */
  lemma FencedPiece(t: string, open: string)
    requires open != [] && Contains(t, open)
    ensures |Split(t, open)| >= 2
    ensures Split(Split(t, open)[1], "```")[0] == Before(Before(After(t, open), open), "```")
  {
    SplitPieces(t, open);
    SplitPieces(Split(t, open)[1], "```");
  }

  /** The text before the first separator contains no separator, so
      splitting it again keeps it whole. */
  lemma BeforeHasNoSeparator(s: string, sep: string)
    requires sep != []
    ensures Before(Before(s, sep), sep) == Before(s, sep)
  {
    match IndexOf(s, sep)
    case None =>
    case Some(i) =>
      var b := s[..i];
      forall j | 0 <= j <= |b| ensures !MatchAt(b, sep, j) {
        if MatchAt(b, sep, j) {
          assert b[j..j + |sep|] == s[j..j + |sep|];
          assert MatchAt(s, sep, j);
        }
      }
  }

  /** Any text containing "```json" contains "```". */
  lemma FenceInJsonFence(t: string)
    ensures Contains(t, "```json") ==> Contains(t, "```")
  {
    if Contains(t, "```json") {
      var i := IndexOf(t, "```json").value;
      assert t[i..i + 3] == t[i..i + 7][..3];
      assert MatchAt(t, "```", i);
    }
  }

  /** How `validate_proposition` ends. */
  datatype Validation =
    | Validated(result: Json)
      // the ValueError raised for a reply that is not JSON
    | NotJson
      // the RuntimeError wrapping any other failure
    | ApiError(reason: Failure)

  datatype Failure =
    | CallFailed           // the model call itself raised
    | MissingFields        // "Missing required fields in Claude response"
    | SuggestionsNotList   // "suggestions must be a list"
    | NotAnObject          // a decoded value that is not a dict raised a TypeError

  /** Every field a reply must carry is present in the decoded object. */
  predicate HasRequiredKeys(fields: map<string, Json>) {
    "original_input" in fields && "is_valid" in fields && "rejection_reason" in fields &&
    "interpretation" in fields && "suggestions" in fields
  }

  /** The checks on the decoded reply (None when `json.loads` raised). */
  function Checked(decoded: Option<Json>): (v: Validation)
    ensures decoded.None? <==> v == NotJson
    ensures v.Validated? <==>
              decoded.Some? && decoded.value.JObj? && HasRequiredKeys(decoded.value.fields) &&
              decoded.value.fields["suggestions"].JArr?
    ensures v.Validated? ==> v.result == decoded.value
    ensures v == ApiError(NotAnObject) <==> decoded.Some? && !decoded.value.JObj?
    ensures v == ApiError(MissingFields) <==>
              decoded.Some? && decoded.value.JObj? && !HasRequiredKeys(decoded.value.fields)
    ensures v != ApiError(CallFailed)
  {
    match decoded
    case None => NotJson
    case Some(result) =>
      if !result.JObj? then ApiError(NotAnObject)
      else if !HasRequiredKeys(result.fields) then ApiError(MissingFields)
      else if !result.fields["suggestions"].JArr? then ApiError(SuggestionsNotList)
      else Validated(result)
  }

  /** `validate_proposition`, given the model's reply text (None when the
      call raised) and the JSON decoder. */
  function Validate(reply: Option<string>, loads: string -> Option<Json>): (v: Validation)
    ensures reply.None? <==> v == ApiError(CallFailed)
    ensures reply.Some? ==> v == Checked(loads(Payload(reply.value)))
  {
    match reply
    case None => ApiError(CallFailed)
    case Some(text) => Checked(loads(Payload(text)))
  }

  /** A reply made of one "```json" block around a well-formed object's
      JSON text yields that object unchanged. */
  lemma FencedReplyRoundTrip(lib: JsonLib, v: Json)
    requires RoundTrips(lib)
    requires v.JObj? && HasRequiredKeys(v.fields) && v.fields["suggestions"].JArr?
    requires var d := lib.dumps(v); d == Trim(d) && '`' !in d
    ensures Validate(Some("```json" + lib.dumps(v) + "```"), lib.loads) == Validated(v)
  {
    var d := lib.dumps(v);
    SingleBlockPayload(d);
    assert lib.loads(d) == Some(v);
    assert Checked(Some(v)) == Validated(v);
  }

  /** The payload of a reply that is a single "```json" block is the
      block's (stripped) text. */
  lemma SingleBlockPayload(d: string)
    requires d == Trim(d) && '`' !in d
    ensures Payload("```json" + d + "```") == d
    ensures forall loads: string -> Option<Json> :: Validate(Some("```json" + d + "```"), loads) == Checked(loads(d))
  {
    var reply := "```json" + d + "```";
    assert Trim(reply) == reply by {
      assert reply[0] == '`' && reply[|reply| - 1] == '`';
      assert !IsSpace('`');
    }
    assert MatchAt(reply, "```json", 0) by {
      assert reply[..7] == "```json";
    }
    assert After(reply, "```json") == d + "```" by {
      assert reply[7..] == d + "```";
    }
    NoJsonFence(d);
    FenceAtEnd(d);
  }

  /** In text without backticks followed by a fence, the first fence is
      the closing one. */
  lemma FenceAtEnd(d: string)
    requires '`' !in d
    ensures Before(d + "```", "```") == d
  {
    var s := d + "```";
    forall j | 0 <= j < |d| ensures !MatchAt(s, "```", j) {
      assert s[j] == d[j];
    }
    assert MatchAt(s, "```", |d|) by {
      assert s[|d|..|d| + 3] == "```";
    }
    assert s[..|d|] == d;
  }

  /** Text without backticks followed by a fence contains no "```json". */
  lemma NoJsonFence(d: string)
    requires '`' !in d
    ensures Before(d + "```", "```json") == d + "```"
  {
    var s := d + "```";
    forall j | 0 <= j <= |s| ensures !MatchAt(s, "```json", j) {
      if j < |d| && j + 7 <= |s| {
        assert s[j..j + 7][0] == d[j];
      }
    }
  }
}
