/** Shared vocabulary of the model: optional values, JSON values, and the
    string operations of JavaScript and Python that the modelled code uses
    (trim/strip, includes/`in`, startsWith, split, join, toLowerCase,
    toUpperCase). Whitespace and case mapping are restricted to ASCII. */
module Common {

  datatype Option<T> = None | Some(value: T)

  /** A JSON value as produced by `json.loads` or `response.json()`.
      Numbers are integers in this model. */
  datatype Json =
    | JNull
    | JBool(b: bool)
    | JNum(n: int)
    | JStr(s: string)
    | JArr(items: seq<Json>)
    | JObj(fields: map<string, Json>)

  /** JavaScript truthiness: arrays and objects are always truthy. */
  predicate JsTruthy(v: Json) {
    match v
    case JNull => false
    case JBool(b) => b
    case JNum(n) => n != 0
    case JStr(s) => s != ""
    case JArr(_) => true
    case JObj(_) => true
  }

  /** Python truthiness: empty containers and strings are false. */
  predicate PyTruthy(v: Json) {
    match v
    case JNull => false
    case JBool(b) => b
    case JNum(n) => n != 0
    case JStr(s) => s != ""
    case JArr(items) => items != []
    case JObj(fields) => fields != map[]
  }

  /** The JSON library the code calls (`json.loads`, `json.dumps`), which is
      not part of this model: `loads` answers None where it would raise. */
  datatype JsonLib = JsonLib(loads: string -> Option<Json>, dumps: Json -> string)

  /** The round-trip law a conforming JSON library satisfies. */
  ghost predicate RoundTrips(lib: JsonLib) {
    forall v :: lib.loads(lib.dumps(v)) == Some(v)
  }

  /** A conforming library round-trips and never prints a value as empty
      text (the shortest JSON text has one character). */
  ghost predicate Conforming(lib: JsonLib) {
    RoundTrips(lib) && forall v :: lib.dumps(v) != ""
  }

  // ---------------------------------------------------------------------
  // Whitespace and trimming
  // ---------------------------------------------------------------------

  /** The whitespace that `String.prototype.trim` and `str.strip` remove
      (ASCII subset). */
  predicate IsSpace(c: char) {
    c == ' ' || c == '\t' || c == '\n' || c == '\r' || c == '\U{000B}' || c == '\U{000C}'
  }

  /** True of a string that is empty or only whitespace. */
  predicate IsBlank(s: string) {
    forall i :: 0 <= i < |s| ==> IsSpace(s[i])
  }

  /** Drops the longest whitespace prefix. */
  function TrimStart(s: string): (r: string)
    ensures |r| <= |s| && r == s[|s| - |r|..]
    ensures r == [] || !IsSpace(r[0])
    ensures forall i :: 0 <= i < |s| - |r| ==> IsSpace(s[i])
  {
    if s != [] && IsSpace(s[0]) then TrimStart(s[1..]) else s
  }

  /** Drops the longest whitespace suffix. */
  function TrimEnd(s: string): (r: string)
    ensures |r| <= |s| && r == s[..|r|]
    ensures r == [] || !IsSpace(r[|r| - 1])
    ensures forall i :: |r| <= i < |s| ==> IsSpace(s[i])
  {
    if s != [] && IsSpace(s[|s| - 1]) then TrimEnd(s[..|s| - 1]) else s
  }

  /** `s.trim()` in JavaScript, `s.strip()` in Python. */
  function Trim(s: string): (r: string)
    ensures |r| <= |s|
    ensures r != [] ==> !IsSpace(r[0]) && !IsSpace(r[|r| - 1])
    ensures r == [] <==> IsBlank(s)
  {
    var t := TrimStart(s);
    var r := TrimEnd(t);
    assert r == [] ==> IsBlank(t) && t == [] && IsBlank(s);
    assert IsBlank(s) ==> t == [];
    r
  }

  // ---------------------------------------------------------------------
  // Case mapping (ASCII)
  // ---------------------------------------------------------------------

  function LowerChar(c: char): char {
    if 'A' <= c <= 'Z' then (c as int + 32) as char else c
  }

  function UpperChar(c: char): char {
    if 'a' <= c <= 'z' then (c as int - 32) as char else c
  }

  /** `s.toLowerCase()` / `s.lower()`. */
  function Lower(s: string): (r: string)
    ensures |r| == |s|
  {
    seq(|s|, i requires 0 <= i < |s| => LowerChar(s[i]))
  }

  /** `s.toUpperCase()`. */
  function Upper(s: string): (r: string)
    ensures |r| == |s|
  {
    seq(|s|, i requires 0 <= i < |s| => UpperChar(s[i]))
  }

  // ---------------------------------------------------------------------
  // Searching
  // ---------------------------------------------------------------------

  /** `s.startsWith(p)` / `s.startswith(p)`. */
  predicate StartsWith(s: string, p: string) {
    |p| <= |s| && s[..|p|] == p
  }

  /** `sep` occurs in `s` at index `j`. */
  predicate MatchAt(s: string, sep: string, j: int) {
    0 <= j && j + |sep| <= |s| && s[j..j + |sep|] == sep
  }

  /** The index of the first occurrence of `sep` in `s`, as `s.find(sep)`. */
  function IndexOf(s: string, sep: string): (r: Option<nat>)
    ensures r.Some? ==> MatchAt(s, sep, r.value)
    ensures r.Some? ==> forall j :: 0 <= j < r.value ==> !MatchAt(s, sep, j)
    ensures r.None? ==> forall j :: 0 <= j <= |s| ==> !MatchAt(s, sep, j)
    decreases |s|
  {
    if MatchAt(s, sep, 0) then
      Some(0)
    else if s == [] then
      None
    else
      var rest := IndexOf(s[1..], sep);
      assert forall j :: 1 <= j ==> (MatchAt(s[1..], sep, j - 1) <==> MatchAt(s, sep, j));
      match rest
      case None => None
      case Some(k) => Some(k + 1)
  }

  /** `s.includes(n)` in JavaScript, `n in s` in Python. */
  predicate Contains(s: string, n: string) {
    IndexOf(s, n).Some?
  }

  // ---------------------------------------------------------------------
  // Splitting and joining
  // ---------------------------------------------------------------------

  /** `s.split(sep)` for a non-empty separator (JavaScript and Python agree
      on this case): the pieces between the non-overlapping occurrences of
      `sep`, scanned left to right. */
  function Split(s: string, sep: string): (r: seq<string>)
    requires sep != []
    ensures |r| >= 1
    ensures |r| == 1 <==> !Contains(s, sep)
    decreases |s|
  {
    match IndexOf(s, sep)
    case None => [s]
    case Some(i) => [s[..i]] + Split(s[i + |sep|..], sep)
  }

  /** `pieces.join(sep)`. */
  function Join(pieces: seq<string>, sep: string): string {
    if pieces == [] then ""
    else if |pieces| == 1 then pieces[0]
    else pieces[0] + sep + Join(pieces[1..], sep)
  }

  /** Splitting and joining again with the same separator gives back the
      original string. */
  lemma {:induction false} JoinSplit(s: string, sep: string)
    requires sep != []
    ensures Join(Split(s, sep), sep) == s
    decreases |s|
  {
    match IndexOf(s, sep)
    case None =>
    case Some(i) =>
      JoinSplit(s[i + |sep|..], sep);
      JoinSplitStep(s, sep, i);
  }

  /** The inductive step of JoinSplit: one occurrence of `sep` at `i`. */
  lemma JoinSplitStep(s: string, sep: string, i: nat)
    requires sep != [] && IndexOf(s, sep) == Some(i)
    requires Join(Split(s[i + |sep|..], sep), sep) == s[i + |sep|..]
    ensures Join(Split(s, sep), sep) == s
  {
    var rest := s[i + |sep|..];
    var r := Split(rest, sep);
    var head := s[..i];
    var mid := s[i..i + |sep|];
    SplitAt(s, sep, i);
    JoinCons(head, r, sep);
    SliceParts(s, i, i + |sep|);
    ghost var j := Join(Split(s, sep), sep);
    assert j == head + sep + Join(r, sep);
    assert j == head + mid + rest;
  }

  lemma SplitAt(s: string, sep: string, i: nat)
    requires sep != [] && IndexOf(s, sep) == Some(i)
    ensures Split(s, sep) == [s[..i]] + Split(s[i + |sep|..], sep)
  {
  }

  lemma JoinCons(head: string, r: seq<string>, sep: string)
    requires |r| >= 1
    ensures Join([head] + r, sep) == head + sep + Join(r, sep)
  {
    assert ([head] + r)[1..] == r;
  }

  lemma SliceParts(s: string, i: nat, j: nat)
    requires i <= j <= |s|
    ensures s[..i] + s[i..j] + s[j..] == s
  {
    assert s[..i] + s[i..j] == s[..j];
  }

  // ---------------------------------------------------------------------
  // Number formatting
  // ---------------------------------------------------------------------

  function DigitChar(d: nat): char
    requires d < 10
  {
    "0123456789"[d]
  }

  /** Decimal notation of a natural number, as `String(n)`. */
  function NatToString(n: nat): (r: string)
    ensures |r| >= 1
    ensures forall k :: 0 <= k < |r| ==> '0' <= r[k] <= '9'
  {
    if n < 10 then [DigitChar(n)] else NatToString(n / 10) + [DigitChar(n % 10)]
  }

  /** Decimal notation of an integer, as `String(n)` or `str(n)`. */
  function IntToString(n: int): string {
    if n < 0 then "-" + NatToString(-n) else NatToString(n)
  }
}
