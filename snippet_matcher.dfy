/** Finding the snippet whose trigger the buffer ends with. Each key is turned
    into the pattern `.*(key)$` (a literal key with its metacharacters escaped)
    and executed on the buffer; the text of the first group is the match. */
module SnippetMatcher {
  import opened JsValues

  /** A stored snippet. `kind` is the source's `type` string: "js", "lua" or
      anything else for plain text. */
  datatype Snippet = Snippet(key: string, regex: bool, kind: string, value: string)

  /** The outcome of `new RegExp('.*(' + pattern + ')$').exec(buffer)` for a
      `regex: true` key: the constructor throws on a malformed pattern, `exec`
      finds no match, or it yields the text of the first group. */
  datatype RegexResult = Invalid | NoMatch | Match(group: string)

  /** Regular-expression semantics are not modelled: the outcome for a key and
      a buffer is given. */
  type RegexMatcher = (string, string) -> RegexResult

  predicate EndsWith(buffer: string, key: string) {
    |key| <= |buffer| && buffer[|buffer| - |key|..] == key
  }

  /** The characters `.` does not match. */
  predicate IsLineTerminator(c: char) {
    c == '\n' || c == '\r' || c == '\U{2028}' || c == '\U{2029}'
  }

  /** How far the greedy `.*` can reach from position `p`: up to the next line
      terminator or the end of the buffer. */
  function RunEnd(buffer: string, p: nat): (q: nat)
    requires p <= |buffer|
    ensures p <= q <= |buffer|
    ensures forall i :: p <= i < q ==> !IsLineTerminator(buffer[i])
    ensures q == |buffer| || IsLineTerminator(buffer[q])
    decreases |buffer| - p
  {
    if p == |buffer| || IsLineTerminator(buffer[p]) then p else RunEnd(buffer, p + 1)
  }

  /** Backtracking of `.*` from `j` down to `p`: the first (largest) position
      from which the escaped key followed by the end of input matches. */
  function Backtrack(buffer: string, key: string, p: nat, j: nat): (r: Option<nat>)
    requires p <= j <= |buffer|
    ensures r.Some? ==> p <= r.value <= j && EndsWith(buffer, key) && r.value == |buffer| - |key|
    ensures EndsWith(buffer, key) && p <= |buffer| - |key| <= j ==> r.Some?
    decreases j - p
  {
    if buffer[j..] == key then Some(j)
    else if j == p then None
    else Backtrack(buffer, key, p, j - 1)
  }

  /** `exec` tries the start positions from the left; at each it lets `.*`
      reach as far as it can and backtracks. */
  function ExecFrom(buffer: string, key: string, p: nat): (r: Option<string>)
    requires p <= |buffer|
    ensures r.Some? ==> EndsWith(buffer, key) && r.value == key
    ensures EndsWith(buffer, key) && p <= |buffer| - |key| ==> r.Some?
    decreases |buffer| - p
  {
    match Backtrack(buffer, key, p, RunEnd(buffer, p))
    case Some(j) => Some(buffer[j..])
    case None => if p == |buffer| then None else ExecFrom(buffer, key, p + 1)
  }

  /** The first group of `.*(escaped key)$` executed on the buffer. */
  function ExecLiteral(buffer: string, key: string): (r: Option<string>)
    ensures r.Some? <==> EndsWith(buffer, key)
    ensures r.Some? ==> r.value == key
  {
    ExecFrom(buffer, key, 0)
  }

  /** A literal key's pattern matches exactly when the buffer ends with the
      key, and what it captures is the key itself. */
  lemma ExecLiteralIsEndsWith(buffer: string, key: string)
    ensures ExecLiteral(buffer, key) == if EndsWith(buffer, key) then Some(key) else None
  {
  }

  /** Building the snippet's pattern throws: only a `regex: true` key can be
      malformed, an escaped literal key never is. */
  predicate Throws(s: Snippet, buffer: string, regex: RegexMatcher) {
    s.regex && regex(s.key, buffer).Invalid?
  }

  /** The captured text of a snippet's pattern on the buffer. */
  function Captured(s: Snippet, buffer: string, regex: RegexMatcher): Option<string> {
    if s.regex then
      match regex(s.key, buffer)
      case Match(g) => Some(g)
      case _ => None
    else ExecLiteral(buffer, s.key)
  }

  /** `matchedString`: the captured text when it is truthy, i.e. non-empty. */
  function MatchedString(s: Snippet, buffer: string, regex: RegexMatcher): (r: Option<string>)
    ensures r.Some? ==> r.value != ""
    ensures !s.regex ==> (r.Some? <==> s.key != "" && EndsWith(buffer, s.key))
    ensures !s.regex && r.Some? ==> r.value == s.key
    ensures s.regex ==> (r.Some? <==> regex(s.key, buffer).Match? && regex(s.key, buffer).group != "")
    ensures s.regex && r.Some? ==> r.value == regex(s.key, buffer).group
    ensures Throws(s, buffer, regex) ==> r.None?
  {
    ExecLiteralIsEndsWith(buffer, s.key);
    match Captured(s, buffer, regex)
    case Some(m) => if m != "" then Some(m) else None
    case None => None
  }

  /** How the scan over the stored snippets ends: the snippet that fired, by
      its position in store order, and its matched text; the snippet whose
      pattern threw, which ends the scan; or no snippet matched. */
  datatype Scan = Hit(index: nat, matched: string) | Threw(index: nat) | NoHit

  /** The snippet is passed over: its pattern compiles and yields no non-empty match. */
  predicate PassesOver(s: Snippet, buffer: string, regex: RegexMatcher) {
    !Throws(s, buffer, regex) && MatchedString(s, buffer, regex).None?
  }

  /** The scan from position `i` on. */
  function FirstMatchFrom(snippets: seq<Snippet>, buffer: string, regex: RegexMatcher, i: nat): (r: Scan)
    requires i <= |snippets|
    ensures r.Hit? ==> i <= r.index < |snippets|
    ensures r.Hit? ==> MatchedString(snippets[r.index], buffer, regex) == Some(r.matched)
    ensures r.Threw? ==> i <= r.index < |snippets| && Throws(snippets[r.index], buffer, regex)
    ensures !r.NoHit? ==> forall j :: i <= j < r.index ==> PassesOver(snippets[j], buffer, regex)
    ensures r.NoHit? ==> forall j :: i <= j < |snippets| ==> PassesOver(snippets[j], buffer, regex)
    decreases |snippets| - i
  {
    if i == |snippets| then NoHit
    else if Throws(snippets[i], buffer, regex) then Threw(i)
    else match MatchedString(snippets[i], buffer, regex)
      case Some(m) => Hit(i, m)
      case None => FirstMatchFrom(snippets, buffer, regex, i + 1)
  }

  /** The loop over the stored snippets with its `break` on the first hit; a
      pattern that throws ends the loop as well. */
  function FirstMatch(snippets: seq<Snippet>, buffer: string, regex: RegexMatcher): (r: Scan)
    ensures r.Hit? ==> r.index < |snippets| && r.matched != ""
    ensures r.Hit? ==> MatchedString(snippets[r.index], buffer, regex) == Some(r.matched)
    ensures r.Threw? ==> r.index < |snippets| && Throws(snippets[r.index], buffer, regex)
    ensures !r.NoHit? ==> forall j :: 0 <= j < r.index ==> PassesOver(snippets[j], buffer, regex)
    ensures r.NoHit? ==> forall j :: 0 <= j < |snippets| ==> PassesOver(snippets[j], buffer, regex)
  {
    FirstMatchFrom(snippets, buffer, regex, 0)
  }

  /** A malformed regex key ends the scan where it stands: no snippet after it
      fires, whatever the buffer is. */
  lemma ThrowingKeyHidesLaterSnippets(snippets: seq<Snippet>, buffer: string, regex: RegexMatcher, k: nat)
    requires k < |snippets| && Throws(snippets[k], buffer, regex)
    ensures !FirstMatch(snippets, buffer, regex).Hit? || FirstMatch(snippets, buffer, regex).index < k
  {
  }

  /** A literal snippet that comes first is taken whenever the buffer ends with
      its non-empty key, and its matched text is the key, whatever follows it in
      the store. */
  lemma FirstLiteralWins(snippets: seq<Snippet>, buffer: string, regex: RegexMatcher)
    requires |snippets| > 0 && !snippets[0].regex
    requires snippets[0].key != "" && EndsWith(buffer, snippets[0].key)
    ensures FirstMatch(snippets, buffer, regex) == Hit(0, snippets[0].key)
  {
  }
}
