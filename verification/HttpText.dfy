/** The little text handling internal/api/compress.go needs: splitting, trimming, case. */
module HttpText {

  /** unicode.IsSpace */
  predicate IsSpace(c: char) {
    c == ' ' || '\t' <= c <= '\r' || (c >= '\U{85}' && IsWideSpace(c))
  }

  predicate IsWideSpace(c: char) {
    || c in {'\U{85}', '\U{A0}', '\U{1680}', '\U{2028}', '\U{2029}', '\U{202F}', '\U{205F}', '\U{3000}'}
    || '\U{2000}' <= c <= '\U{200A}'
  }

  function TrimLeft(s: string): string {
    if s != "" && IsSpace(s[0]) then TrimLeft(s[1..]) else s
  }

  function TrimRight(s: string): string {
    if s != "" && IsSpace(s[|s| - 1]) then TrimRight(s[..|s| - 1]) else s
  }

  function TrimSpace(s: string): string {
    TrimRight(TrimLeft(s))
  }

  /** The small ASCII letter c folds to: its own, or that of the long s or the Kelvin sign. */
  function Lower(c: char): char {
    if 'A' <= c <= 'Z' then (c as int + 32) as char
    else if c == '\U{17F}' then 's'
    else if c == '\U{212A}' then 'k'
    else c
  }

  predicate EqualFold(s: string, t: string) {
    |s| == |t| && forall i :: 0 <= i < |s| ==> Lower(s[i]) == Lower(t[i])
  }

  /** The part of s before the first sep, all of it when there is none. */
  function Before(s: string, sep: char): (t: string)
    ensures |t| <= |s| && sep !in t
    ensures sep !in s ==> t == s
  {
    if s == "" || s[0] == sep then "" else [s[0]] + Before(s[1..], sep)
  }

  function Split(s: string, sep: char): (parts: seq<string>)
    ensures parts != []
    decreases |s|
  {
    var head := Before(s, sep);
    if |head| == |s| then [head] else [head] + Split(s[|head| + 1..], sep)
  }

  /** Whether one of the Vary values names token. */
  predicate HasVary(vary: seq<string>, token: string) {
    exists i, j ::
      0 <= i < |vary| && 0 <= j < |Split(vary[i], ',')| && EqualFold(TrimSpace(Split(vary[i], ',')[j]), token)
  }

  /** vary with token added, unless one of its values already names it. */
  function AddVary(vary: seq<string>, token: string): seq<string> {
    if HasVary(vary, token) then vary else vary + [token]
  }

  /** A token: no commas, no space at either end. */
  predicate IsToken(t: string) {
    t != "" && ',' !in t && !IsSpace(t[0]) && !IsSpace(t[|t| - 1])
  }

  lemma {:induction false} SplitToken(t: string)
    requires IsToken(t)
    ensures Split(t, ',') == [t] && TrimSpace(t) == t
  {
  }

  /** Adding a token names it once and for all, and takes nothing away. */
  lemma AddVaryNames(vary: seq<string>, token: string)
    requires IsToken(token)
    ensures HasVary(AddVary(vary, token), token)
    ensures AddVary(AddVary(vary, token), token) == AddVary(vary, token)
    ensures vary <= AddVary(vary, token) && |AddVary(vary, token)| <= |vary| + 1
  {
    SplitToken(token);
    var added := AddVary(vary, token);
    if !HasVary(vary, token) {
      var i := |vary|;
      assert added[i] == token && Split(added[i], ',')[0] == token;
      assert EqualFold(TrimSpace(Split(added[i], ',')[0]), token);
    }
  }
}
