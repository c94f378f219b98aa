/** The string operations the agent relies on. */
module Text {

  /** The code points with the Unicode property White_Space, which `str::trim` removes. */
  predicate IsWhitespace(c: char) {
    || '\t' <= c <= '\r'
    || c == ' '
    || c == '\U{0085}'
    || c == '\U{00A0}'
    || c == '\U{1680}'
    || '\U{2000}' <= c <= '\U{200A}'
    || c == '\U{2028}'
    || c == '\U{2029}'
    || c == '\U{202F}'
    || c == '\U{205F}'
    || c == '\U{3000}'
  }

  /** True when trimming has nothing to remove. */
  predicate Tidy(s: string) {
    s == "" || (!IsWhitespace(s[0]) && !IsWhitespace(s[|s| - 1]))
  }

  function TrimStart(s: string): (t: string)
    ensures |t| <= |s|
    ensures t == "" || (!IsWhitespace(t[0]) && t[|t| - 1] == s[|s| - 1])
  {
    if s != "" && IsWhitespace(s[0]) then TrimStart(s[1..]) else s
  }

  function TrimEnd(s: string): (t: string)
    ensures t <= s
    ensures t == "" || !IsWhitespace(t[|t| - 1])
  {
    if s != "" && IsWhitespace(s[|s| - 1]) then TrimEnd(s[..|s| - 1]) else s
  }

  function Trim(s: string): (t: string)
    ensures Tidy(t)
    ensures Tidy(s) ==> t == s
  {
    TrimEnd(TrimStart(s))
  }

  ghost predicate AllWhitespace(s: string) {
    forall i :: 0 <= i < |s| ==> IsWhitespace(s[i])
  }

  lemma {:induction false} TrimStartRemoves(s: string)
    ensures |TrimStart(s)| <= |s| && TrimStart(s) == s[|s| - |TrimStart(s)|..]
    ensures AllWhitespace(s[..|s| - |TrimStart(s)|])
  {
    if s == "" || !IsWhitespace(s[0]) {
    } else {
      TrimStartRemoves(s[1..]);
      var n := |s| - |TrimStart(s)|;
      assert s[1..][..n - 1] == s[..n][1..];
    }
  }

  lemma {:induction false} TrimEndRemoves(s: string)
    ensures TrimEnd(s) <= s && AllWhitespace(s[|TrimEnd(s)|..])
  {
    if s == "" || !IsWhitespace(s[|s| - 1]) {
    } else {
      var init := s[..|s| - 1];
      TrimEndRemoves(init);
      assert s[|TrimEnd(s)|..] == init[|TrimEnd(init)|..] + [s[|s| - 1]];
    }
  }

  /** Trimming takes away white space at both ends, all of it and nothing else. */
  lemma TrimRemovesOuterWhitespace(s: string) returns (before: string, after: string)
    ensures s == before + Trim(s) + after && AllWhitespace(before) && AllWhitespace(after) && Tidy(Trim(s))
  {
    var rest := TrimStart(s);
    TrimStartRemoves(s);
    TrimEndRemoves(rest);
    before, after := s[..|s| - |rest|], rest[|TrimEnd(rest)|..];
  }
}
