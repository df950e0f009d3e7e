/**
 * Python's `str.strip()` with no argument: it removes leading and trailing
 * characters for which `str.isspace()` holds.
 */
module Text {

  /** `c.isspace()`: the characters Python classes as whitespace. */
  predicate IsSpace(c: char)
  {
    || ('\U{9}' <= c <= '\U{D}')      // \t \n \v \f \r
    || ('\U{1C}' <= c <= '\U{20}')    // file/group/record/unit separators, space
    || c == '\U{85}' || c == '\U{A0}' || c == '\U{1680}'
    || ('\U{2000}' <= c <= '\U{200A}')
    || c == '\U{2028}' || c == '\U{2029}' || c == '\U{202F}'
    || c == '\U{205F}' || c == '\U{3000}'
  }

  /** `s.lstrip()`: the suffix of `s` left after its leading whitespace. */
  function TrimStart(s: string): (r: string)
    ensures |r| <= |s| && r == s[|s| - |r|..]
    ensures forall k :: 0 <= k < |s| - |r| ==> IsSpace(s[k])
    ensures r != [] ==> !IsSpace(r[0])
  {
    if s != [] && IsSpace(s[0]) then TrimStart(s[1..]) else s
  }

  /** `s.rstrip()`: the prefix of `s` left after its trailing whitespace. */
  function TrimEnd(s: string): (r: string)
    ensures |r| <= |s| && r == s[..|r|]
    ensures forall k :: |r| <= k < |s| ==> IsSpace(s[k])
    ensures r != [] ==> !IsSpace(r[|r| - 1])
  {
    if s != [] && IsSpace(s[|s| - 1]) then TrimEnd(s[..|s| - 1]) else s
  }

  /**
   * `s.strip()`: a contiguous slice of `s` that neither starts nor ends with
   * whitespace, and everything cut away is whitespace. It is empty exactly
   * when `s` is whitespace only.
   */
  function Strip(s: string): (r: string)
    ensures r == [] <==> forall k :: 0 <= k < |s| ==> IsSpace(s[k])
    ensures r != [] ==> !IsSpace(r[0]) && !IsSpace(r[|r| - 1])
    ensures |r| <= |s|
  {
    var t := TrimStart(s);
    var r := TrimEnd(t);
    assert forall k :: |s| - |t| <= k < |s| ==> s[k] == t[k - (|s| - |t|)];
    r
  }

  /** The slice `Strip` keeps starts where the leading whitespace ends. */
  lemma StripIsSlice(s: string)
    ensures var lead := |s| - |TrimStart(s)|;
            lead + |Strip(s)| <= |s| && Strip(s) == s[lead..lead + |Strip(s)|]
            && (forall k :: 0 <= k < lead ==> IsSpace(s[k]))
            && (forall k :: lead + |Strip(s)| <= k < |s| ==> IsSpace(s[k]))
  {
    var t := TrimStart(s);
    var lead := |s| - |t|;
    var r := TrimEnd(t);
    assert t == s[lead..];
    assert r == t[..|r|];
    forall k | lead + |r| <= k < |s|
      ensures IsSpace(s[k])
    {
      assert s[k] == t[k - lead];
    }
  }

  /** Stripping twice is stripping once. */
  lemma StripIdempotent(s: string)
    ensures Strip(Strip(s)) == Strip(s)
  {
    var r := Strip(s);
    if r != [] {
      assert TrimStart(r) == r;
      assert TrimEnd(r) == r;
    }
  }
}
