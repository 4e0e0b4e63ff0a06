/** The string helpers the page relies on, restricted to ASCII: whitespace as stripped by
    `String.prototype.trim` and matched by the regular-expression class `\s`, and ASCII
    case mapping as used by `toUpperCase` and by case-insensitive regular expressions. */
module Text {

  /** Space, tab, line feed, vertical tab, form feed and carriage return. */
  predicate IsSpace(c: char)
  {
    c == ' ' || c == '\t' || c == '\n' || c == '\r' || c == '\U{000B}' || c == '\U{000C}'
  }

  predicate AllSpace(s: string)
  {
    forall k :: 0 <= k < |s| ==> IsSpace(s[k])
  }

  function UpperAscii(c: char): (u: char)
    ensures 'a' <= c <= 'z' ==> 'A' <= u <= 'Z' && u as int == c as int - 32
    ensures !('a' <= c <= 'z') ==> u == c
  {
    if 'a' <= c <= 'z' then (c as int - 32) as char else c
  }

  function LowerAscii(c: char): (l: char)
    ensures 'A' <= c <= 'Z' ==> 'a' <= l <= 'z' && l as int == c as int + 32
    ensures !('A' <= c <= 'Z') ==> l == c
  {
    if 'A' <= c <= 'Z' then (c as int + 32) as char else c
  }

  /** `r` is `s` with `i` leading and `|s| - i - |r|` trailing characters removed, all of them spaces. */
  ghost predicate StripsTo(s: string, r: string, i: int)
  {
    && 0 <= i <= i + |r| <= |s|
    && s[i..i + |r|] == r
    && (forall k :: 0 <= k < i ==> IsSpace(s[k]))
    && (forall k :: i + |r| <= k < |s| ==> IsSpace(s[k]))
  }

  /** Cutting one more space off the front keeps a stripping a stripping. */
  lemma StripsFront(s: string, r: string, i: int)
    requires |s| > 0 && IsSpace(s[0]) && StripsTo(s[1..], r, i)
    ensures StripsTo(s, r, i + 1)
    ensures AllSpace(s[1..]) ==> AllSpace(s)
  {
    assert s[i + 1..i + 1 + |r|] == s[1..][i..i + |r|];
    forall k | 1 <= k < |s| ensures s[k] == s[1..][k - 1] {}
  }

  /** Cutting one more space off the back keeps a stripping a stripping. */
  lemma StripsBack(s: string, r: string, i: int)
    requires |s| > 0 && IsSpace(s[|s| - 1]) && StripsTo(s[..|s| - 1], r, i)
    ensures StripsTo(s, r, i)
    ensures AllSpace(s[..|s| - 1]) ==> AllSpace(s)
  {
    assert s[i..i + |r|] == s[..|s| - 1][i..i + |r|];
    forall k | 0 <= k < |s| - 1 ensures s[k] == s[..|s| - 1][k] {}
  }

  /** `String.prototype.trim`: the result is the middle of `s` with only spaces cut away on
      either side, and it neither starts nor ends with a space; it is empty exactly when
      `s` is empty or all spaces. */
  function Trim(s: string): (r: string)
    ensures exists i :: StripsTo(s, r, i)
    ensures |r| > 0 ==> !IsSpace(r[0]) && !IsSpace(r[|r| - 1])
    ensures r == [] <==> AllSpace(s)
    decreases |s|
  {
    if |s| > 0 && IsSpace(s[0]) then
      var r := Trim(s[1..]);
      ghost var i :| StripsTo(s[1..], r, i);
      StripsFront(s, r, i);
      r
    else if |s| > 0 && IsSpace(s[|s| - 1]) then
      var r := Trim(s[..|s| - 1]);
      ghost var i :| StripsTo(s[..|s| - 1], r, i);
      StripsBack(s, r, i);
      r
    else
      assert StripsTo(s, s, 0);
      s
  }

  /** Trimming twice is trimming once. */
  lemma TrimIdempotent(s: string)
    ensures Trim(Trim(s)) == Trim(s)
  {
  }

  /** The trimmed string is determined by the characterisation `Trim` ensures: any middle of
      `s` cut out by spaces alone, and with no space at either end, is `Trim(s)`. */
  lemma TrimUnique(s: string, r: string, i: int)
    requires StripsTo(s, r, i)
    requires |r| > 0 ==> !IsSpace(r[0]) && !IsSpace(r[|r| - 1])
    ensures Trim(s) == r
  {
    var t := Trim(s);
    var j :| StripsTo(s, t, j);
    if |r| == 0 {
      forall k | 0 <= k < |s| ensures IsSpace(s[k]) {
        if k >= i { assert k >= i + |r|; }
      }
    } else {
      assert s[i] == r[0] && s[i + |r| - 1] == r[|r| - 1];
      if |t| == 0 {
        assert false;
      }
      assert s[j] == t[0] && s[j + |t| - 1] == t[|t| - 1];
      assert i == j && i + |r| == j + |t|;
    }
  }

  /** Spaces added on either side make no difference once trimmed. */
  lemma TrimIgnoresPadding(a: string, s: string, b: string)
    requires AllSpace(a) && AllSpace(b)
    ensures Trim(a + s + b) == Trim(s)
  {
    var r := Trim(s);
    var i :| StripsTo(s, r, i);
    var p := a + s + b;
    assert p[|a| + i..|a| + i + |r|] == s[i..i + |r|];
    forall k | 0 <= k < |a| + i ensures IsSpace(p[k]) {
      if k >= |a| { assert p[k] == s[k - |a|]; }
    }
    forall k | |a| + i + |r| <= k < |p| ensures IsSpace(p[k]) {
      if k < |a| + |s| { assert p[k] == s[k - |a|]; } else { assert p[k] == b[k - |a| - |s|]; }
    }
    assert StripsTo(p, r, |a| + i);
    TrimUnique(p, r, |a| + i);
  }
}
