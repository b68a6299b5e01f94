/** String helpers with the meaning of the Python built-ins the services use:
    `in` on strings, `startswith`/`endswith`, `lower`/`upper` (ASCII letters only),
    `strip`, `" ".join`, slicing `s[:n]`, `find`/`rfind` and `replace` of one character. */
module Strings {

  predicate StartsWith(s: string, prefix: string) {
    |prefix| <= |s| && s[..|prefix|] == prefix
  }

  predicate EndsWith(s: string, suffix: string) {
    |suffix| <= |s| && s[|s| - |suffix|..] == suffix
  }

  /** Python's `sub in s`. */
  predicate Contains(s: string, sub: string)
    decreases |s|
  {
    StartsWith(s, sub) || (|s| > 0 && Contains(s[1..], sub))
  }

  /** An occurrence at a known offset makes `sub in s` true. */
  lemma {:induction false} ContainsAt(s: string, sub: string, i: nat)
    requires i + |sub| <= |s| && s[i..i + |sub|] == sub
    ensures Contains(s, sub)
    decreases i
  {
    if i > 0 {
      assert s[1..][i - 1..i - 1 + |sub|] == sub;
      ContainsAt(s[1..], sub, i - 1);
    }
  }

  /** Whatever contains a string also contains each of its prefixes. */
  lemma {:induction false} ContainsPrefix(s: string, sub: string, n: nat)
    requires n <= |sub| && Contains(s, sub)
    ensures Contains(s, sub[..n])
    decreases |s|
  {
    if StartsWith(s, sub) {
      assert s[..n] == sub[..n];
    } else {
      ContainsPrefix(s[1..], sub, n);
    }
  }

  /** A string contains itself, placed anywhere inside a longer one. */
  lemma ContainsInfix(a: string, sub: string, b: string)
    ensures Contains(a + sub + b, sub)
  {
    assert (a + sub + b)[|a|..|a| + |sub|] == sub;
    ContainsAt(a + sub + b, sub, |a|);
  }

  function LowerChar(c: char): char {
    if 'A' <= c <= 'Z' then (c as int + 32) as char else c
  }

  function UpperChar(c: char): char {
    if 'a' <= c <= 'z' then (c as int - 32) as char else c
  }

  /** `s.lower()` on ASCII letters; every other character is kept. */
  function Lower(s: string): string {
    seq(|s|, i requires 0 <= i < |s| => LowerChar(s[i]))
  }

  /** Lowercasing keeps the length, leaves no upper-case ASCII letter, and changes a
      character only by moving an upper-case letter to its lower-case form. */
  lemma LowerMeaning(s: string)
    ensures |Lower(s)| == |s|
    ensures forall i :: 0 <= i < |s| ==> !('A' <= Lower(s)[i] <= 'Z')
    ensures forall i :: 0 <= i < |s| ==>
      Lower(s)[i] == s[i] || ('A' <= s[i] <= 'Z' && Lower(s)[i] as int == s[i] as int + 32)
  {
  }

  /** `s.upper()` on ASCII letters; every other character is kept. */
  function Upper(s: string): string {
    seq(|s|, i requires 0 <= i < |s| => UpperChar(s[i]))
  }

  /** Upper-casing keeps the length, leaves no lower-case ASCII letter, and changes a
      character only by moving a lower-case letter to its upper-case form. */
  lemma UpperMeaning(s: string)
    ensures |Upper(s)| == |s|
    ensures forall i :: 0 <= i < |s| ==> !('a' <= Upper(s)[i] <= 'z')
    ensures forall i :: 0 <= i < |s| ==>
      Upper(s)[i] == s[i] || ('a' <= s[i] <= 'z' && Upper(s)[i] as int == s[i] as int - 32)
  {
  }

  /** Lowercasing twice is lowercasing once. */
  lemma LowerIdempotent(s: string)
    ensures Lower(Lower(s)) == Lower(s)
  {
  }

  /** The characters Python's `str.isspace` accepts (and hence the ones `strip()` removes). */
  predicate IsSpace(c: char) {
    var n := c as int;
    (9 <= n <= 13) || (0x1C <= n <= 0x20) || n == 0x85 || n == 0xA0 || n == 0x1680
    || (0x2000 <= n <= 0x200A) || n == 0x2028 || n == 0x2029 || n == 0x202F || n == 0x205F || n == 0x3000
  }

  /** `s.lstrip()` */
  function LStrip(s: string): (r: string)
    ensures |r| <= |s| && r == s[|s| - |r|..]
    ensures r == [] || !IsSpace(r[0])
    ensures forall i :: 0 <= i < |s| - |r| ==> IsSpace(s[i])
    decreases |s|
  {
    if s != [] && IsSpace(s[0]) then LStrip(s[1..]) else s
  }

  /** `s.rstrip()` */
  function RStrip(s: string): (r: string)
    ensures |r| <= |s| && r == s[..|r|]
    ensures r == [] || !IsSpace(r[|r| - 1])
    ensures forall i :: |r| <= i < |s| ==> IsSpace(s[i])
    decreases |s|
  {
    if s != [] && IsSpace(s[|s| - 1]) then RStrip(s[..|s| - 1]) else s
  }

  /** How many whitespace characters `lstrip()` removes. */
  function LeadingSpaces(s: string): (n: nat)
    ensures n <= |s|
  {
    |s| - |LStrip(s)|
  }

  /** `s.strip()`: the slice of `s` left after removing whitespace at both ends. */
  function Strip(s: string): (r: string)
    ensures LeadingSpaces(s) + |r| <= |s| && r == s[LeadingSpaces(s)..LeadingSpaces(s) + |r|]
  {
    RStrip(LStrip(s))
  }

  /** What `strip()` removes is whitespace at either end, and what it keeps neither starts
      nor ends with whitespace. */
  lemma StripMeaning(s: string)
    ensures forall k :: 0 <= k < LeadingSpaces(s) ==> IsSpace(s[k])
    ensures forall k :: LeadingSpaces(s) + |Strip(s)| <= k < |s| ==> IsSpace(s[k])
    ensures Strip(s) == [] || (!IsSpace(Strip(s)[0]) && !IsSpace(Strip(s)[|Strip(s)| - 1]))
  {
  }

  /** A string that is only whitespace strips to nothing. */
  lemma StripAllSpace(s: string)
    requires forall k :: 0 <= k < |s| ==> IsSpace(s[k])
    ensures Strip(s) == ""
  {
  }

  /** Two strings of one length with whitespace at the same positions. */
  predicate SpaceAligned(s: string, t: string) {
    |s| == |t| && forall i :: 0 <= i < |s| ==> (IsSpace(s[i]) <==> IsSpace(t[i]))
  }

  lemma {:induction false} LStripAligned(s: string, t: string)
    requires SpaceAligned(s, t)
    ensures |LStrip(s)| == |LStrip(t)|
    decreases |s|
  {
    if s != [] && IsSpace(s[0]) {
      assert SpaceAligned(s[1..], t[1..]) by {
        forall i | 0 <= i < |s| - 1
          ensures IsSpace(s[1..][i]) <==> IsSpace(t[1..][i])
        {
          assert s[1..][i] == s[i + 1] && t[1..][i] == t[i + 1];
        }
      }
      LStripAligned(s[1..], t[1..]);
    }
  }

  lemma {:induction false} RStripAligned(s: string, t: string)
    requires SpaceAligned(s, t)
    ensures |RStrip(s)| == |RStrip(t)|
    decreases |s|
  {
    if s != [] && IsSpace(s[|s| - 1]) {
      var n := |s| - 1;
      assert SpaceAligned(s[..n], t[..n]) by {
        forall i | 0 <= i < n
          ensures IsSpace(s[..n][i]) <==> IsSpace(t[..n][i])
        {
          assert s[..n][i] == s[i] && t[..n][i] == t[i];
        }
      }
      RStripAligned(s[..n], t[..n]);
    }
  }

  /** `strip()` cuts two strings with whitespace at the same positions at the same places. */
  lemma StripAligned(s: string, t: string)
    requires SpaceAligned(s, t)
    ensures LeadingSpaces(s) == LeadingSpaces(t) && |Strip(s)| == |Strip(t)|
  {
    LStripAligned(s, t);
    var ls, lt := LStrip(s), LStrip(t);
    assert SpaceAligned(ls, lt) by {
      var k := |s| - |ls|;
      assert ls == s[k..] && lt == t[k..];
      forall i | 0 <= i < |ls|
        ensures IsSpace(ls[i]) <==> IsSpace(lt[i])
      {
        assert ls[i] == s[k + i] && lt[i] == t[k + i];
      }
    }
    RStripAligned(ls, lt);
    assert Strip(s) == RStrip(ls) && Strip(t) == RStrip(lt);
  }

  /** `sep.join(parts)` */
  function Join(parts: seq<string>, sep: string): (r: string)
    ensures parts == [] ==> r == ""
    ensures |parts| == 1 ==> r == parts[0]
    decreases |parts|
  {
    if parts == [] then ""
    else if |parts| == 1 then parts[0]
    else Join(parts[..|parts| - 1], sep) + sep + parts[|parts| - 1]
  }

  /** The joined string ends with the last part, preceded by the separator when there are others. */
  lemma JoinLast(parts: seq<string>, sep: string)
    requires parts != []
    ensures EndsWith(Join(parts, sep), parts[|parts| - 1])
    ensures |parts| > 1 ==> Join(parts, sep) == Join(parts[..|parts| - 1], sep) + sep + parts[|parts| - 1]
  {
  }

  /** `s[:n]` */
  function Take(s: string, n: nat): (r: string)
    ensures |r| <= n && StartsWith(s, r)
    ensures |s| <= n ==> r == s
    ensures |s| > n ==> |r| == n
  {
    if |s| <= n then s else s[..n]
  }

  /** `s.find(c)`: index of the first occurrence of `c`, or -1. */
  function Find(s: string, c: char): (r: int)
    ensures -1 <= r < |s|
    ensures r >= 0 ==> s[r] == c && forall k :: 0 <= k < r ==> s[k] != c
    ensures r == -1 ==> forall k :: 0 <= k < |s| ==> s[k] != c
    decreases |s|
  {
    if s == [] then -1
    else if s[0] == c then 0
    else var k := Find(s[1..], c); if k == -1 then -1 else k + 1
  }

  /** `s.rfind(c)`: index of the last occurrence of `c`, or -1. */
  function RFind(s: string, c: char): (r: int)
    ensures -1 <= r < |s|
    ensures r >= 0 ==> s[r] == c && forall k :: r < k < |s| ==> s[k] != c
    ensures r == -1 ==> forall k :: 0 <= k < |s| ==> s[k] != c
    decreases |s|
  {
    if s == [] then -1
    else if s[|s| - 1] == c then |s| - 1
    else RFind(s[..|s| - 1], c)
  }

  /** `s.replace(a, b)` for single characters. */
  function ReplaceChar(s: string, a: char, b: char): (r: string)
    ensures |r| == |s|
    ensures forall i :: 0 <= i < |s| ==> r[i] == (if s[i] == a then b else s[i])
  {
    seq(|s|, i requires 0 <= i < |s| => if s[i] == a then b else s[i])
  }
}
