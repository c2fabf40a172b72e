/**
 * Small shared vocabulary: optional values, results with an error side,
 * string suffixes, subsequences, and the whitespace trimming that
 * JavaScript's `String.prototype.trim` performs.
 */
module Common {

  datatype Option<+T> = None | Some(value: T)

  datatype Result<+T, +E> = Ok(value: T) | Err(error: E)

  /** `suffix` is a suffix of `s` (Python's `str.endswith`). */
  predicate EndsWith(s: string, suffix: string)
  {
    |suffix| <= |s| && s[|s| - |suffix|..] == suffix
  }

  /**
   * ECMAScript WhiteSpace and LineTerminator code points: exactly the
   * characters `trim` strips from either end of a string.
   */
  predicate IsJsWhitespace(c: char)
  {
    || c == '\t' || c == '\n' || c == '\U{000B}' || c == '\U{000C}' || c == '\r'
    || c == ' ' || c == '\U{00A0}' || c == '\U{1680}'
    || ('\U{2000}' <= c <= '\U{200A}')
    || c == '\U{2028}' || c == '\U{2029}' || c == '\U{202F}' || c == '\U{205F}'
    || c == '\U{3000}' || c == '\U{FEFF}'
  }

  /** Every character of `s` is whitespace (the empty string included). */
  predicate IsBlank(s: string)
  {
    forall i :: 0 <= i < |s| ==> IsJsWhitespace(s[i])
  }

  /** Drops the leading whitespace of `s`. */
  function TrimStart(s: string): (r: string)
    ensures |r| <= |s| && r == s[|s| - |r|..]
    ensures IsBlank(s[..|s| - |r|])
    ensures r == [] || !IsJsWhitespace(r[0])
  {
    if s != [] && IsJsWhitespace(s[0]) then
      var r := TrimStart(s[1..]);
      assert s[1..][..|s| - 1 - |r|] == s[1..|s| - |r|];
      r
    else
      s
  }

  /** Drops the trailing whitespace of `s`. */
  function TrimEnd(s: string): (r: string)
    ensures |r| <= |s| && r == s[..|r|]
    ensures IsBlank(s[|r|..])
    ensures r == [] || !IsJsWhitespace(r[|r| - 1])
  {
    if s != [] && IsJsWhitespace(s[|s| - 1]) then
      var r := TrimEnd(s[..|s| - 1]);
      assert s[..|s| - 1][|r|..] == s[|r|..|s| - 1];
      r
    else
      s
  }

  /** JavaScript's `s.trim()`. */
  function Trim(s: string): (r: string)
  {
    TrimEnd(TrimStart(s))
  }

  /**
   * `s.trim()` is the empty string, the falsy value the source's guards
   * test for, exactly when `s` is blank.
   */
  lemma TrimEmptyIffBlank(s: string)
    ensures Trim(s) == [] <==> IsBlank(s)
  {
    var t := TrimStart(s);
    if Trim(s) == [] {
      assert s[..|s| - |t|] == s;
    }
  }

  /** The guard `!s.trim()`: trimming leaves nothing exactly when `s` is blank. */
  method TrimmedIsEmpty(s: string) returns (b: bool)
    ensures b <==> IsBlank(s)
  {
    TrimEmptyIffBlank(s);
    b := Trim(s) == [];
  }

  /** `sub` is obtained from `s` by dropping elements (order kept). */
  predicate IsSubsequence<T(==)>(sub: seq<T>, s: seq<T>)
    decreases |s|
  {
    if sub == [] then true
    else if s == [] then false
    else if sub[0] == s[0] then IsSubsequence(sub[1..], s[1..])
    else IsSubsequence(sub, s[1..])
  }

  lemma {:induction false} SubsequenceAppend<T>(a: seq<T>, a': seq<T>, b: seq<T>, b': seq<T>)
    requires IsSubsequence(a, a') && IsSubsequence(b, b')
    ensures IsSubsequence(a + b, a' + b')
    decreases |a'|
  {
    if a == [] {
      assert a + b == b;
      SubsequenceAppendRight(b, b', a');
    } else {
      assert (a + b)[0] == a[0] && (a' + b')[0] == a'[0];
      assert (a' + b')[1..] == a'[1..] + b';
      if a[0] == a'[0] {
        assert (a + b)[1..] == a[1..] + b;
        SubsequenceAppend(a[1..], a'[1..], b, b');
      } else {
        SubsequenceAppend(a, a'[1..], b, b');
      }
    }
  }

  /** Putting material in front of the larger sequence keeps a subsequence one. */
  lemma {:induction false} SubsequenceAppendRight<T>(b: seq<T>, b': seq<T>, a': seq<T>)
    requires IsSubsequence(b, b')
    ensures IsSubsequence(b, a' + b')
    decreases |a'|
  {
    if a' == [] {
      assert a' + b' == b';
    } else {
      SubsequenceAppendRight(b, b', a'[1..]);
      assert a' + b' == [a'[0]] + (a'[1..] + b');
      SubsequenceWeaken(b, a'[1..] + b', a'[0]);
    }
  }

  /** Dropping the first element of a subsequence keeps it a subsequence. */
  lemma {:induction false} SubsequenceSkipMatch<T>(b: seq<T>, t: seq<T>)
    requires b != [] && IsSubsequence(b, t)
    ensures IsSubsequence(b[1..], t)
    decreases |t|, 0
  {
    assert t == [t[0]] + t[1..];
    if b[0] == t[0] {
      SubsequenceWeaken(b[1..], t[1..], t[0]);
    } else {
      SubsequenceSkipMatch(b, t[1..]);
      SubsequenceWeaken(b[1..], t[1..], t[0]);
    }
  }

  lemma {:induction false} SubsequenceWeaken<T>(b: seq<T>, t: seq<T>, x: T)
    requires IsSubsequence(b, t)
    ensures IsSubsequence(b, [x] + t)
    decreases |t|, 1
  {
    assert ([x] + t)[0] == x && ([x] + t)[1..] == t;
    if b != [] && b[0] == x {
      SubsequenceSkipMatch(b, t);
    }
  }

  /** A common first element keeps a subsequence one. */
  lemma SubsequenceCons<T>(x: T, t: seq<T>, t': seq<T>)
    requires IsSubsequence(t, t')
    ensures IsSubsequence([x] + t, [x] + t')
  {
    assert ([x] + t)[1..] == t && ([x] + t')[1..] == t';
  }
}
