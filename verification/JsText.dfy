/**
 * The JavaScript string operations the wizard relies on: truthiness of a
 * value that is null or a string, global `replace` with a negated character
 * class (a filter), `String.prototype.trim`, and the decimal digits `\d`.
 */
module JsText {

  /** A JavaScript value that is either `null`/`undefined` or a string. */
  datatype JsStr = Null | Str(s: string) {
    /** JavaScript truthiness: `null`, `undefined` and `''` are falsy, every other string is truthy. */
    predicate Truthy() {
      Str? && s != ""
    }
  }

  datatype Option<T> = None | Some(value: T)

  /** `\d` of a regular expression without the `u` flag: the ASCII digits. */
  predicate IsDigit(c: char) {
    '0' <= c <= '9'
  }

  /** The regular-expression character classes the page filters and scans with. */
  datatype CharClass =
    | Digits          // `\d`
    | DigitsAndPlus   // `[\d+]`
    | NotQuestion     // `[^?]`: what a URL path may hold before its query

  predicate InClass(c: char, k: CharClass) {
    match k
    case Digits => IsDigit(c)
    case DigitsAndPlus => IsDigit(c) || c == '+'
    case NotQuestion => c != '?'
  }

  /**
   * The characters of `s` in the class `keep`, in order: what
   * `s.replace(/[^...]/g, '')` leaves when `[...]` is `keep`.
   */
  function Keep(s: string, keep: CharClass): (r: string)
    ensures |r| <= |s|
    ensures forall i :: 0 <= i < |r| ==> InClass(r[i], keep)
  {
    if s == [] then [] else (if InClass(s[0], keep) then [s[0]] else []) + Keep(s[1..], keep)
  }

  /** `s.replace(/\D/g, '')`: the digits of `s`, in order. */
  function DigitsOnly(s: string): (r: string)
    ensures forall i :: 0 <= i < |r| ==> IsDigit(r[i])
  {
    Keep(s, Digits)
  }

  /** `a` can be obtained from `b` by deleting characters. */
  predicate IsSubsequence(a: string, b: string)
    decreases |b|
  {
    if a == [] then true
    else if b == [] then false
    else (a[0] == b[0] && IsSubsequence(a[1..], b[1..])) || IsSubsequence(a, b[1..])
  }

  lemma {:induction false} KeepAppend(a: string, b: string, keep: CharClass)
    ensures Keep(a + b, keep) == Keep(a, keep) + Keep(b, keep)
  {
    if a == [] {
      assert a + b == b;
    } else {
      assert (a + b)[0] == a[0];
      assert (a + b)[1..] == a[1..] + b;
      KeepAppend(a[1..], b, keep);
    }
  }

  /** Filtering only deletes characters: the result is a subsequence of the input. */
  lemma {:induction false} KeepIsSubsequence(s: string, keep: CharClass)
    ensures IsSubsequence(Keep(s, keep), s)
  {
    if s != [] {
      KeepIsSubsequence(s[1..], keep);
      var rest := Keep(s[1..], keep);
      if InClass(s[0], keep) {
        assert Keep(s, keep) == [s[0]] + rest;
        assert ([s[0]] + rest)[1..] == rest;
      } else {
        assert Keep(s, keep) == rest;
        if rest != [] {
          assert IsSubsequence(rest, s[1..]);
        }
      }
    }
  }

  /** Every occurrence of a kept character survives; every other character disappears. */
  lemma {:induction false} KeepCounts(s: string, keep: CharClass, c: char)
    ensures multiset(Keep(s, keep))[c] == if InClass(c, keep) then multiset(s)[c] else 0
  {
    if s != [] {
      KeepCounts(s[1..], keep, c);
      assert s == [s[0]] + s[1..];
      assert multiset(s) == multiset([s[0]]) + multiset(s[1..]);
      var head := if InClass(s[0], keep) then [s[0]] else [];
      assert multiset(Keep(s, keep)) == multiset(head) + multiset(Keep(s[1..], keep));
    }
  }

  /** A string is left as it is exactly when every one of its characters is kept. */
  lemma {:induction false} KeepFixpoint(s: string, keep: CharClass)
    ensures Keep(s, keep) == s <==> forall i :: 0 <= i < |s| ==> InClass(s[i], keep)
  {
    if s != [] {
      KeepFixpoint(s[1..], keep);
      if forall i :: 0 <= i < |s| ==> InClass(s[i], keep) {
        assert forall i :: 0 <= i < |s[1..]| ==> InClass(s[1..][i], keep) by {
          forall i | 0 <= i < |s[1..]| ensures InClass(s[1..][i], keep) {
            assert s[1..][i] == s[i + 1];
          }
        }
        assert Keep(s, keep) == [s[0]] + s[1..] == s;
      } else if !InClass(s[0], keep) {
        assert |Keep(s, keep)| <= |s[1..]| < |s|;
      } else {
        var i :| 0 <= i < |s| && !InClass(s[i], keep);
        assert s[1..][i - 1] == s[i];
        assert Keep(s[1..], keep) != s[1..];
        assert Keep(s, keep)[1..] == Keep(s[1..], keep);
      }
    }
  }

  /** Filtering twice with the same class is filtering once. */
  lemma KeepIdempotent(s: string, keep: CharClass)
    ensures Keep(Keep(s, keep), keep) == Keep(s, keep)
  {
    KeepFixpoint(Keep(s, keep), keep);
  }

  /** Filtering with a wider class first does not change what a narrower class keeps. */
  lemma {:induction false} KeepNarrower(s: string, wide: CharClass, narrow: CharClass)
    requires forall c :: InClass(c, narrow) ==> InClass(c, wide)
    ensures Keep(Keep(s, wide), narrow) == Keep(s, narrow)
  {
    if s != [] {
      KeepNarrower(s[1..], wide, narrow);
      var head := if InClass(s[0], wide) then [s[0]] else [];
      KeepAppend(head, Keep(s[1..], wide), narrow);
      assert Keep(head, narrow) == if InClass(s[0], narrow) then [s[0]] else [] by {
        if InClass(s[0], wide) {
          assert head[1..] == [];
        }
      }
    }
  }

  /** The length of the longest prefix of `s` whose characters all satisfy `p`. */
  function RunLength(s: string, p: CharClass): (n: nat)
    ensures n <= |s|
    ensures forall i :: 0 <= i < n ==> InClass(s[i], p)
    ensures n < |s| ==> !InClass(s[n], p)
  {
    if s == [] || !InClass(s[0], p) then 0 else 1 + RunLength(s[1..], p)
  }

  /** The run of `p`-characters at the front of `a + b` is exactly `a` when `b` starts with a character outside `p`. */
  lemma {:induction false} RunLengthStopsAt(a: string, b: string, p: CharClass)
    requires forall i :: 0 <= i < |a| ==> InClass(a[i], p)
    requires b != [] && !InClass(b[0], p)
    ensures RunLength(a + b, p) == |a|
  {
    if a != [] {
      assert (a + b)[1..] == a[1..] + b;
      RunLengthStopsAt(a[1..], b, p);
    } else {
      assert a + b == b;
    }
  }

  /**
   * The characters `String.prototype.trim` removes: ECMAScript WhiteSpace
   * (TAB, VT, FF, ZWNBSP and the space separators of category Zs) and
   * LineTerminator (LF, CR, LS, PS).
   */
  predicate IsJsWhitespace(c: char) {
    c == '\t' || c == '\U{B}' || c == '\U{C}' || c == ' ' || c == '\U{A0}' || c == '\U{FEFF}'
    || c == '\U{1680}' || ('\U{2000}' <= c <= '\U{200A}') || c == '\U{202F}' || c == '\U{205F}'
    || c == '\U{3000}'
    || c == '\n' || c == '\r' || c == '\U{2028}' || c == '\U{2029}'
  }

  /** Drops the whitespace at the front: the result is the suffix of `s` after its leading whitespace. */
  function TrimStart(s: string): (r: string)
    ensures |r| <= |s| && r == s[|s| - |r|..]
    ensures forall k :: 0 <= k < |s| - |r| ==> IsJsWhitespace(s[k])
    ensures r == [] || !IsJsWhitespace(r[0])
  {
    if s != [] && IsJsWhitespace(s[0]) then TrimStart(s[1..]) else s
  }

  /** Drops the whitespace at the end: the result is the prefix of `s` before its trailing whitespace. */
  function TrimEnd(s: string): (r: string)
    ensures |r| <= |s| && r == s[..|r|]
    ensures forall k :: |r| <= k < |s| ==> IsJsWhitespace(s[k])
    ensures r == [] || !IsJsWhitespace(r[|r| - 1])
  {
    if s != [] && IsJsWhitespace(s[|s| - 1]) then TrimEnd(s[..|s| - 1]) else s
  }

  /** `s.trim()`. */
  function Trim(s: string): (r: string)
    ensures r == [] || (!IsJsWhitespace(r[0]) && !IsJsWhitespace(r[|r| - 1]))
    ensures r == [] <==> forall k :: 0 <= k < |s| ==> IsJsWhitespace(s[k])
    ensures (forall k :: 0 <= k < |s| ==> !IsJsWhitespace(s[k])) ==> r == s
  {
    TrimBothEnds(s);
    TrimEnd(TrimStart(s))
  }

  /**
   * `s.trim()` is a contiguous piece of `s`: it starts at `i`, and what lies
   * before and after it is white space.
   */
  lemma TrimIsInfix(s: string) returns (i: nat)
    ensures i + |Trim(s)| <= |s| && Trim(s) == s[i..i + |Trim(s)|]
    ensures forall k :: 0 <= k < i ==> IsJsWhitespace(s[k])
    ensures forall k :: i + |Trim(s)| <= k < |s| ==> IsJsWhitespace(s[k])
  {
    var front := TrimStart(s);
    i := |s| - |front|;
    var r := TrimEnd(front);
    assert Trim(s) == r;
    assert front[..|r|] == s[i..i + |r|];
    forall k | i + |r| <= k < |s|
      ensures IsJsWhitespace(s[k])
    {
      assert s[k] == front[k - i];
    }
  }

  lemma TrimBothEnds(s: string)
    ensures var r := TrimEnd(TrimStart(s));
      (r == [] || (!IsJsWhitespace(r[0]) && !IsJsWhitespace(r[|r| - 1])))
      && (r == [] <==> forall k :: 0 <= k < |s| ==> IsJsWhitespace(s[k]))
  {
    var front := TrimStart(s);
    var r := TrimEnd(front);
    if r == [] {
      assert |front| == 0;
    } else {
      assert r[0] == front[0];
    }
  }
}
