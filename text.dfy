/** The small part of Python's `str` methods and of `posixpath` that the
    scripts use to build and parse names: `startswith`, `endswith`,
    `split(c)[0]`, `split(c)[-1]`, `split(sep)` with a two-character
    separator, `replace(pat, "")`, `isdigit`, `int`, `"%d"`,
    `os.path.dirname` and `os.path.join`.  The path separator is '/'. */
module Text {
  import opened Wrappers

  type String = seq<char>

  predicate StartsWith(s: String, prefix: String)
  {
    |prefix| <= |s| && s[..|prefix|] == prefix
  }

  predicate EndsWith(s: String, suffix: String)
  {
    |suffix| <= |s| && s[|s| - |suffix|..] == suffix
  }

  /** `pat` occurs in `s` starting at index `i`. */
  predicate OccursAt(s: String, pat: String, i: int)
  {
    0 <= i <= |s| - |pat| && s[i..i + |pat|] == pat
  }

  /** `pat` occurs somewhere in `s`. */
  predicate Occurs(s: String, pat: String)
  {
    exists i :: 0 <= i <= |s| - |pat| && OccursAt(s, pat, i)
  }

  /** No proper suffix of `sep` is also a prefix of it, so two occurrences
      of `sep` never overlap ("_v" and ".pth" are such separators). */
  predicate NonOverlapping(sep: String)
  {
    forall j :: 0 < j < |sep| ==> sep[j..] != sep[..|sep| - j]
  }

  // ---------------------------------------------------------------------
  // split on one character

  /** `s.split(c)[0]`: the text before the first `c`, or all of `s`. */
  function FirstField(s: String, c: char): (r: String)
    ensures |r| <= |s| && r == s[..|r|]
    ensures c !in r
    ensures |r| < |s| ==> s[|r|] == c
  {
    if s == [] then []
    else if s[0] == c then []
    else [s[0]] + FirstField(s[1..], c)
  }

  /** `s.split(c)[-1]`: the text after the last `c`, or all of `s`. */
  function LastField(s: String, c: char): (r: String)
    ensures |r| <= |s| && r == s[|s| - |r|..]
    ensures c !in r
    ensures |r| < |s| ==> s[|s| - |r| - 1] == c
  {
    if s == [] then []
    else if s[|s| - 1] == c then []
    else LastField(s[..|s| - 1], c) + [s[|s| - 1]]
  }

  lemma {:induction false} FirstFieldOfJoined(k: String, c: char, rest: String)
    requires c !in k
    ensures FirstField(k + [c] + rest, c) == k
  {
    if k != [] {
      assert (k + [c] + rest)[1..] == k[1..] + [c] + rest;
      FirstFieldOfJoined(k[1..], c, rest);
    }
  }

  lemma {:induction false} LastFieldOfJoined(prefix: String, c: char, k: String)
    requires c !in k
    ensures LastField(prefix + [c] + k, c) == k
  {
    if k != [] {
      var s := prefix + [c] + k;
      assert s[..|s| - 1] == prefix + [c] + k[..|k| - 1];
      LastFieldOfJoined(prefix, c, k[..|k| - 1]);
    } else {
      assert (prefix + [c] + k)[|prefix|] == c;
    }
  }

  // ---------------------------------------------------------------------
  // split on a separator of several characters

  /** `s.split(sep)[-1]` when `len(s.split(sep)) > 1`, and `None` when `sep`
      does not occur, for a separator that cannot overlap itself (such as
      "_v"): the text after the last occurrence of `sep`. */
  function AfterLast(s: String, sep: String): (r: Option<String>)
    requires |sep| > 0 && NonOverlapping(sep)
    ensures r.Some? ==> EndsWith(s, sep + r.value) && !Occurs(r.value, sep)
    ensures r.None? ==> !Occurs(s, sep)
  {
    if |s| < |sep| then
      NoOccurrenceInShort(s, sep);
      None
    else if EndsWith(s, sep) then
      Some([])
    else
      var init, x := s[..|s| - 1], s[|s| - 1];
      assert s == init + [x];
      match AfterLast(init, sep)
      case None =>
        NoOccurrenceExtended(init, x, sep);
        None
      case Some(t) =>
        AfterLastExtended(init, x, sep, t);
        Some(t + [x])
  }

  /** The step of `AfterLast`: the text after the last `sep` grows by the
      character appended, as long as that character does not complete `sep`. */
  lemma AfterLastExtended(init: String, x: char, sep: String, t: String)
    requires |sep| > 0 && !EndsWith(init + [x], sep)
    requires EndsWith(init, sep + t) && !Occurs(t, sep)
    ensures EndsWith(init + [x], sep + (t + [x])) && !Occurs(t + [x], sep)
  {
    var s := init + [x];
    assert t + [x] == s[|s| - |t| - 1..];
    assert sep + (t + [x]) == s[|s| - |sep| - |t| - 1..];
    SuffixEndsWith(s, t + [x], sep);
    NoOccurrenceExtended(t, x, sep);
  }

  lemma NoOccurrenceInShort(s: String, pat: String)
    requires |s| < |pat|
    ensures !Occurs(s, pat)
  {
  }

  /** Appending one character to a text without `pat` can only create an
      occurrence at the very end. */
  lemma NoOccurrenceExtended(s: String, x: char, pat: String)
    requires |pat| > 0 && !Occurs(s, pat) && !EndsWith(s + [x], pat)
    ensures !Occurs(s + [x], pat)
  {
    var t := s + [x];
    forall i | 0 <= i <= |t| - |pat|
      ensures !OccursAt(t, pat, i)
    {
      if i + |pat| <= |s| {
        assert t[i..i + |pat|] == s[i..i + |pat|];
        assert !OccursAt(s, pat, i);
      } else {
        assert t[i..i + |pat|] == t[|t| - |pat|..];
      }
    }
  }

  /** A prefix of a text without `pat` has none either. */
  lemma NoOccurrenceInPrefix(s: String, n: nat, pat: String)
    requires n <= |s| && !Occurs(s, pat)
    ensures !Occurs(s[..n], pat)
  {
    forall i | 0 <= i <= n - |pat|
      ensures !OccursAt(s[..n], pat, i)
    {
      assert s[..n][i..i + |pat|] == s[i..i + |pat|];
      assert !OccursAt(s, pat, i);
    }
  }

  /** What a text ends with, any text it ends with ends with too. */
  lemma SuffixEndsWith(s: String, u: String, pat: String)
    requires |u| <= |s| && u == s[|s| - |u|..]
    ensures EndsWith(u, pat) ==> EndsWith(s, pat)
  {
    if EndsWith(u, pat) {
      assert s[|s| - |pat|..] == u[|u| - |pat|..];
    }
  }

  /** A text ending in `sep + k` with `k` shorter than `sep` can end in
      `sep` as well only if `sep` overlaps itself by `|sep| - |k|`. */
  lemma OverlapAtEnd(s: String, sep: String, k: String)
    requires 0 < |k| < |sep| && EndsWith(s, sep + k)
    ensures EndsWith(s, sep) ==> sep[|k|..] == sep[..|sep| - |k|]
  {
    var n := |s|;
    assert s[n - |sep| - |k|..] == sep + k;
    if EndsWith(s, sep) {
      assert sep[|k|..] == s[n - |sep|..n - |k|];
      assert sep[..|sep| - |k|] == s[n - |sep|..n - |k|];
    }
  }

  /** `prefix + sep + k` with a non-empty `k` free of `sep` does not end
      in `sep`. */
  lemma NotEndingInSeparator(prefix: String, sep: String, k: String)
    requires |sep| > 0 && NonOverlapping(sep) && !Occurs(k, sep) && k != []
    ensures !EndsWith(prefix + sep + k, sep)
  {
    var s := prefix + sep + k;
    if |k| >= |sep| {
      SuffixEndsWith(s, k, sep);
      assert !OccursAt(k, sep, |k| - |sep|);
    } else {
      assert s[|s| - |sep| - |k|..] == sep + k;
      OverlapAtEnd(s, sep, k);
      assert sep[|k|..] != sep[..|sep| - |k|];
    }
  }

  /** The text after the last "_v"-like separator of `prefix + sep + k` is
      `k` itself when `k` does not contain the separator. */
  lemma {:induction false} AfterLastOfJoined(prefix: String, sep: String, k: String)
    requires |sep| > 0 && NonOverlapping(sep) && !Occurs(k, sep)
    ensures AfterLast(prefix + sep + k, sep) == Some(k)
  {
    var s := prefix + sep + k;
    if k == [] {
      assert s[|s| - |sep|..] == sep;
    } else {
      var init, k' := s[..|s| - 1], k[..|k| - 1];
      assert init == prefix + sep + k';
      assert k' + [s[|s| - 1]] == k;
      NotEndingInSeparator(prefix, sep, k);
      NoOccurrenceInPrefix(k, |k| - 1, sep);
      AfterLastOfJoined(prefix, sep, k');
      assert AfterLast(s, sep) == Some(k' + [s[|s| - 1]]);
    }
  }

  // ---------------------------------------------------------------------
  // replace

  /** `s.replace(pat, "")`: every occurrence of `pat` found scanning from the
      left, without overlaps, is removed. */
  function RemoveAll(s: String, pat: String): (r: String)
    requires |pat| > 0
    ensures |r| <= |s|
    decreases |s|
  {
    if |s| < |pat| then s
    else if s[..|pat|] == pat then RemoveAll(s[|pat|..], pat)
    else [s[0]] + RemoveAll(s[1..], pat)
  }

  /** A text in which `pat` does not occur is left as it is. */
  lemma {:induction false} RemoveAllWithout(s: String, pat: String)
    requires |pat| > 0 && !Occurs(s, pat)
    ensures RemoveAll(s, pat) == s
    decreases |s|
  {
    if |s| >= |pat| {
      assert !OccursAt(s, pat, 0);
      forall i | 0 <= i <= |s[1..]| - |pat| ensures !OccursAt(s[1..], pat, i) {
        assert s[1..][i..i + |pat|] == s[i + 1..i + 1 + |pat|];
        assert !OccursAt(s, pat, i + 1);
      }
      RemoveAllWithout(s[1..], pat);
      assert [s[0]] + s[1..] == s;
    }
  }

  /** Removing ".pth" from a text of digits followed by ".pth" leaves the
      digits. */
  lemma {:induction false} RemovePthAfterDigits(d: String)
    requires forall i :: 0 <= i < |d| ==> IsDigit(d[i])
    ensures RemoveAll(d + ".pth", ".pth") == d
  {
    var s := d + ".pth";
    if d == [] {
      assert s[..4] == ".pth";
      assert s[4..] == [];
    } else {
      assert s[..4][0] == d[0];
      assert s[1..] == d[1..] + ".pth";
      RemovePthAfterDigits(d[1..]);
    }
  }

  // ---------------------------------------------------------------------
  // digits

  predicate IsDigit(c: char)
  {
    '0' <= c <= '9'
  }

  /** `s.isdigit()` for ASCII text: non-empty and all digits. */
  predicate IsDigits(s: String)
  {
    |s| > 0 && forall i :: 0 <= i < |s| ==> IsDigit(s[i])
  }

  function DigitValue(c: char): (d: nat)
    requires IsDigit(c)
    ensures d < 10
  {
    (c as int) - ('0' as int)
  }

  function DigitChar(d: nat): (c: char)
    requires d < 10
    ensures IsDigit(c) && DigitValue(c) == d
  {
    (('0' as int) + d) as char
  }

  /** `int(s)` for a text of ASCII digits, read most significant first. */
  function DigitsValue(s: String): nat
    requires forall i :: 0 <= i < |s| ==> IsDigit(s[i])
  {
    if s == [] then 0
    else 10 * DigitsValue(s[..|s| - 1]) + DigitValue(s[|s| - 1])
  }

  /** `"%d" % n` for a natural number. */
  function NatToString(n: nat): (r: String)
    ensures IsDigits(r) && DigitsValue(r) == n
    ensures !Occurs(r, "_v") && !Occurs(r, ".pth")
  {
    var last := [DigitChar(n % 10)];
    if n < 10 then
      DigitsWithoutPunctuation(last);
      last
    else
      var r := NatToString(n / 10) + last;
      assert r[..|r| - 1] == NatToString(n / 10);
      DigitsWithoutPunctuation(r);
      r
  }

  /** A text of digits contains neither "_v" nor ".pth". */
  lemma DigitsWithoutPunctuation(s: String)
    requires forall i :: 0 <= i < |s| ==> IsDigit(s[i])
    ensures !Occurs(s, "_v") && !Occurs(s, ".pth")
  {
    forall i | 0 <= i <= |s| - 2 ensures !OccursAt(s, "_v", i) {
      assert s[i..i + 2][0] == s[i];
    }
    forall i | 0 <= i <= |s| - 4 ensures !OccursAt(s, ".pth", i) {
      assert s[i..i + 4][0] == s[i];
    }
  }

  /** `"%d" % i` for any integer. */
  function IntToString(i: int): (r: String)
    ensures i >= 0 ==> IsDigits(r) && DigitsValue(r) == i
    ensures i < 0 ==> |r| >= 2 && r[0] == '-' && IsDigits(r[1..]) && DigitsValue(r[1..]) == -i
  {
    if i >= 0 then NatToString(i)
    else
      var r := "-" + NatToString(-i);
      assert r[1..] == NatToString(-i);
      r
  }

  /** `"%d"` tells integers apart: it reads back as the number it wrote. */
  lemma IntToStringInjective(i: int, j: int)
    requires IntToString(i) == IntToString(j)
    ensures i == j
  {
    var r := IntToString(i);
    assert i >= 0 <==> r[0] != '-';
    assert j >= 0 <==> r[0] != '-';
  }

  // ---------------------------------------------------------------------
  // paths

  /** `s.rstrip(c)`. */
  function RStrip(s: String, c: char): (r: String)
    ensures |r| <= |s| && r == s[..|r|]
    ensures r == [] || r[|r| - 1] != c
    ensures forall i :: |r| <= i < |s| ==> s[i] == c
  {
    if s == [] || s[|s| - 1] != c then s else RStrip(s[..|s| - 1], c)
  }

  /** `posixpath.dirname(p)`: the text up to the last '/', with trailing
      slashes removed unless it consists of slashes only. */
  function Dirname(p: String): (r: String)
    ensures |r| <= |p| - |LastField(p, '/')| && r == p[..|r|]
    ensures forall i :: |r| <= i < |p| - |LastField(p, '/')| ==> p[i] == '/'
    ensures r != [] <==> '/' in p
    ensures r != [] && r[|r| - 1] == '/' ==>
      |r| == |p| - |LastField(p, '/')| && forall i :: 0 <= i < |r| ==> r[i] == '/'
  {
    var head := p[..|p| - |LastField(p, '/')|];
    assert head != [] <==> '/' in p by {
      if head != [] {
        assert p[|head| - 1] == '/';
      } else {
        assert LastField(p, '/') == p;
      }
    }
    if head != [] && exists i :: 0 <= i < |head| && head[i] != '/' then
      var r := RStrip(head, '/');
      assert r != [] by {
        var i :| 0 <= i < |head| && head[i] != '/';
        assert i < |r|;
      }
      r
    else head
  }

  /** `posixpath.join(a, b)` for two components. */
  function Join(a: String, b: String): (r: String)
    ensures StartsWith(b, "/") ==> r == b
    ensures !StartsWith(b, "/") ==> EndsWith(r, b)
    ensures !StartsWith(b, "/") && (a == [] || EndsWith(a, "/")) ==> r == a + b
    ensures !StartsWith(b, "/") && a != [] && !EndsWith(a, "/") ==> r == a + "/" + b
  {
    if StartsWith(b, "/") then b
    else if a == [] || a[|a| - 1] == '/' then a + b
    else a + "/" + b
  }
}
