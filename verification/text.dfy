/** The handful of Python `str` operations the system relies on, over
    strings as sequences of Unicode scalar values.

    Whitespace is Python's `str.isspace` set (which is also what `\s`,
    `str.split()` and `str.strip()` use). Case mapping covers ASCII letters
    only; word characters for `\b` are ASCII letters, digits and `_`. */
module Text {
  import opened Seqs

  /** Python `str.isspace()` for one character. */
  predicate IsSpace(c: char) {
    || c == ' '
    || ('\t' <= c <= '\r')
    || ('\U{1C}' <= c <= '\U{1F}')
    || c == '\U{85}' || c == '\U{A0}' || c == '\U{1680}'
    || ('\U{2000}' <= c <= '\U{200A}')
    || c == '\U{2028}' || c == '\U{2029}' || c == '\U{202F}'
    || c == '\U{205F}' || c == '\U{3000}'
  }

  predicate IsDigit(c: char) {
    '0' <= c <= '9'
  }

  /** A character matched by the regular-expression class `\w`. */
  predicate IsWordChar(c: char) {
    ('a' <= c <= 'z') || ('A' <= c <= 'Z') || IsDigit(c) || c == '_'
  }

  function LowerChar(c: char): char {
    if 'A' <= c <= 'Z' then (c as int + 32) as char else c
  }

  function UpperChar(c: char): char {
    if 'a' <= c <= 'z' then (c as int - 32) as char else c
  }

  /** Python `s.lower()`. */
  function Lower(s: string): (r: string)
    ensures |r| == |s|
    ensures forall i :: 0 <= i < |s| ==> r[i] == LowerChar(s[i])
  {
    seq(|s|, i requires 0 <= i < |s| => LowerChar(s[i]))
  }

  /** Lower-casing keeps every space where it is and makes no new one. */
  lemma {:induction false} LowerSpaces(s: string)
    ensures multiset(Lower(s))[' '] == multiset(s)[' ']
  {
    if |s| > 0 {
      var t := s[1..];
      LowerSpaces(t);
      assert s == [s[0]] + t;
      assert multiset(s)[' '] == multiset([s[0]])[' '] + multiset(t)[' '];
      LowerCons(s[0], t);
      assert multiset(Lower(s))[' '] == multiset([LowerChar(s[0])])[' '] + multiset(Lower(t))[' '];
      assert LowerChar(s[0]) == ' ' <==> s[0] == ' ';
    }
  }

  lemma LowerCons(c: char, t: string)
    ensures Lower([c] + t) == [LowerChar(c)] + Lower(t)
  {
    LowerConcat([c], t);
  }

  lemma LowerIdempotent(s: string)
    ensures Lower(Lower(s)) == Lower(s)
  {
  }

  lemma LowerConcat(a: string, b: string)
    ensures Lower(a + b) == Lower(a) + Lower(b)
  {
  }

  /** Python `s.capitalize()`: first character upper-cased, the rest lower-cased. */
  function Capitalize(s: string): (r: string)
    ensures |r| == |s|
    ensures |s| > 0 ==> r[0] == UpperChar(s[0])
    ensures forall i :: 0 < i < |s| ==> r[i] == LowerChar(s[i])
  {
    if |s| == 0 then "" else [UpperChar(s[0])] + Lower(s[1..])
  }

  /** Python `s.replace(a, b)` for single characters `a` and `b`. */
  function Replace(s: string, a: char, b: char): (r: string)
    ensures |r| == |s|
    ensures forall i :: 0 <= i < |s| ==> r[i] == (if s[i] == a then b else s[i])
    ensures a != b ==> a !in r
  {
    seq(|s|, i requires 0 <= i < |s| => if s[i] == a then b else s[i])
  }

  /** Replacing distributes over concatenation. */
  lemma ReplaceConcat(s: string, t: string, a: char, b: char)
    ensures Replace(s + t, a, b) == Replace(s, a, b) + Replace(t, a, b)
  {
  }

  /** Python `s.replace(c, "")`. */
  function Delete(s: string, c: char): (r: string)
    ensures c !in r
    ensures forall x :: x in r <==> x in s && x != c
    ensures Subseq(r, s)
    ensures |r| == |s| - multiset(s)[c]
  {
    if |s| == 0 then ""
    else
      var rest := Delete(s[1..], c);
      assert s == [s[0]] + s[1..];
      assert multiset(s)[c] == multiset(s[1..])[c] + (if s[0] == c then 1 else 0);
      if s[0] == c then
        SubseqTail(rest, s);
        rest
      else [s[0]] + rest
  }

  /** Deleting distributes over concatenation. */
  lemma {:induction false} DeleteConcat(a: string, b: string, c: char)
    ensures Delete(a + b, c) == Delete(a, c) + Delete(b, c)
  {
    if |a| > 0 {
      assert (a + b)[0] == a[0] && (a + b)[1..] == a[1..] + b;
      DeleteConcat(a[1..], b, c);
      ConcatAssoc([a[0]], Delete(a[1..], c), Delete(b, c));
    } else {
      assert a + b == b;
    }
  }

  /** Deleting a character that does not occur changes nothing. */
  lemma {:induction false} DeleteAbsent(s: string, c: char)
    requires c !in s
    ensures Delete(s, c) == s
  {
    if |s| > 0 {
      DeleteAbsent(s[1..], c);
      assert s == [s[0]] + s[1..];
    }
  }

  /** Two words without `c`, joined by one `c`, lose just that `c`. */
  lemma DeleteOneSpace(a: string, b: string, c: char)
    requires c !in a && c !in b
    ensures Delete(a + [c] + b, c) == a + b
  {
    var cb := [c] + b;
    assert a + [c] + b == a + cb;
    DeleteLeading(b, c);
    DeleteAbsent(b, c);
    assert Delete(cb, c) == b;
    DeleteAbsent(a, c);
    DeleteConcat(a, cb, c);
  }

  /** A leading `c` is deleted. */
  lemma DeleteLeading(b: string, c: char)
    ensures Delete([c] + b, c) == Delete(b, c)
  {
    assert ([c] + b)[1..] == b;
  }

  /** `needle` occurs in `hay` starting at index `i`. */
  predicate MatchAt(hay: string, needle: string, i: int) {
    0 <= i && i + |needle| <= |hay| && hay[i..i + |needle|] == needle
  }

  /** Python `needle in hay` for strings. */
  predicate Contains(hay: string, needle: string) {
    exists i :: 0 <= i <= |hay| - |needle| && MatchAt(hay, needle, i)
  }

  lemma ContainsEmpty(hay: string)
    ensures Contains(hay, "")
  {
    assert MatchAt(hay, "", 0);
  }

  /** An occurrence survives putting text on either side. */
  lemma ContainsWiden(hay: string, needle: string, before: string, after: string)
    requires Contains(hay, needle)
    ensures Contains(before + hay + after, needle)
  {
    var i :| 0 <= i <= |hay| - |needle| && MatchAt(hay, needle, i);
    var w := before + hay + after;
    assert w[|before| + i..|before| + i + |needle|] == hay[i..i + |needle|];
    assert MatchAt(w, needle, |before| + i);
  }

  /** An occurrence of an occurrence is an occurrence. */
  lemma ContainsTransitive(a: string, b: string, c: string)
    requires Contains(a, b) && Contains(b, c)
    ensures Contains(a, c)
  {
    var i :| 0 <= i <= |a| - |b| && MatchAt(a, b, i);
    var j :| 0 <= j <= |b| - |c| && MatchAt(b, c, j);
    forall k | 0 <= k < |c|
      ensures a[i + j + k] == c[k]
    {
      assert a[i + j + k] == a[i..i + |b|][j + k] == b[j + k] == b[j..j + |c|][k];
    }
    assert a[i + j..i + j + |c|] == c;
    assert MatchAt(a, c, i + j);
  }

  /** Lower-casing preserves occurrences. */
  lemma ContainsLower(hay: string, needle: string)
    requires Contains(hay, needle)
    ensures Contains(Lower(hay), Lower(needle))
  {
    var i :| 0 <= i <= |hay| - |needle| && MatchAt(hay, needle, i);
    assert Lower(hay)[i..i + |needle|] == Lower(needle);
    assert MatchAt(Lower(hay), Lower(needle), i);
  }

  /** Number of leading whitespace characters. */
  function LeadingSpaces(s: string): (n: nat)
    ensures n <= |s|
    ensures forall i :: 0 <= i < n ==> IsSpace(s[i])
    ensures n < |s| ==> !IsSpace(s[n])
  {
    if |s| > 0 && IsSpace(s[0]) then 1 + LeadingSpaces(s[1..]) else 0
  }

  /** `s` without its trailing whitespace (Python `s.rstrip()`). */
  function TrimEnd(s: string): (r: string)
    ensures |r| <= |s| && r == s[..|r|]
    ensures forall i :: |r| <= i < |s| ==> IsSpace(s[i])
    ensures |r| > 0 ==> !IsSpace(r[|r| - 1])
  {
    if |s| > 0 && IsSpace(s[|s| - 1]) then TrimEnd(s[..|s| - 1]) else s
  }

  /** Python `s.strip()`: the slice of `s` left once the whitespace at both
      ends is removed. */
  function Strip(s: string): (r: string)
    ensures LeadingSpaces(s) + |r| <= |s|
    ensures r == s[LeadingSpaces(s)..LeadingSpaces(s) + |r|]
    ensures forall i :: 0 <= i < LeadingSpaces(s) ==> IsSpace(s[i])
    ensures forall i :: LeadingSpaces(s) + |r| <= i < |s| ==> IsSpace(s[i])
    ensures |r| > 0 ==> !IsSpace(r[0]) && !IsSpace(r[|r| - 1])
  {
    TrimEnd(s[LeadingSpaces(s)..])
  }

  /** Stripping only removes characters. */
  lemma StripExcludes(s: string, c: char)
    requires c !in s
    ensures c !in Strip(s)
  {
  }

  /** Index `i` begins a maximal run of non-whitespace characters. */
  predicate StartsWord(s: string, i: int) {
    0 <= i < |s| && !IsSpace(s[i]) && (i == 0 || IsSpace(s[i - 1]))
  }

  /** Python `len(s.split())`: the number of whitespace-separated words. */
  function WordCount(s: string): nat {
    if |s| == 0 then 0
    else WordCount(s[..|s| - 1]) + (if StartsWord(s, |s| - 1) then 1 else 0)
  }
}
