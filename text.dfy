/**
 * The two pieces of Python string handling the game relies on:
 * `str.strip()` (remove surrounding whitespace) and `str.lower()`.
 */
module Text {

  /** The characters for which Python's `str.isspace()` holds, i.e. the ones
      `str.strip()` with no argument removes. */
  predicate IsSpace(c: char)
  {
    || c == ' '
    || '\t' <= c <= '\r'
    || '\U{1C}' <= c <= '\U{1F}'
    || c == '\U{85}' || c == '\U{A0}' || c == '\U{1680}'
    || '\U{2000}' <= c <= '\U{200A}'
    || c == '\U{2028}' || c == '\U{2029}' || c == '\U{202F}'
    || c == '\U{205F}' || c == '\U{3000}'
  }

  predicate AllSpace(s: string)
  {
    forall i :: 0 <= i < |s| ==> IsSpace(s[i])
  }

  /** Neither the first nor the last character is whitespace. */
  predicate Trimmed(s: string)
  {
    s == [] || (!IsSpace(s[0]) && !IsSpace(s[|s| - 1]))
  }

  /** `str.lstrip()`: the longest suffix of `s` that does not start with whitespace. */
  function TrimStart(s: string): (r: string)
    ensures |r| <= |s| && r == s[|s| - |r|..]
    ensures r == [] || !IsSpace(r[0])
  {
    if s != [] && IsSpace(s[0]) then TrimStart(s[1..]) else s
  }

  /** What TrimStart removes is whitespace. */
  lemma {:induction false} TrimStartDropsSpace(s: string)
    ensures AllSpace(s[..|s| - |TrimStart(s)|])
  {
    if s != [] && IsSpace(s[0]) {
      var t := s[1..];
      TrimStartDropsSpace(t);
      var k := |t| - |TrimStart(t)|;
      assert |s| - |TrimStart(s)| == k + 1;
      assert s[..k + 1] == [s[0]] + t[..k];
    }
  }

  /** `str.rstrip()`: the longest prefix of `s` that does not end with whitespace. */
  function TrimEnd(s: string): (r: string)
    ensures |r| <= |s| && r == s[..|r|]
    ensures r == [] || !IsSpace(r[|r| - 1])
  {
    if s != [] && IsSpace(s[|s| - 1]) then TrimEnd(s[..|s| - 1]) else s
  }

  /** What TrimEnd removes is whitespace. */
  lemma {:induction false} TrimEndDropsSpace(s: string)
    ensures AllSpace(s[|TrimEnd(s)|..])
  {
    if s != [] && IsSpace(s[|s| - 1]) {
      TrimEndDropsSpace(s[..|s| - 1]);
      assert s[|TrimEnd(s)|..] == s[..|s| - 1][|TrimEnd(s[..|s| - 1])|..] + [s[|s| - 1]];
    }
  }

  /** `str.strip()`: `s` without its leading and trailing whitespace. */
  function Strip(s: string): (r: string)
    ensures Trimmed(r)
    ensures |r| <= |s|
  {
    var t := TrimStart(s);
    var r := TrimEnd(t);
    assert r != [] ==> r[0] == t[0];
    r
  }

  /** Strip keeps a middle stretch of `s` and removes only whitespace around it. */
  lemma StripRemovesOnlySpace(s: string)
    ensures Strip(s) == s[|s| - |TrimStart(s)|..][..|Strip(s)|]
    ensures AllSpace(s[..|s| - |TrimStart(s)|])
    ensures AllSpace(TrimStart(s)[|Strip(s)|..])
  {
    TrimStartDropsSpace(s);
    TrimEndDropsSpace(TrimStart(s));
  }

  /** A trimmed text is its own stripped form. */
  lemma StripTrimmed(m: string)
    requires Trimmed(m)
    ensures Strip(m) == m
  {
  }

  /** A text of whitespace only strips to the empty text. */
  lemma StripAllSpace(s: string)
    requires AllSpace(s)
    ensures Strip(s) == []
  {
  }

  /** Leading whitespace does not reach TrimStart's result. */
  lemma {:induction false} TrimStartPadded(a: string, s: string)
    requires AllSpace(a)
    ensures TrimStart(a + s) == TrimStart(s)
  {
    if a != [] {
      assert (a + s)[0] == a[0];
      assert (a + s)[1..] == a[1..] + s;
      TrimStartPadded(a[1..], s);
    } else {
      assert a + s == s;
    }
  }

  /** Trailing whitespace does not reach TrimEnd's result. */
  lemma {:induction false} TrimEndPadded(s: string, b: string)
    requires AllSpace(b)
    ensures TrimEnd(s + b) == TrimEnd(s)
  {
    if b != [] {
      var sb := s + b;
      assert sb[|sb| - 1] == b[|b| - 1];
      assert sb[..|sb| - 1] == s + b[..|b| - 1];
      TrimEndPadded(s, b[..|b| - 1]);
    } else {
      assert s + b == s;
    }
  }

  /** TrimStart passes over text it does not eat: once it stops inside `s`,
      whatever follows `s` is kept. */
  lemma {:induction false} TrimStartAppend(s: string, b: string)
    ensures TrimStart(s) != [] ==> TrimStart(s + b) == TrimStart(s) + b
    ensures TrimStart(s) == [] ==> TrimStart(s + b) == TrimStart(b)
  {
    if s == [] {
      assert s + b == b;
    } else {
      assert (s + b)[0] == s[0];
      assert (s + b)[1..] == s[1..] + b;
      if IsSpace(s[0]) {
        TrimStartAppend(s[1..], b);
      }
    }
  }

  /** Whitespace around the input does not change the stripped text. */
  lemma StripIgnoresPadding(a: string, s: string, b: string)
    requires AllSpace(a) && AllSpace(b)
    ensures Strip(a + s + b) == Strip(s)
  {
    assert a + s + b == a + (s + b);
    TrimStartPadded(a, s + b);
    TrimStartAppend(s, b);
    if TrimStart(s) != [] {
      TrimEndPadded(TrimStart(s), b);
    } else {
      TrimStartPadded(b, []);
      assert b + [] == b;
    }
  }

  /** Stripping twice is stripping once. */
  lemma StripIdempotent(s: string)
    ensures Strip(Strip(s)) == Strip(s)
  {
    StripTrimmed(Strip(s));
  }

  /** Python's `str.lower()` on one character, for the Latin-1 range (ASCII
      `A`-`Z` and the accented capitals `À`-`Þ` other than `×`). */
  function LowerChar(c: char): char
  {
    if 'A' <= c <= 'Z' || ('\U{C0}' <= c <= '\U{DE}' && c != '\U{D7}') then
      (c as int + 32) as char
    else
      c
  }

  /** `str.lower()`, character by character. */
  function Lower(s: string): (r: string)
    ensures |r| == |s|
    ensures forall i :: 0 <= i < |s| ==> r[i] == LowerChar(s[i])
  {
    if s == [] then [] else [LowerChar(s[0])] + Lower(s[1..])
  }

  /** Lower-casing is idempotent. */
  lemma LowerIdempotent(s: string)
    ensures Lower(Lower(s)) == Lower(s)
  {
  }

  /** Lower-casing maps whitespace to itself and text to text. */
  lemma LowerCharSpace(c: char)
    ensures IsSpace(LowerChar(c)) == IsSpace(c)
    ensures IsSpace(c) ==> LowerChar(c) == c
  {
  }

  lemma {:induction false} TrimStartLower(s: string)
    ensures TrimStart(Lower(s)) == Lower(TrimStart(s))
  {
    if s != [] {
      var l := Lower(s);
      assert l[0] == LowerChar(s[0]);
      LowerCharSpace(s[0]);
      if IsSpace(s[0]) {
        assert l[1..] == Lower(s[1..]);
        TrimStartLower(s[1..]);
      } else {
        assert TrimStart(l) == l;
      }
    }
  }

  lemma {:induction false} TrimEndLower(s: string)
    ensures TrimEnd(Lower(s)) == Lower(TrimEnd(s))
  {
    if s != [] {
      var l := Lower(s);
      assert l[|s| - 1] == LowerChar(s[|s| - 1]);
      LowerCharSpace(s[|s| - 1]);
      if IsSpace(s[|s| - 1]) {
        LowerPrefix(s, |s| - 1);
        TrimEndLower(s[..|s| - 1]);
      } else {
        assert TrimEnd(l) == l;
      }
    }
  }

  lemma LowerPrefix(s: string, k: nat)
    requires k <= |s|
    ensures Lower(s)[..k] == Lower(s[..k])
  {
  }

  /** Lower-casing never turns whitespace into text or back, so stripping
      and lower-casing commute. */
  lemma StripLower(s: string)
    ensures Strip(Lower(s)) == Lower(Strip(s))
  {
    TrimStartLower(s);
    TrimEndLower(TrimStart(s));
  }
}
