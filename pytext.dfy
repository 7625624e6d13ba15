/**
 * The parts of Python's `str` that the scraper relies on, as total functions over
 * `seq<char>`: `isspace`, `strip`, `split()`, `join`, `replace` of one character,
 * `isdigit`, `int`, `lower`, the substring test `in`, and `split(sep)`.
 */
module PyText {

  /** `c.isspace()`: the characters Python's `str.split()` and `str.strip()` treat as whitespace. */
  predicate IsSpace(c: char) {
    var n := c as int;
    (9 <= n <= 13) || (28 <= n <= 32) || n == 0x85 || n == 0xA0 || n == 0x1680
    || (0x2000 <= n <= 0x200A) || n == 0x2028 || n == 0x2029 || n == 0x202F
    || n == 0x205F || n == 0x3000
  }

  predicate NoSpace(s: string) {
    forall i :: 0 <= i < |s| ==> !IsSpace(s[i])
  }

  predicate AllSpace(s: string) {
    forall i :: 0 <= i < |s| ==> IsSpace(s[i])
  }

  /** A list of words as `str.split()` produces them: non-empty and free of whitespace. */
  predicate IsWords(ws: seq<string>) {
    forall i :: 0 <= i < |ws| ==> ws[i] != [] && NoSpace(ws[i])
  }

  /**
   * A string in the form `' '.join(s.split())` gives: no whitespace at either end,
   * no whitespace other than the plain space, and never two spaces in a row.
   */
  ghost predicate Collapsed(r: string) {
    && (r == [] || (!IsSpace(r[0]) && !IsSpace(r[|r| - 1])))
    && (forall i :: 0 <= i < |r| && IsSpace(r[i]) ==> r[i] == ' ')
    && (forall i :: 0 <= i < |r| - 1 && IsSpace(r[i]) ==> !IsSpace(r[i + 1]))
  }

  // ---------------------------------------------------------------- strip

  /** The number of whitespace characters `lstrip` removes. */
  function LeadingSpaces(s: string): (n: nat)
    ensures n <= |s|
    ensures forall k :: 0 <= k < n ==> IsSpace(s[k])
    ensures n < |s| ==> !IsSpace(s[n])
  {
    if s != [] && IsSpace(s[0]) then
      var n := 1 + LeadingSpaces(s[1..]);
      assert forall k :: 1 <= k < n ==> s[k] == s[1..][k - 1];
      n
    else 0
  }

  /** The number of whitespace characters `rstrip` removes. */
  function TrailingSpaces(s: string): (n: nat)
    ensures n <= |s|
    ensures forall k :: |s| - n <= k < |s| ==> IsSpace(s[k])
    ensures n < |s| ==> !IsSpace(s[|s| - n - 1])
  {
    if s != [] && IsSpace(s[|s| - 1]) then
      var n := 1 + TrailingSpaces(s[..|s| - 1]);
      assert forall k :: |s| - n <= k < |s| - 1 ==> s[k] == s[..|s| - 1][k];
      n
    else 0
  }

  /**
   * `s.strip()`: the slice of `s` between its leading and its trailing whitespace, which
   * neither starts nor ends with whitespace; empty exactly when `s` is all whitespace.
   */
  function Strip(s: string): (r: string)
    ensures var i := LeadingSpaces(s);
      && i + |r| <= |s| && r == s[i..i + |r|]
      && (r == [] || (!IsSpace(r[0]) && !IsSpace(r[|r| - 1])))
      && (r == [] ==> i == |s|)
  {
    var i := LeadingSpaces(s);
    if i == |s| then []
    else
      var j := |s| - TrailingSpaces(s);
      assert i < j;
      s[i..j]
  }

  /** `s` is `s.strip()` with whitespace only around it. */
  lemma StripSurround(s: string)
    ensures var r, i := Strip(s), LeadingSpaces(s);
      i + |r| <= |s| && AllSpace(s[..i]) && AllSpace(s[i + |r|..])
  {
    var i := LeadingSpaces(s);
    var r := Strip(s);
    if i < |s| {
      var j := |s| - TrailingSpaces(s);
      assert i + |r| == j;
      forall k | 0 <= k < |s| - j ensures IsSpace(s[j..][k]) {
        assert s[j..][k] == s[j + k];
      }
    }
  }

  /** A string with no whitespace at either end is its own `strip()`. */
  lemma StripUnchanged(s: string)
    requires s == [] || (!IsSpace(s[0]) && !IsSpace(s[|s| - 1]))
    ensures Strip(s) == s
  {
    if s != [] {
      assert LeadingSpaces(s) == 0 && TrailingSpaces(s) == 0;
      assert s[0..|s|] == s;
    }
  }

  // ---------------------------------------------------------------- split and join

  /** Index of the first whitespace character of `s`, or `|s|` when there is none. */
  function WordEnd(s: string): (k: nat)
    ensures k <= |s| && NoSpace(s[..k])
    ensures k < |s| ==> IsSpace(s[k])
  {
    if s == [] || IsSpace(s[0]) then 0
    else
      var k := 1 + WordEnd(s[1..]);
      assert forall i :: 1 <= i < k ==> s[..k][i] == s[1..][..k - 1][i - 1];
      k
  }

  /** `s.split()` with no argument: the maximal runs of non-whitespace characters, in order. */
  function Split(s: string): (ws: seq<string>)
    ensures IsWords(ws)
    decreases |s|
  {
    if s == [] then []
    else if IsSpace(s[0]) then Split(s[1..])
    else
      var k := WordEnd(s);
      [s[..k]] + Split(s[k..])
  }

  /** The total length of a list of strings. */
  function Lengths(parts: seq<string>): nat {
    if parts == [] then 0 else |parts[0]| + Lengths(parts[1..])
  }

  /** `sep.join(parts)`: the parts in order with one `sep` between neighbours; it starts with the first part. */
  function Join(sep: string, parts: seq<string>): (r: string)
    ensures parts == [] ==> r == ""
    ensures parts != [] ==> parts[0] <= r
  {
    if parts == [] then ""
    else if |parts| == 1 then parts[0]
    else parts[0] + sep + Join(sep, parts[1..])
  }

  /** A join is as long as its parts plus one separator fewer than there are parts. */
  lemma {:induction false} JoinLength(sep: string, parts: seq<string>)
    requires parts != []
    ensures |Join(sep, parts)| == Lengths(parts) + (|parts| - 1) * |sep|
  {
    if |parts| > 1 {
      JoinLength(sep, parts[1..]);
      assert (|parts| - 1) * |sep| == (|parts| - 2) * |sep| + |sep|;
    } else {
      assert parts[1..] == [];
    }
  }

  /**
   * `' '.join(s.split())`: the whitespace-collapsing step of `clear_string`. The result is
   * in collapsed form and has exactly the words of `s`.
   */
  function Collapse(s: string): (r: string)
    ensures Collapsed(r)
    ensures Split(r) == Split(s)
  {
    JoinWordsCollapsed(Split(s));
    SplitJoin(Split(s));
    Join(" ", Split(s))
  }

  lemma JoinCons(sep: string, p: string, parts: seq<string>)
    requires parts != []
    ensures Join(sep, [p] + parts) == p + sep + Join(sep, parts)
  {
    assert ([p] + parts)[1..] == parts;
  }

  lemma {:induction false} WordEndOfWord(w: string, t: string)
    requires NoSpace(w)
    requires t == [] || IsSpace(t[0])
    ensures WordEnd(w + t) == |w|
  {
    if w != [] {
      assert (w + t)[1..] == w[1..] + t;
      WordEndOfWord(w[1..], t);
    }
  }

  /** Splitting a space-joined list of words gives the words back. */
  lemma {:induction false} SplitJoin(ws: seq<string>)
    requires IsWords(ws)
    ensures Split(Join(" ", ws)) == ws
  {
    if ws == [] {
    } else if |ws| == 1 {
      var w := ws[0];
      WordEndOfWord(w, "");
      assert w + "" == w;
      assert w[|w|..] == [];
    } else {
      var w, rest := ws[0], Join(" ", ws[1..]);
      var s := Join(" ", ws);
      assert s == w + (" " + rest);
      WordEndOfWord(w, " " + rest);
      assert s[..|w|] == w;
      assert s[|w|..] == " " + rest;
      assert (" " + rest)[1..] == rest;
      SplitJoin(ws[1..]);
    }
  }

  lemma {:induction false} JoinWordsNonEmpty(ws: seq<string>)
    requires IsWords(ws)
    ensures Join(" ", ws) == [] <==> ws == []
  {
    if |ws| > 1 {
      JoinWordsNonEmpty(ws[1..]);
    }
  }

  lemma CollapsedGlue(a: string, b: string)
    requires Collapsed(a) && Collapsed(b) && a != [] && b != []
    ensures Collapsed(a + " " + b)
  {
    var r := a + " " + b;
    forall i | 0 <= i < |r| && IsSpace(r[i])
      ensures r[i] == ' '
    {
      if i > |a| {
        assert r[i] == b[i - |a| - 1];
      }
    }
    forall i | 0 <= i < |r| - 1 && IsSpace(r[i])
      ensures !IsSpace(r[i + 1])
    {
      if i > |a| {
        assert r[i] == b[i - |a| - 1] && r[i + 1] == b[i - |a|];
      }
    }
  }

  /** A space-joined list of words is in collapsed form. */
  lemma {:induction false} JoinWordsCollapsed(ws: seq<string>)
    requires IsWords(ws)
    ensures Collapsed(Join(" ", ws))
  {
    if |ws| == 1 {
      assert NoSpace(ws[0]);
    } else if |ws| > 1 {
      assert NoSpace(ws[0]);
      JoinWordsCollapsed(ws[1..]);
      JoinWordsNonEmpty(ws[1..]);
      CollapsedGlue(ws[0], Join(" ", ws[1..]));
    }
  }

  /** A suffix of a collapsed string that does not start with whitespace is collapsed. */
  lemma CollapsedSuffix(r: string, j: nat)
    requires Collapsed(r) && j <= |r| && (j == |r| || !IsSpace(r[j]))
    ensures Collapsed(r[j..])
  {
    var tail := r[j..];
    forall i | 0 <= i < |tail| && IsSpace(tail[i]) ensures tail[i] == ' ' {
      assert tail[i] == r[j + i];
    }
    forall i | 0 <= i < |tail| - 1 && IsSpace(tail[i]) ensures !IsSpace(tail[i + 1]) {
      assert tail[i] == r[j + i] && tail[i + 1] == r[j + i + 1];
    }
  }

  /** In a collapsed string, a word that does not end the string is followed by one space and a collapsed rest. */
  lemma CollapsedAfterWord(r: string, k: nat)
    requires Collapsed(r) && k == WordEnd(r) && 0 < k < |r|
    ensures k + 1 < |r| && r[k] == ' '
    ensures Collapsed(r[k + 1..])
    ensures Split(r[k..]) == Split(r[k + 1..])
  {
    assert IsSpace(r[k]);
    assert k + 1 < |r|;
    assert !IsSpace(r[k + 1]);
    CollapsedSuffix(r, k + 1);
    assert r[k..][1..] == r[k + 1..];
  }

  /** A string in collapsed form is the only one of that form with its words. */
  lemma {:induction false} CollapsedUnique(r: string)
    requires Collapsed(r)
    ensures Join(" ", Split(r)) == r
    decreases |r|
  {
    if r != [] {
      var k := WordEnd(r);
      if k == |r| {
        assert r[..k] == r && r[k..] == [];
      } else {
        CollapsedAfterWord(r, k);
        CollapsedUnique(r[k + 1..]);
        CollapsedStep(r, k);
      }
    }
  }

  /** The step of `CollapsedUnique`: a first word, one space, and a rest that is the join of its words. */
  lemma CollapsedStep(r: string, k: nat)
    requires r != [] && !IsSpace(r[0]) && k == WordEnd(r) && k + 1 < |r| && r[k] == ' '
    requires Split(r[k..]) == Split(r[k + 1..])
    requires Join(" ", Split(r[k + 1..])) == r[k + 1..]
    ensures Join(" ", Split(r)) == r
  {
    var tail := r[k + 1..];
    assert Split(r) == [r[..k]] + Split(tail);
    assert Split(tail) != [];
    JoinCons(" ", r[..k], Split(tail));
    SliceAround(r, k);
  }

  lemma SliceAround(s: string, k: nat)
    requires k < |s|
    ensures s[..k] + [s[k]] + s[k + 1..] == s
  {
  }

  /** Collapsing twice is collapsing once. */
  lemma CollapseIdempotent(s: string)
    ensures Collapse(Collapse(s)) == Collapse(s)
  {
    SplitJoin(Split(s));
  }

  /** When `x` has whitespace, appending to it does not move its first word's end. */
  lemma {:induction false} WordEndExtend(x: string, y: string)
    requires WordEnd(x) < |x|
    ensures WordEnd(x + y) == WordEnd(x)
  {
    if !IsSpace(x[0]) {
      assert (x + y)[1..] == x[1..] + y;
      WordEndExtend(x[1..], y);
    }
  }

  /** A whitespace character separates words: the words of `a + [c] + b` are `a`'s, then `b`'s. */
  lemma {:induction false} SplitAtSpace(a: string, c: char, b: string)
    requires IsSpace(c)
    ensures Split(a + [c] + b) == Split(a) + Split(b)
    decreases |a|
  {
    if a == [] {
      assert a + [c] + b == [c] + b;
      assert ([c] + b)[1..] == b;
    } else if IsSpace(a[0]) {
      SplitAtSpace(a[1..], c, b);
      SplitAtSpaceLeading(a, c, b);
    } else if WordEnd(a) < |a| {
      var k := WordEnd(a);
      SplitAtSpace(a[k..], c, b);
      SplitAtSpaceAfterWord(a, c, b, k);
    } else {
      SplitAtSpaceOneWord(a, c, b);
    }
  }

  lemma SplitAtSpaceLeading(a: string, c: char, b: string)
    requires a != [] && IsSpace(a[0])
    requires Split(a[1..] + [c] + b) == Split(a[1..]) + Split(b)
    ensures Split(a + [c] + b) == Split(a) + Split(b)
  {
    assert (a + [c] + b)[1..] == a[1..] + [c] + b;
  }

  /** When `a` starts with a word that ends inside it, `a + [c] + b` starts with that word too. */
  lemma SplitAtSpaceAfterWord(a: string, c: char, b: string, k: nat)
    requires a != [] && !IsSpace(a[0]) && k == WordEnd(a) && k < |a|
    requires Split(a[k..] + [c] + b) == Split(a[k..]) + Split(b)
    ensures Split(a + [c] + b) == Split(a) + Split(b)
  {
    var s := a + [c] + b;
    WordEndExtend(a, [c] + b);
    assert s == a + ([c] + b);
    assert s[..k] == a[..k];
    assert s[k..] == a[k..] + [c] + b;
    var w, x, y := a[..k], Split(a[k..]), Split(b);
    assert Split(s) == [w] + (x + y);
    assert Split(a) == [w] + x;
  }

  /** When `a` is a single word, the words of `a + [c] + b` are `a` and then `b`'s. */
  lemma SplitAtSpaceOneWord(a: string, c: char, b: string)
    requires IsSpace(c) && a != [] && !IsSpace(a[0]) && WordEnd(a) == |a|
    ensures Split(a + [c] + b) == Split(a) + Split(b)
  {
    var t := [c] + b;
    var s := a + t;
    assert a + [c] + b == s;
    assert NoSpace(a) by { assert a[..|a|] == a; }
    WordEndOfWord(a, t);
    assert Split(t) == Split(b) by { assert t[1..] == b; }
    assert Split(s) == [a] + Split(t) by { assert s[..|a|] == a && s[|a|..] == t; }
    assert Split(a) == [a] by { assert a[..|a|] == a && a[|a|..] == []; }
  }

  lemma {:induction false} SplitEmpty(s: string)
    ensures Split(s) == [] <==> AllSpace(s)
    decreases |s|
  {
    if s != [] {
      if IsSpace(s[0]) {
        SplitEmpty(s[1..]);
        assert AllSpace(s) <==> AllSpace(s[1..]) by {
          if AllSpace(s[1..]) {
            forall i | 0 <= i < |s| ensures IsSpace(s[i]) {
              if i > 0 { assert s[i] == s[1..][i - 1]; }
            }
          }
        }
      }
    }
  }

  /** Whitespace-only text (and only that) collapses to the empty string. */
  lemma CollapseBlank(s: string)
    ensures Collapse(s) == "" <==> AllSpace(s)
  {
    SplitEmpty(s);
    JoinWordsNonEmpty(Split(s));
  }

  // ---------------------------------------------------------------- single-character rewrites

  /** `s.replace(c, '')`. */
  function RemoveChar(s: string, c: char): (r: string)
    ensures |r| <= |s|
    ensures forall i :: 0 <= i < |r| ==> r[i] != c
  {
    if s == [] then ""
    else if s[0] == c then RemoveChar(s[1..], c)
    else [s[0]] + RemoveChar(s[1..], c)
  }

  /** Removing `c` keeps every other character that occurs in `s`, and adds none. */
  lemma {:induction false} RemoveCharKeepsOthers(s: string, c: char, x: char)
    requires x != c
    ensures x in RemoveChar(s, c) <==> x in s
  {
    if s != [] {
      RemoveCharKeepsOthers(s[1..], c, x);
      assert s == [s[0]] + s[1..];
    }
  }

  /** Whitespace-only text holds no non-whitespace character. */
  lemma NotInAllSpace(t: string, x: char)
    requires AllSpace(t) && !IsSpace(x)
    ensures x !in t
  {
  }

  lemma SliceThree(s: string, i: nat, j: nat, x: char)
    requires i <= j <= |s|
    ensures x in s <==> x in s[..i] || x in s[i..j] || x in s[j..]
  {
    assert s == s[..i] + s[i..j] + s[j..];
  }

  /** Stripping keeps every non-whitespace character that occurs in `s`, and adds none. */
  lemma {:induction false} StripKeepsNonSpace(s: string, x: char)
    requires !IsSpace(x)
    ensures x in Strip(s) <==> x in s
  {
    var r := Strip(s);
    var i := LeadingSpaces(s);
    var j := i + |r|;
    StripSurround(s);
    NotInAllSpace(s[..i], x);
    NotInAllSpace(s[j..], x);
    SliceThree(s, i, j, x);
  }

  /** `s.replace(a, b)` for single characters. */
  function ReplaceChar(s: string, a: char, b: char): (r: string) {
    if s == [] then ""
    else [if s[0] == a then b else s[0]] + ReplaceChar(s[1..], a, b)
  }

  lemma {:induction false} RemoveCharConcat(x: string, y: string, c: char)
    ensures RemoveChar(x + y, c) == RemoveChar(x, c) + RemoveChar(y, c)
  {
    if x != [] {
      assert (x + y)[1..] == x[1..] + y;
      RemoveCharConcat(x[1..], y, c);
    } else {
      assert x + y == y;
    }
  }

  lemma {:induction false} RemoveCharKeeps(s: string, c: char)
    requires c !in s
    ensures RemoveChar(s, c) == s
  {
    if s != [] {
      RemoveCharKeeps(s[1..], c);
    }
  }

  lemma {:induction false} ReplaceCharConcat(x: string, y: string, a: char, b: char)
    ensures ReplaceChar(x + y, a, b) == ReplaceChar(x, a, b) + ReplaceChar(y, a, b)
  {
    if x != [] {
      assert (x + y)[1..] == x[1..] + y;
      ReplaceCharConcat(x[1..], y, a, b);
    } else {
      assert x + y == y;
    }
  }

  lemma {:induction false} ReplaceCharAbsent(s: string, a: char, b: char)
    requires a !in s
    ensures ReplaceChar(s, a, b) == s
  {
    if s != [] {
      ReplaceCharAbsent(s[1..], a, b);
    }
  }

  // ---------------------------------------------------------------- digits and numbers

  /** `c.isdigit()`, restricted to the ASCII digits. */
  predicate IsDigit(c: char) {
    '0' <= c <= '9'
  }

  /** `s.isdigit()`: true for a non-empty string of digits only. */
  predicate IsDigits(s: string) {
    s != [] && forall i :: 0 <= i < |s| ==> IsDigit(s[i])
  }

  /** `''.join(c for c in s if c.isdigit())`. */
  function DigitChars(s: string): (r: string)
    ensures |r| <= |s|
    ensures forall i :: 0 <= i < |r| ==> IsDigit(r[i])
  {
    if s == [] then ""
    else if IsDigit(s[0]) then [s[0]] + DigitChars(s[1..])
    else DigitChars(s[1..])
  }

  /** One character contributes itself when it is a digit, and nothing otherwise. */
  lemma DigitCharsSingle(c: char)
    ensures DigitChars([c]) == if IsDigit(c) then [c] else []
  {
    assert [c][1..] == [];
  }

  /** The digit filter works piece by piece, so every digit is kept, in order. */
  lemma {:induction false} DigitCharsAppend(a: string, b: string)
    ensures DigitChars(a + b) == DigitChars(a) + DigitChars(b)
  {
    if a != [] {
      assert (a + b)[0] == a[0] && (a + b)[1..] == a[1..] + b;
      DigitCharsAppend(a[1..], b);
    } else {
      assert a + b == b;
    }
  }

  /** `int(s)` for a string of decimal digits (leading zeros allowed): 0 exactly for a string of zeros. */
  function DigitsToNat(s: string): (n: nat)
    requires forall i :: 0 <= i < |s| ==> IsDigit(s[i])
    ensures n == 0 <==> forall i :: 0 <= i < |s| ==> s[i] == '0'
  {
    if s == [] then 0
    else
      var init := s[..|s| - 1];
      assert IsDigit(s[|s| - 1]);
      assert forall i :: 0 <= i < |init| ==> init[i] == s[i];
      DigitsToNat(init) * 10 + (s[|s| - 1] as int - '0' as int)
  }

  /** `str(n)` for a natural number: digits, with a leading zero only for 0 itself. */
  function NatToString(n: nat): (r: string)
    ensures IsDigits(r)
    ensures r[0] == '0' <==> n == 0
  {
    var d := ['0' + (n % 10) as char];
    if n < 10 then d else NatToString(n / 10) + d
  }

  /** Reading back the decimal form of a number gives the number. */
  lemma {:induction false} DigitsRoundTrip(n: nat)
    ensures DigitsToNat(NatToString(n)) == n
  {
    var s := NatToString(n);
    if n >= 10 {
      DigitsRoundTrip(n / 10);
      assert s[..|s| - 1] == NatToString(n / 10);
    }
  }

  // ---------------------------------------------------------------- lower-casing and substrings

  /**
   * `c.lower()` for the ASCII and basic Cyrillic letters (U+0400 to U+042F); every other
   * character is left unchanged.
   */
  function LowerChar(c: char): char {
    if 'A' <= c <= 'Z' then (c as int + 32) as char
    else if 0x410 <= c as int <= 0x42F then (c as int + 32) as char
    else if 0x400 <= c as int <= 0x40F then (c as int + 80) as char
    else c
  }

  /** An upper-case ASCII or basic Cyrillic letter, the letters `LowerChar` changes. */
  predicate IsUpperLetter(c: char) {
    ('A' <= c <= 'Z') || (0x400 <= c as int <= 0x42F)
  }

  /**
   * `s.lower()`: as long as `s`, with no upper-case letter left, every other character
   * where it was, and nothing turned into whitespace.
   */
  function Lower(s: string): (r: string)
    ensures |r| == |s|
    ensures forall i :: 0 <= i < |r| ==> !IsUpperLetter(r[i])
    ensures forall i :: 0 <= i < |s| && !IsUpperLetter(s[i]) ==> r[i] == s[i]
    ensures forall i :: 0 <= i < |s| ==> (IsSpace(r[i]) <==> IsSpace(s[i]))
    ensures forall i :: 0 <= i < |s| && (IsSpace(s[i]) || IsDigit(s[i])) ==> r[i] == s[i]
  {
    seq(|s|, i requires 0 <= i < |s| => LowerChar(s[i]))
  }

  /** Lower-cased text is its own `lower()`. */
  lemma LowerIdempotent(s: string)
    ensures Lower(Lower(s)) == Lower(s)
  {
    var r := Lower(s);
    forall i | 0 <= i < |s| ensures Lower(r)[i] == r[i] {
      var c := s[i];
      assert r[i] == LowerChar(c);
    }
  }

  ghost predicate OccursAt(h: string, n: string, i: int) {
    0 <= i && i + |n| <= |h| && h[i..i + |n|] == n
  }

  /** `n in h` for strings: `n` is a contiguous piece of `h` (the empty string is one of every string). */
  function Contains(h: string, n: string): (b: bool)
    ensures b <==> exists i :: OccursAt(h, n, i)
  {
    if n <= h then
      assert OccursAt(h, n, 0);
      true
    else if h == [] then
      assert forall i :: !OccursAt(h, n, i);
      false
    else
      var b := Contains(h[1..], n);
      assert forall i :: OccursAt(h[1..], n, i) <==> OccursAt(h, n, i + 1) by {
        forall i ensures OccursAt(h[1..], n, i) <==> OccursAt(h, n, i + 1) {
          if 0 <= i && i + |n| <= |h| - 1 {
            var x, y := h[1..][i..i + |n|], h[i + 1..i + 1 + |n|];
            assert |x| == |y|;
            assert forall k :: 0 <= k < |x| ==> x[k] == y[k];
            assert x == y;
          }
        }
      }
      assert !OccursAt(h, n, 0);
      assert b ==> exists i :: OccursAt(h, n, i) by {
        if b {
          var i :| OccursAt(h[1..], n, i);
          assert OccursAt(h, n, i + 1);
        }
      }
      assert (exists i :: OccursAt(h, n, i)) ==> b by {
        if exists i :: OccursAt(h, n, i) {
          var i :| OccursAt(h, n, i);
          assert i != 0;
          assert OccursAt(h[1..], n, i - 1);
        }
      }
      b
  }

  // ---------------------------------------------------------------- split on a separator

  /** `s.split(sep)` for a one-character separator: always at least one part. */
  function SplitOn(s: string, sep: char): (parts: seq<string>)
    ensures |parts| >= 1
  {
    if s == [] then [""]
    else
      var rest := SplitOn(s[1..], sep);
      if s[0] == sep then [""] + rest
      else [[s[0]] + rest[0]] + rest[1..]
  }

  lemma {:induction false} SplitOnPiece(a: string, b: string, sep: char)
    requires sep !in a
    ensures SplitOn(a + b, sep) == [a + SplitOn(b, sep)[0]] + SplitOn(b, sep)[1..]
  {
    if a != [] {
      assert (a + b)[1..] == a[1..] + b;
      SplitOnPiece(a[1..], b, sep);
      assert [a[0]] + (a[1..] + SplitOn(b, sep)[0]) == a + SplitOn(b, sep)[0];
    } else {
      var parts := SplitOn(b, sep);
      assert a + b == b;
      assert a + parts[0] == parts[0];
      assert [parts[0]] + parts[1..] == parts;
    }
  }

  /** Splitting at `sep` undoes joining with `sep` when no part contains `sep`. */
  lemma {:induction false} SplitOnJoin(parts: seq<string>, sep: char)
    requires parts != []
    requires forall i :: 0 <= i < |parts| ==> sep !in parts[i]
    ensures SplitOn(Join([sep], parts), sep) == parts
  {
    var p := parts[0];
    if |parts| == 1 {
      SplitOnPiece(p, "", sep);
      assert p + "" == p;
    } else {
      var rest := Join([sep], parts[1..]);
      SplitOnJoin(parts[1..], sep);
      assert Join([sep], parts) == p + ([sep] + rest);
      SplitOnPiece(p, [sep] + rest, sep);
      assert ([sep] + rest)[1..] == rest;
      assert SplitOn([sep] + rest, sep) == [""] + parts[1..];
      assert p + "" == p;
    }
  }
}
