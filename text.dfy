/**
 * String operations of JavaScript and Python that the rest of the model relies on:
 * white-space trimming (the two languages disagree on what white space is), the
 * case mappings that matter for the log format, `split` / `join` on a separator,
 * substring search, and decimal digit strings.
 */
module Text {
  import opened Wrappers

  // ---------------------------------------------------------------------------
  // White space
  // ---------------------------------------------------------------------------

  /** White space for JavaScript's `String.prototype.trim` and the regular-expression class `\s`. */
  predicate IsJsSpace(c: char) {
    c == '\t' || c == '\n' || c == '\U{B}' || c == '\U{C}' || c == '\r' || c == ' '
    || c == '\U{A0}' || c == '\U{1680}' || ('\U{2000}' <= c <= '\U{200A}')
    || c == '\U{2028}' || c == '\U{2029}' || c == '\U{202F}' || c == '\U{205F}'
    || c == '\U{3000}' || c == '\U{FEFF}'
  }

  /** White space for Python's `str.strip()` without arguments (`str.isspace`). */
  predicate IsPySpace(c: char) {
    c == '\t' || c == '\n' || c == '\U{B}' || c == '\U{C}' || c == '\r'
    || ('\U{1C}' <= c <= '\U{1F}') || c == ' ' || c == '\U{85}' || c == '\U{A0}'
    || c == '\U{1680}' || ('\U{2000}' <= c <= '\U{200A}') || c == '\U{2028}'
    || c == '\U{2029}' || c == '\U{202F}' || c == '\U{205F}' || c == '\U{3000}'
  }

  /** `s` without its longest prefix of characters satisfying `p`. */
  function DropLeading(s: string, p: char -> bool): (r: string)
    ensures |r| <= |s| && r == s[|s| - |r|..]
    ensures forall i :: 0 <= i < |s| - |r| ==> p(s[i])
    ensures r == [] || !p(r[0])
  {
    if s != [] && p(s[0]) then DropLeading(s[1..], p) else s
  }

  /** `s` without its longest suffix of characters satisfying `p`. */
  function DropTrailing(s: string, p: char -> bool): (r: string)
    ensures |r| <= |s| && r == s[..|r|]
    ensures forall i :: |r| <= i < |s| ==> p(s[i])
    ensures r == [] || !p(r[|r| - 1])
  {
    if s != [] && p(s[|s| - 1]) then DropTrailing(s[..|s| - 1], p) else s
  }

  /** Both ends stripped of characters satisfying `p`. */
  function Strip(s: string, p: char -> bool): string {
    DropTrailing(DropLeading(s, p), p)
  }

  /** JavaScript `s.trim()`. */
  function TrimJs(s: string): string {
    Strip(s, IsJsSpace)
  }

  /** Python `s.strip()`. */
  function StripPy(s: string): string {
    Strip(s, IsPySpace)
  }

  /** What stripping leaves neither starts nor ends with a stripped character. */
  lemma StripIsInfix(s: string, p: char -> bool)
    ensures var r := Strip(s, p);
      r == [] || (!p(r[0]) && !p(r[|r| - 1]))
  {
    var l := DropLeading(s, p);
    var r := DropTrailing(l, p);
    if r != [] {
      assert r[0] == l[0];
    }
  }

  /** Stripping something already stripped changes nothing. */
  lemma StripIdempotent(s: string, p: char -> bool)
    ensures Strip(Strip(s, p), p) == Strip(s, p)
  {
    StripIsInfix(s, p);
    StripUnchanged(Strip(s, p), p);
  }

  /** A string with no strippable first or last character is its own strip. */
  lemma StripUnchanged(s: string, p: char -> bool)
    requires s == [] || (!p(s[0]) && !p(s[|s| - 1]))
    ensures Strip(s, p) == s
  {
  }

  /** Removing a strippable last character does not change the strip. */
  lemma StripWithoutLast(s: string, p: char -> bool)
    requires s != [] && p(s[|s| - 1])
    ensures Strip(s[..|s| - 1], p) == Strip(s, p)
  {
    var l := DropLeading(s, p);
    var li := DropLeading(s[..|s| - 1], p);
    DropLeadingInit(s, p);
    if l == [] {
      assert li == [];
    } else {
      assert li == l[..|l| - 1];
      assert l[|l| - 1] == s[|s| - 1];
      assert DropTrailing(l, p) == DropTrailing(li, p);
    }
  }

  /** Removing the first and the last character in either order gives the same string. */
  lemma SliceSwap(s: string)
    requires |s| >= 2
    ensures s[..|s| - 1][1..] == s[1..][..|s| - 2]
  {
  }

  /** Dropping leading characters commutes with removing the last character. */
  lemma {:induction false} DropLeadingInit(s: string, p: char -> bool)
    requires s != []
    ensures var l := DropLeading(s, p);
      DropLeading(s[..|s| - 1], p) == if l == [] then [] else l[..|l| - 1]
    decreases |s|
  {
    var init := s[..|s| - 1];
    if !p(s[0]) {
      assert DropLeading(s, p) == s;
      if init != [] {
        assert init[0] == s[0];
        assert DropLeading(init, p) == init;
      }
    } else if |s| == 1 {
      assert DropLeading(s, p) == DropLeading([], p) == [];
    } else {
      var t := s[1..];
      assert DropLeading(s, p) == DropLeading(t, p);
      DropLeadingInit(t, p);
      assert init[0] == s[0];
      SliceSwap(s);
      assert DropLeading(init, p) == DropLeading(init[1..], p);
    }
  }

  /** The string is empty or made only of characters satisfying `p`. */
  predicate AllSatisfy(s: string, p: char -> bool) {
    forall i :: 0 <= i < |s| ==> p(s[i])
  }

  /** JavaScript's `!s.trim()`: the string is empty after trimming exactly when it is all white space. */
  lemma {:induction false} TrimEmptyIffBlank(s: string)
    ensures TrimJs(s) == [] <==> AllSatisfy(s, IsJsSpace)
  {
    var l := DropLeading(s, IsJsSpace);
    if l == [] {
      assert AllSatisfy(s, IsJsSpace);
    } else {
      assert !IsJsSpace(l[0]) && l[0] == s[|s| - |l|];
    }
  }

  // ---------------------------------------------------------------------------
  // Case mapping
  // ---------------------------------------------------------------------------

  /**
   * Upper case of one character as far as it can produce an ASCII letter:
   * ASCII letters, dotless i (U+0131) and long s (U+017F). Every other non-ASCII
   * character is left as it is.
   */
  function UpperChar(c: char): char {
    if 'a' <= c <= 'z' then (c as int - 32) as char
    else if c == '\U{131}' then 'I'
    else if c == '\U{17F}' then 'S'
    else c
  }

  /** Upper case of ASCII letters only: how a case-insensitive regular expression compares characters. */
  function AsciiUpperChar(c: char): char {
    if 'a' <= c <= 'z' then (c as int - 32) as char else c
  }

  /** Lower case of one character: ASCII letters and the Latin-1 capitals U+00C0..U+00DE except U+00D7. */
  function LowerChar(c: char): char {
    if 'A' <= c <= 'Z' then (c as int + 32) as char
    else if '\U{C0}' <= c <= '\U{DE}' && c != '\U{D7}' then (c as int + 32) as char
    else c
  }

  /** `s.toUpperCase()` / `s.upper()`, character by character. */
  function ToUpper(s: string): (r: string)
    ensures |r| == |s|
  {
    seq(|s|, i requires 0 <= i < |s| => UpperChar(s[i]))
  }

  /** `s.toLowerCase()`, character by character. */
  function ToLower(s: string): (r: string)
    ensures |r| == |s|
  {
    seq(|s|, i requires 0 <= i < |s| => LowerChar(s[i]))
  }

  /** Upper-casing twice is upper-casing once. */
  lemma ToUpperIdempotent(s: string)
    ensures ToUpper(ToUpper(s)) == ToUpper(s)
  {
  }

  lemma ToUpperSlice(s: string, i: nat, j: nat)
    requires i <= j <= |s|
    ensures ToUpper(s)[i..j] == ToUpper(s[i..j])
  {
  }

  lemma ToLowerPrefix(s: string, n: nat)
    requires n <= |s|
    ensures ToLower(s)[..n] == ToLower(s[..n])
  {
  }

  // ---------------------------------------------------------------------------
  // Prefixes and substring search
  // ---------------------------------------------------------------------------

  /** `s.startsWith(p)`. */
  predicate StartsWith(s: string, p: string) {
    |p| <= |s| && s[..|p|] == p
  }

  /** `s.endsWith(p)`. */
  predicate EndsWith(s: string, p: string) {
    |p| <= |s| && s[|s| - |p|..] == p
  }

  /** `p` occurs in `s` at position `i`. */
  predicate OccursAt(s: string, p: string, i: int) {
    0 <= i && i + |p| <= |s| && s[i..i + |p|] == p
  }

  /** The first position at or after `from` where `p` occurs in `s`. */
  function IndexOf(s: string, p: string, from: nat): (r: Option<nat>)
    ensures r.Some? ==> from <= r.value && OccursAt(s, p, r.value)
    ensures r.Some? ==> forall j :: from <= j < r.value ==> !OccursAt(s, p, j)
    ensures r.None? ==> forall j :: from <= j ==> !OccursAt(s, p, j)
    decreases |s| - from
  {
    if from + |p| > |s| then None
    else if s[from..from + |p|] == p then Some(from)
    else IndexOf(s, p, from + 1)
  }

  /** Length of the run of characters satisfying `p` that starts at `i`. */
  function Run(s: string, i: nat, p: char -> bool): (n: nat)
    requires i <= |s|
    ensures i + n <= |s|
    ensures forall k :: i <= k < i + n ==> p(s[k])
    ensures i + n == |s| || !p(s[i + n])
    decreases |s| - i
  {
    if i < |s| && p(s[i]) then 1 + Run(s, i + 1, p) else 0
  }

  /**
   * The upper-case ASCII `word` occurs at `i` when letters are compared ignoring case
   * the way a regular expression with the `i` flag does (ASCII letters only).
   */
  predicate OccursIgnoringCase(s: string, word: string, i: nat) {
    i + |word| <= |s| && forall k :: 0 <= k < |word| ==> AsciiUpperChar(s[i + k]) == word[k]
  }

  /** `s.includes(p)` / Python `p in s`. */
  predicate Contains(s: string, p: string) {
    IndexOf(s, p, 0).Some?
  }

  lemma ContainsIff(s: string, p: string)
    ensures Contains(s, p) <==> exists i :: OccursAt(s, p, i)
  {
  }

  // ---------------------------------------------------------------------------
  // split / join
  // ---------------------------------------------------------------------------

  /** `s.split(sep)` for a non-empty literal separator: JavaScript and Python agree. */
  function Split(s: string, sep: string): (parts: seq<string>)
    requires sep != []
    ensures |parts| >= 1
    decreases |s|
  {
    match IndexOf(s, sep, 0)
    case None => [s]
    case Some(i) => [s[..i]] + Split(s[i + |sep|..], sep)
  }

  /** `parts.join(sep)` / `sep.join(parts)`. */
  function Join(parts: seq<string>, sep: string): string {
    if |parts| == 0 then []
    else if |parts| == 1 then parts[0]
    else parts[0] + sep + Join(parts[1..], sep)
  }

  /** A join starts with its first part. */
  lemma JoinStartsWithFirst(parts: seq<string>, sep: string)
    requires |parts| >= 1
    ensures StartsWith(Join(parts, sep), parts[0])
  {
  }

  /** A join ends with its last part. */
  lemma {:induction false} JoinEndsWithLast(parts: seq<string>, sep: string)
    requires |parts| >= 1
    ensures EndsWith(Join(parts, sep), parts[|parts| - 1])
  {
    if |parts| > 1 {
      JoinEndsWithLast(parts[1..], sep);
      assert parts[1..][|parts| - 2] == parts[|parts| - 1];
    }
  }

  /** A character found neither in the parts nor in the separator is not in their join. */
  lemma {:induction false} JoinAvoids(parts: seq<string>, sep: string, c: char)
    requires c !in sep
    requires forall k :: 0 <= k < |parts| ==> c !in parts[k]
    ensures c !in Join(parts, sep)
  {
    if |parts| > 1 {
      JoinAvoids(parts[1..], sep, c);
    }
  }

  /** A line terminated by a character it does not otherwise contain splits into the line and an empty rest. */
  lemma SplitTerminated(s: string, c: char)
    requires c !in s
    ensures Split(s + [c], [c]) == [s, ""]
  {
    var t := s + [c];
    forall j | 0 <= j < |s|
      ensures !OccursAt(t, [c], j)
    {
      assert t[j..j + 1][0] == s[j];
    }
    assert OccursAt(t, [c], |s|);
    assert IndexOf(t, [c], 0) == Some(|s|);
    assert t[..|s|] == s;
    assert t[|s| + 1..] == "";
  }

  /** Splitting on a one-character separator that occurs in no part gives the joined parts back. */
  lemma {:induction false} SplitJoinChar(parts: seq<string>, c: char)
    requires |parts| >= 1
    requires forall k :: 0 <= k < |parts| ==> c !in parts[k]
    ensures Split(Join(parts, [c]), [c]) == parts
  {
    if |parts| == 1 {
      CharAbsent(parts[0], c);
    } else {
      var a, tail := parts[0], parts[1..];
      var rest := Join(tail, [c]);
      SplitJoinChar(tail, c);
      assert Join(parts, [c]) == a + [c] + rest;
      SplitAfterChar(a, c, rest);
      assert parts == [a] + tail;
    }
  }

  /** Splitting on a character absent from `a` cuts `a + [c] + b` right after `a`. */
  lemma SplitAfterChar(a: string, c: char, b: string)
    requires c !in a
    ensures Split(a + [c] + b, [c]) == [a] + Split(b, [c])
  {
    var s := a + [c] + b;
    forall j | 0 <= j < |a|
      ensures !OccursAt(s, [c], j)
    {
      assert s[j..j + 1][0] == a[j];
    }
    assert OccursAt(s, [c], |a|);
    assert IndexOf(s, [c], 0) == Some(|a|);
    assert Split(s, [c]) == [s[..|a|]] + Split(s[|a| + 1..], [c]);
    assert s[..|a|] == a;
    assert s[|a| + 1..] == b;
  }

  lemma CharAbsent(a: string, c: char)
    requires c !in a
    ensures IndexOf(a, [c], 0).None?
  {
    forall j | 0 <= j && j + 1 <= |a|
      ensures !OccursAt(a, [c], j)
    {
      assert a[j..j + 1][0] == a[j];
    }
  }

  /** Joining the pieces of a split with the same separator restores the string. */
  lemma {:induction false} JoinSplit(s: string, sep: string)
    requires sep != []
    ensures Join(Split(s, sep), sep) == s
    decreases |s|
  {
    var r := IndexOf(s, sep, 0);
    if r.Some? {
      var i := r.value;
      var rest := s[i + |sep|..];
      JoinSplit(rest, sep);
      assert Split(s, sep) == [s[..i]] + Split(s[i + |sep|..], sep);
      JoinCons(s[..i], Split(rest, sep), sep);
      assert s == s[..i] + sep + rest;
    }
  }

  lemma JoinCons(a: string, tail: seq<string>, sep: string)
    requires |tail| >= 1
    ensures Join([a] + tail, sep) == a + sep + Join(tail, sep)
  {
    assert ([a] + tail)[1..] == tail;
  }

  /** No piece of a split contains the separator. */
  lemma {:induction false} SplitPiecesAvoidSeparator(s: string, sep: string)
    requires sep != []
    ensures forall k :: 0 <= k < |Split(s, sep)| ==> !Contains(Split(s, sep)[k], sep)
    decreases |s|
  {
    match IndexOf(s, sep, 0)
    case None =>
      NotContainsWhenAbsent(s, sep, 0);
    case Some(i) =>
      var rest := s[i + |sep|..];
      SplitPiecesAvoidSeparator(rest, sep);
      NoOccurrenceInPrefix(s, sep, i);
      assert Split(s, sep) == [s[..i]] + Split(rest, sep);
  }

  lemma NotContainsWhenAbsent(s: string, sep: string, from: nat)
    requires from == 0 && IndexOf(s, sep, from).None?
    ensures !Contains(s, sep)
  {
  }

  lemma NoOccurrenceInPrefix(s: string, p: string, i: nat)
    requires p != [] && i <= |s|
    requires forall j :: 0 <= j < i ==> !OccursAt(s, p, j)
    ensures !Contains(s[..i], p)
  {
    ContainsIff(s[..i], p);
    if Contains(s[..i], p) {
      var j :| OccursAt(s[..i], p, j);
      assert s[j..j + |p|] == s[..i][j..j + |p|];
      assert OccursAt(s, p, j);
    }
  }

  /**
   * When the separator's second character differs from its first and occurs in
   * none of the parts, splitting the joined parts gives the parts back.
   */
  lemma {:induction false} SplitJoin(parts: seq<string>, sep: string)
    requires |sep| >= 2 && sep[0] != sep[1]
    requires |parts| >= 1
    requires forall k :: 0 <= k < |parts| ==> sep[1] !in parts[k]
    ensures Split(Join(parts, sep), sep) == parts
  {
    if |parts| == 1 {
      NoSeparatorInside(parts[0], sep);
    } else {
      var a, tail := parts[0], parts[1..];
      var rest := Join(tail, sep);
      SplitJoin(tail, sep);
      SplitAfterFirst(a, sep, rest);
      assert Join(parts, sep) == a + sep + rest;
      assert parts == [a] + tail;
    }
  }

  /** Splitting `a + sep + b` yields `a` followed by the pieces of `b`. */
  lemma SplitAfterFirst(a: string, sep: string, b: string)
    requires |sep| >= 2 && sep[0] != sep[1] && sep[1] !in a
    ensures Split(a + sep + b, sep) == [a] + Split(b, sep)
  {
    var s := a + sep + b;
    FirstSeparator(a, sep, b);
    assert Split(s, sep) == [s[..|a|]] + Split(s[|a| + |sep|..], sep);
    assert s[..|a|] == a;
    assert s[|a| + |sep|..] == b;
  }

  /** A string lacking the separator's second character has no occurrence of the separator. */
  lemma NoSeparatorInside(a: string, sep: string)
    requires |sep| >= 2 && sep[1] !in a
    ensures IndexOf(a, sep, 0).None?
  {
    forall j | 0 <= j && j + |sep| <= |a|
      ensures !OccursAt(a, sep, j)
    {
      assert a[j..j + |sep|][1] == a[j + 1];
    }
  }

  /** In `a + sep + b` the first occurrence of the separator is the one right after `a`. */
  lemma FirstSeparator(a: string, sep: string, b: string)
    requires |sep| >= 2 && sep[0] != sep[1] && sep[1] !in a
    ensures IndexOf(a + sep + b, sep, 0) == Some(|a|)
  {
    var s := a + sep + b;
    assert s[|a|..|a| + |sep|] == sep;
    forall j | 0 <= j < |a|
      ensures !OccursAt(s, sep, j)
    {
      assert s[j..j + |sep|][1] == s[j + 1];
      if j + 1 < |a| {
        assert s[j + 1] == a[j + 1];
      } else {
        assert s[j + 1] == sep[0];
      }
    }
    assert OccursAt(s, sep, |a|);
    var r := IndexOf(s, sep, 0);
    assert r.Some? && r.value <= |a|;
  }

  // ---------------------------------------------------------------------------
  // Decimal digits
  // ---------------------------------------------------------------------------

  predicate IsDigit(c: char) {
    '0' <= c <= '9'
  }

  /** A non-empty string of ASCII digits: what the regular expression `\d+` accepts. */
  predicate IsDigits(s: string) {
    |s| > 0 && forall i :: 0 <= i < |s| ==> IsDigit(s[i])
  }

  function DigitChar(d: nat): (c: char)
    requires d < 10
    ensures IsDigit(c)
  {
    ('0' as int + d) as char
  }

  function DigitValue(c: char): (d: nat)
    requires IsDigit(c)
    ensures d < 10 && DigitChar(d) == c
  {
    c as int - '0' as int
  }

  /** The number a string of digits denotes (`Number("007")` is 7). */
  function DigitsValue(s: string): nat
    requires forall i :: 0 <= i < |s| ==> IsDigit(s[i])
  {
    if s == [] then 0 else DigitsValue(s[..|s| - 1]) * 10 + DigitValue(s[|s| - 1])
  }

  /** Decimal notation of `n` without leading zeros: JavaScript `${n}` and Python `str(n)`. */
  function NatToString(n: nat): (s: string)
    ensures IsDigits(s)
    ensures s[0] == '0' ==> n == 0
  {
    if n < 10 then [DigitChar(n)] else NatToString(n / 10) + [DigitChar(n % 10)]
  }

  /** Decimal notation of an integer, with a leading '-' when negative. */
  function IntToString(i: int): string {
    if i < 0 then "-" + NatToString(-i) else NatToString(i)
  }

  /** Reading back the decimal notation of `n` gives `n`. */
  lemma {:induction false} DigitsValueOfNatToString(n: nat)
    ensures DigitsValue(NatToString(n)) == n
  {
    if n >= 10 {
      var s := NatToString(n);
      DigitsValueOfNatToString(n / 10);
      assert s[..|s| - 1] == NatToString(n / 10);
    }
  }
}
