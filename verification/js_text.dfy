/** The JavaScript string operations the services rely on (`trim`, `indexOf`, `split(' ')`,
    `replace(/.../g, '')`, `startsWith`, the `\s` and `\D` character classes), and the ABHA-ID
    pattern `/^[^\s@]+@[^\s@]+$/` shared by the consent and ABHA controllers. */
module JsText {
  import opened Common

  /** The `\s` class of JavaScript regular expressions, which is also the set `trim` removes. */
  predicate IsJsWhitespace(c: char) {
    var u := c as int;
    (0x09 <= u <= 0x0D) || u == 0x20 || u == 0xA0 || u == 0x1680 || (0x2000 <= u <= 0x200A) ||
    u == 0x2028 || u == 0x2029 || u == 0x202F || u == 0x205F || u == 0x3000 || u == 0xFEFF
  }

  predicate IsAsciiDigit(c: char) { '0' <= c <= '9' }

  predicate AllDigits(s: string) { forall i :: 0 <= i < |s| ==> IsAsciiDigit(s[i]) }

  /** A run of whitespace. */
  predicate AllWhitespace(t: string) { forall k :: 0 <= k < |t| ==> IsJsWhitespace(t[k]) }

  function TrimStart(s: string): (r: string)
    ensures |r| <= |s| && r == s[|s| - |r|..]
    ensures r != [] ==> !IsJsWhitespace(r[0])
    ensures AllWhitespace(s[..|s| - |r|])
  {
    if s != [] && IsJsWhitespace(s[0]) then
      var r := TrimStart(s[1..]);
      var w, w' := s[..|s| - |r|], s[1..][..|s| - 1 - |r|];
      assert AllWhitespace(w) by {
        forall k | 0 < k < |w| ensures IsJsWhitespace(w[k]) {
          assert w[k] == w'[k - 1];
        }
      }
      r
    else s
  }

  function TrimEnd(s: string): (r: string)
    ensures |r| <= |s| && r == s[..|r|]
    ensures r != [] ==> !IsJsWhitespace(r[|r| - 1])
    ensures AllWhitespace(s[|r|..])
  {
    if s != [] && IsJsWhitespace(s[|s| - 1]) then
      var r := TrimEnd(s[..|s| - 1]);
      var w, w' := s[|r|..], s[..|s| - 1][|r|..];
      assert AllWhitespace(w) by {
        forall k | 0 <= k < |w| - 1 ensures IsJsWhitespace(w[k]) {
          assert w[k] == w'[k];
        }
      }
      r
    else s
  }

  /** `s.trim()`: leading, then trailing whitespace removed. */
  function Trim(s: string): (r: string)
    ensures |r| <= |s|
  {
    TrimEnd(TrimStart(s))
  }

  /** The trimmed text is an infix of `s` with only whitespace outside it. */
  lemma TrimInfix(s: string)
    ensures exists i, j :: 0 <= i <= j <= |s| && Trim(s) == s[i..j] && AllWhitespace(s[..i]) && AllWhitespace(s[j..])
  {
    var a := TrimStart(s);
    var b := TrimEnd(a);
    var i := |s| - |a|;
    var j := i + |b|;
    assert b == s[i..j];
    assert a[|b|..] == s[j..];
  }

  /** The trimmed text neither starts nor ends with whitespace. */
  lemma TrimEnds(s: string)
    ensures var r := Trim(s); r != [] ==> !IsJsWhitespace(r[0]) && !IsJsWhitespace(r[|r| - 1])
  {
    var a := TrimStart(s);
    var b := TrimEnd(a);
    assert b != [] ==> b[0] == a[0];
  }

  /** The trimmed text is empty exactly when `s` is all whitespace. */
  lemma TrimEmpty(s: string)
    ensures Trim(s) == [] <==> AllWhitespace(s)
  {
    var a := TrimStart(s);
    var b := TrimEnd(a);
    if a == [] {
      assert s[..|s|] == s;
    }
  }

  /** `s.startsWith(p)`. */
  predicate StartsWith(s: string, p: string) { |p| <= |s| && s[..|p|] == p }

  /** `s.indexOf(c)`, with `None` for -1. */
  function IndexOf(s: string, c: char): (r: Option<nat>)
    ensures r.Some? ==> r.value < |s| && s[r.value] == c && forall i :: 0 <= i < r.value ==> s[i] != c
    ensures r.None? ==> forall i :: 0 <= i < |s| ==> s[i] != c
  {
    if s == [] then None
    else if s[0] == c then Some(0)
    else match IndexOf(s[1..], c)
      case None => None
      case Some(k) => Some(k + 1)
  }

  /** `s.lastIndexOf(c)`, with `None` for -1. */
  function LastIndexOf(s: string, c: char): (r: Option<nat>)
    ensures r.Some? ==> r.value < |s| && s[r.value] == c && forall i :: r.value < i < |s| ==> s[i] != c
    ensures r.None? ==> forall i :: 0 <= i < |s| ==> s[i] != c
  {
    if s == [] then None
    else if s[|s| - 1] == c then Some(|s| - 1)
    else LastIndexOf(s[..|s| - 1], c)
  }

  /** `s.replace(/p/g, '')` for a literal pattern: occurrences are removed left to right,
      without overlapping. */
  function RemoveAll(s: string, p: string): (r: string)
    requires p != []
    ensures |r| <= |s|
    decreases |s|
  {
    if |s| < |p| then s
    else if s[..|p|] == p then RemoveAll(s[|p|..], p)
    else [s[0]] + RemoveAll(s[1..], p)
  }

  /** `p` occurs in `s` starting at index `i`. */
  predicate OccursAt(s: string, p: string, i: int) {
    0 <= i && i + |p| <= |s| && s[i..i + |p|] == p
  }

  /** Removing a pattern that does not occur leaves the text as it is. */
  lemma {:induction false} RemoveAllAbsent(s: string, p: string)
    requires p != []
    requires forall i :: !OccursAt(s, p, i)
    ensures RemoveAll(s, p) == s
    decreases |s|
  {
    if |s| >= |p| {
      assert !OccursAt(s, p, 0);
      forall i ensures !OccursAt(s[1..], p, i) {
        if OccursAt(s[1..], p, i) {
          assert s[1..][i..i + |p|] == s[i + 1..i + 1 + |p|];
          assert OccursAt(s, p, i + 1);
        }
      }
      RemoveAllAbsent(s[1..], p);
    }
  }

  /** One occurrence followed by text in which the pattern cannot start is removed. */
  lemma {:induction false} RemoveAllPrefix(p: string, t: string)
    requires p != []
    ensures RemoveAll(p + t, p) == RemoveAll(t, p)
  {
    assert (p + t)[..|p|] == p;
    assert (p + t)[|p|..] == t;
  }

  /** Text that cannot start the pattern (it lacks the pattern's first character) passes
      through removal untouched. */
  lemma {:induction false} RemoveAllSkip(a: string, t: string, p: string)
    requires p != [] && p[0] !in a
    ensures RemoveAll(a + t, p) == a + RemoveAll(t, p)
    decreases |a|
  {
    if a == [] {
      assert a + t == t;
    } else {
      var s := a + t;
      assert s[1..] == a[1..] + t;
      RemoveAllSkip(a[1..], t, p);
      if |s| >= |p| {
        assert s[..|p|][0] == a[0] != p[0];
        assert RemoveAll(s, p) == [a[0]] + RemoveAll(a[1..] + t, p);
        assert [a[0]] + (a[1..] + RemoveAll(t, p)) == a + RemoveAll(t, p);
      } else {
        assert RemoveAll(s, p) == s;
        assert RemoveAll(t, p) == t;
      }
    }
  }

  /** `s.split(sep)` for a one-character separator: the pieces between separators, keeping
      empty pieces, so that `"a  b"` gives `["a", "", "b"]` and `""` gives `[""]`. */
  function Split(s: string, sep: char): (r: seq<string>)
    ensures |r| >= 1
    decreases |s|
  {
    match IndexOf(s, sep)
    case None => [s]
    case Some(i) => [s[..i]] + Split(s[i + 1..], sep)
  }

  /** No piece of a split contains the separator. */
  lemma {:induction false} SplitPieces(s: string, sep: char)
    ensures var r := Split(s, sep);
            forall k, i :: 0 <= k < |r| && 0 <= i < |r[k]| ==> r[k][i] != sep
    decreases |s|
  {
    match IndexOf(s, sep)
    case None =>
      SplitNone(s, sep);
    case Some(i) =>
      var rest := Split(s[i + 1..], sep);
      SplitPieces(s[i + 1..], sep);
      SplitCons(s, sep, i);
      var r := Split(s, sep);
      forall k, j | 0 <= k < |r| && 0 <= j < |r[k]| ensures r[k][j] != sep {
        if k > 0 {
          assert r[k] == rest[k - 1];
          assert rest[k - 1][j] != sep;
        } else {
          assert r[0] == s[..i] && s[..i][j] == s[j];
        }
      }
  }

  /** `parts.join(sep)`. */
  function Join(parts: seq<string>, sep: char): string
    requires |parts| >= 1
  {
    if |parts| == 1 then parts[0] else parts[0] + [sep] + Join(parts[1..], sep)
  }

  /** Splitting and joining again with the same separator gives back the text: no character
      is lost or reordered by the split. */
  lemma {:induction false} SplitJoin(s: string, sep: char)
    ensures Join(Split(s, sep), sep) == s
    decreases |s|
  {
    match IndexOf(s, sep)
    case None =>
    case Some(i) =>
      var rest := Split(s[i + 1..], sep);
      var parts := [s[..i]] + rest;
      assert Split(s, sep) == parts;
      assert parts[1..] == rest;
      assert Join(parts, sep) == s[..i] + [sep] + Join(rest, sep);
      SplitJoin(s[i + 1..], sep);
      assert s == s[..i] + [sep] + s[i + 1..];
  }

  /** The first piece of a split is the text before the first separator, or all of it. */
  lemma SplitFirst(s: string, sep: char)
    ensures IndexOf(s, sep).None? ==> Split(s, sep) == [s]
    ensures IndexOf(s, sep).Some? ==> Split(s, sep)[0] == s[..IndexOf(s, sep).value] && |Split(s, sep)| > 1
  {
  }

  /** The last piece of a split is the text after the last separator, or all of it. */
  lemma SplitLast(s: string, sep: char)
    ensures var r := Split(s, sep);
            r[|r| - 1] == (match LastIndexOf(s, sep) case None => s case Some(j) => s[j + 1..])
  {
    match LastIndexOf(s, sep)
    case None =>
      SplitNone(s, sep);
    case Some(j) =>
      SplitLastAt(s, sep, j);
  }

  /** With the last separator at `j`, the last piece is the text after `j`. */
  lemma {:induction false} SplitLastAt(s: string, sep: char, j: nat)
    requires j < |s| && s[j] == sep && forall q :: j < q < |s| ==> s[q] != sep
    ensures var r := Split(s, sep); r[|r| - 1] == s[j + 1..]
    decreases |s|
  {
    assert IndexOf(s, sep).Some? && IndexOf(s, sep).value <= j;
    var i := IndexOf(s, sep).value;
    var t := s[i + 1..];
    var r, rt := Split(s, sep), Split(t, sep);
    assert r[|r| - 1] == rt[|rt| - 1] by {
      SplitCons(s, sep, i);
    }
    if i == j {
      assert rt == [t] by {
        assert forall q :: 0 <= q < |t| ==> t[q] == s[j + 1 + q];
        SplitNone(t, sep);
      }
    } else {
      var k := j - i - 1;
      assert rt[|rt| - 1] == t[k + 1..] by {
        assert t[k] == sep;
        assert forall q :: k < q < |t| ==> t[q] == s[i + 1 + q];
        SplitLastAt(t, sep, k);
      }
      assert t[k + 1..] == s[j + 1..];
    }
  }

  /** Without a separator the split is the whole text. */
  lemma SplitNone(s: string, sep: char)
    requires forall q :: 0 <= q < |s| ==> s[q] != sep
    ensures Split(s, sep) == [s]
  {
  }

  /** With a first separator at `i`, the split is the text before it followed by the split of
      the rest, whose last piece is the split's last piece. */
  lemma SplitCons(s: string, sep: char, i: nat)
    requires IndexOf(s, sep) == Some(i)
    ensures var r := Split(s, sep); var rt := Split(s[i + 1..], sep);
            r == [s[..i]] + rt && r[|r| - 1] == rt[|rt| - 1]
  {
  }

  /** `IndexOf` is the one position holding `c` with no `c` before it. */
  lemma IndexOfIs(s: string, c: char, k: nat)
    requires k < |s| && s[k] == c && forall i :: 0 <= i < k ==> s[i] != c
    ensures IndexOf(s, c) == Some(k)
  {
    var r := IndexOf(s, c);
    assert r.Some?;
  }

  /** `LastIndexOf` is the one position holding `c` with no `c` after it. */
  lemma LastIndexOfIs(s: string, c: char, k: nat)
    requires k < |s| && s[k] == c && forall i :: k < i < |s| ==> s[i] != c
    ensures LastIndexOf(s, c) == Some(k)
  {
  }

  /** `s.replace(/\D/g, '')`: the ASCII digits of `s`, in order. */
  function DigitsOnly(s: string): (r: string)
    ensures AllDigits(r) && |r| <= |s|
    ensures AllDigits(s) ==> r == s
  {
    if s == [] then []
    else if IsAsciiDigit(s[0]) then [s[0]] + DigitsOnly(s[1..])
    else DigitsOnly(s[1..])
  }

  /** ASCII `toLowerCase` (the profile's gender values are ASCII). */
  function ToLowerAscii(s: string): (r: string)
    ensures |r| == |s|
    ensures forall i :: 0 <= i < |s| ==> !('A' <= r[i] <= 'Z')
  {
    if s == [] then []
    else [if 'A' <= s[0] <= 'Z' then (s[0] as int + 32) as char else s[0]] + ToLowerAscii(s[1..])
  }

  /** The decimal digits of a natural number, as `Number.prototype.toString` writes it. */
  function DecimalString(n: nat): (r: string)
    ensures |r| >= 1 && AllDigits(r)
    ensures n >= 10 ==> r[0] != '0'
  {
    if n < 10 then [('0' as int + n) as char]
    else DecimalString(n / 10) + [('0' as int + n % 10) as char]
  }

  /** The value of a string of decimal digits. */
  function DigitsValue(s: string): nat
    requires AllDigits(s)
  {
    if s == [] then 0 else 10 * DigitsValue(s[..|s| - 1]) + (s[|s| - 1] as int - '0' as int)
  }

  function Pow10(k: nat): (r: nat)
    ensures r >= 1
  {
    if k == 0 then 1 else 10 * Pow10(k - 1)
  }

  /** Reading the digits back gives the number: the decimal form loses nothing. */
  lemma {:induction false} DecimalRoundTrip(n: nat)
    ensures DigitsValue(DecimalString(n)) == n
  {
    if n >= 10 {
      DecimalRoundTrip(n / 10);
      var s := DecimalString(n);
      assert s[..|s| - 1] == DecimalString(n / 10);
    }
  }

  /** The decimal form has exactly `k` digits when `10^(k-1) <= n < 10^k`. */
  lemma {:induction false} DecimalLength(n: nat, k: nat)
    requires k >= 1 && Pow10(k - 1) <= n < Pow10(k)
    ensures |DecimalString(n)| == k
  {
    if n >= 10 {
      assert Pow10(1) == 10;
      assert k >= 2;
      DecimalLength(n / 10, k - 1);
    }
  }

  /** A character that can stand in either part of an ABHA ID: neither whitespace nor '@'. */
  predicate Plain(c: char) { !IsJsWhitespace(c) && c != '@' }

  predicate AllPlain(s: string) { forall i :: 0 <= i < |s| ==> Plain(s[i]) }

  /** The anchored pattern `^[^\s@]+@[^\s@]+$`, run as the automaton it compiles to:
      state 0 = nothing read, 1 = inside the first part, 2 = just after '@',
      3 = inside the second part (the only accepting state). */
  predicate Accepts(s: string, state: nat)
    decreases |s|
  {
    if s == [] then state == 3
    else if state == 0 then Plain(s[0]) && Accepts(s[1..], 1)
    else if state == 1 then (if Plain(s[0]) then Accepts(s[1..], 1) else s[0] == '@' && Accepts(s[1..], 2))
    else Plain(s[0]) && Accepts(s[1..], 3)
  }

  /** `/^[^\s@]+@[^\s@]+$/.test(s)`. */
  predicate IsAbhaFormat(s: string) { Accepts(s, 0) }

  /** `s` splits at `k` into a part before the '@' at `k` and a non-empty part after it, with
      neither whitespace nor a further '@' in either. */
  predicate SplitsAt(s: string, k: int) {
    0 <= k < |s| - 1 && s[k] == '@' && AllPlain(s[..k]) && AllPlain(s[k + 1..])
  }

  /** `s` is a non-empty part, one '@', and a non-empty part, with no whitespace anywhere. */
  predicate IsUserAtDomain(s: string) {
    exists k :: 0 < k < |s| - 1 && SplitsAt(s, k)
  }

  lemma {:induction false} AcceptsTail(s: string)
    ensures Accepts(s, 3) <==> AllPlain(s)
    decreases |s|
  {
    if s != [] {
      AcceptsTail(s[1..]);
      AllPlainCons(s[0], s[1..]);
      assert [s[0]] + s[1..] == s;
    }
  }

  lemma AllPlainCons(c: char, t: string)
    ensures AllPlain([c] + t) <==> Plain(c) && AllPlain(t)
  {
    var u := [c] + t;
    assert u[0] == c;
    assert forall i :: 0 <= i < |t| ==> u[i + 1] == t[i];
    if Plain(c) && AllPlain(t) {
      forall i | 0 <= i < |u| ensures Plain(u[i]) {
        if i > 0 { assert u[i] == t[i - 1]; }
      }
    }
  }

  /** Past a plain first character, a split point moves one place left. */
  lemma SplitsAtShift(s: string, k: int)
    requires s != [] && Plain(s[0]) && 0 < k
    ensures SplitsAt(s, k) <==> SplitsAt(s[1..], k - 1)
  {
    if k < |s| - 1 {
      assert s[..k] == [s[0]] + s[1..][..k - 1];
      AllPlainCons(s[0], s[1..][..k - 1]);
      assert s[1..][k - 1 + 1..] == s[k + 1..];
    }
  }

  /** A text starting with a character that is not plain splits, if at all, at 0. */
  lemma NoLaterSplit(s: string, k: int)
    requires s != [] && !Plain(s[0]) && 0 < k
    ensures !SplitsAt(s, k)
  {
    if k < |s| - 1 {
      assert s[..k][0] == s[0];
    }
  }

  lemma {:induction false} AcceptsFirstPart(s: string)
    ensures Accepts(s, 1) <==> exists k :: SplitsAt(s, k)
    decreases |s|
  {
    if s == [] { return; }
    if Plain(s[0]) {
      AcceptsFirstPart(s[1..]);
      if Accepts(s, 1) {
        var k :| SplitsAt(s[1..], k);
        SplitsAtShift(s, k + 1);
      }
      if exists k :: SplitsAt(s, k) {
        var k :| SplitsAt(s, k);
        SplitsAtShift(s, k);
      }
    } else {
      AcceptsTail(s[1..]);
      if exists k :: SplitsAt(s, k) {
        var k :| SplitsAt(s, k);
        if k > 0 { NoLaterSplit(s, k); }
        assert s[0 + 1..] == s[1..];
      }
      if Accepts(s, 1) {
        assert s[0] == '@' && Accepts(s[1..], 2);
        assert s[1..] != [] && Accepts(s[1..], 3);
        assert s[..0] == [] && s[0 + 1..] == s[1..];
        assert SplitsAt(s, 0);
      }
    }
  }

  /** The automaton accepts exactly the texts made of a non-empty part, one '@' and a
      non-empty part, with no whitespace: the reading of the pattern the controllers rely on. */
  lemma AbhaFormatMeaning(s: string)
    ensures IsAbhaFormat(s) <==> IsUserAtDomain(s)
  {
    if s == [] { return; }
    if Plain(s[0]) {
      AcceptsFirstPart(s[1..]);
      if IsAbhaFormat(s) {
        var k :| SplitsAt(s[1..], k);
        SplitsAtShift(s, k + 1);
      }
      if IsUserAtDomain(s) {
        var k :| 0 < k < |s| - 1 && SplitsAt(s, k);
        SplitsAtShift(s, k);
      }
    } else if IsUserAtDomain(s) {
      var k :| 0 < k < |s| - 1 && SplitsAt(s, k);
      NoLaterSplit(s, k);
    }
  }
}
