/**
 * The Python `str` operations the bot relies on, written out on `seq<char>`:
 * `in`, `startswith`, `lower`, `strip`, `replace(p, "")`, `split`, `join`,
 * `str(n)` and the `{:,}` thousands format.
 */
module PyText {

  // ---------------------------------------------------------------------------
  // Substring tests
  // ---------------------------------------------------------------------------

  /** `s.startswith(prefix)` */
  predicate StartsWith(s: string, prefix: string) {
    |prefix| <= |s| && s[..|prefix|] == prefix
  }

  /** `sub` occurs in `s` starting at position `i`. */
  predicate OccursAt(s: string, sub: string, i: int) {
    0 <= i <= |s| - |sub| && s[i..i + |sub|] == sub
  }

  /** `sub in s` */
  predicate Contains(s: string, sub: string) {
    exists i | 0 <= i <= |s| - |sub| :: OccursAt(s, sub, i)
  }

  /** An occurrence at a known position is an occurrence. */
  lemma ContainsAt(s: string, sub: string, i: int)
    requires OccursAt(s, sub, i)
    ensures Contains(s, sub)
  {
  }

  /** A text containing `a + b` contains `a`. */
  lemma ContainsPrefixOfPattern(s: string, a: string, b: string)
    requires Contains(s, a + b)
    ensures Contains(s, a)
  {
    var i :| 0 <= i <= |s| - |a + b| && OccursAt(s, a + b, i);
    assert s[i..i + |a|] == (a + b)[..|a|];
    ContainsAt(s, a, i);
  }

  /** A pattern found in `t` is found in any text that has `t` inside it. */
  lemma ContainsInContext(u: string, t: string, v: string, sub: string)
    requires Contains(t, sub)
    ensures Contains(u + t + v, sub)
  {
    var i :| 0 <= i <= |t| - |sub| && OccursAt(t, sub, i);
    var j := |u| + i;
    assert (u + t + v)[j..j + |sub|] == t[i..i + |sub|];
    ContainsAt(u + t + v, sub, j);
  }

  /** Nothing but the empty pattern is found in the empty text. */
  lemma NotContainedInShorter(s: string, sub: string)
    requires |s| < |sub|
    ensures !Contains(s, sub)
  {
  }

  // ---------------------------------------------------------------------------
  // str.lower()
  // ---------------------------------------------------------------------------

  const KelvinSign: char := '\U{212A}'
  const CapitalIWithDot: char := '\U{0130}'
  const CombiningDotAbove: char := '\U{0307}'

  /**
   * The lower-case form of one character. It agrees with Python on every ASCII
   * character and on the only two non-ASCII characters whose lower-case form
   * holds an ASCII letter (KELVIN SIGN and LATIN CAPITAL LETTER I WITH DOT
   * ABOVE); any other character is kept as it is.
   */
  function LowerChar(c: char): (r: string)
    ensures 'A' <= c <= 'Z' ==> r == [(c as int + 32) as char]
    ensures !('A' <= c <= 'Z') && c != KelvinSign && c != CapitalIWithDot ==> r == [c]
  {
    if 'A' <= c <= 'Z' then [(c as int + 32) as char]
    else if c == KelvinSign then "k"
    else if c == CapitalIWithDot then ['i', CombiningDotAbove]
    else [c]
  }

  function Lower(s: string): string {
    if s == [] then [] else LowerChar(s[0]) + Lower(s[1..])
  }

  /** No character of a lower-cased text is changed by lowering it again. */
  lemma LowerCharIsLowered(c: char)
    ensures Lower(LowerChar(c)) == LowerChar(c)
  {
    var l := LowerChar(c);
    if |l| == 1 {
      assert Lower(l) == LowerChar(l[0]) + Lower([]);
    } else {
      assert Lower(l[1..]) == LowerChar(l[1]) + Lower([]);
    }
  }

  lemma {:induction false} LowerAppend(a: string, b: string)
    ensures Lower(a + b) == Lower(a) + Lower(b)
  {
    if a != [] {
      assert (a + b)[0] == a[0];
      assert (a + b)[1..] == a[1..] + b;
      LowerAppend(a[1..], b);
    } else {
      assert a + b == b;
    }
  }

  /** `s.lower().lower() == s.lower()` */
  lemma {:induction false} LowerIdempotent(s: string)
    ensures Lower(Lower(s)) == Lower(s)
  {
    if s != [] {
      LowerAppend(LowerChar(s[0]), Lower(s[1..]));
      LowerCharIsLowered(s[0]);
      LowerIdempotent(s[1..]);
    }
  }

  /** A text without upper-case ASCII letters and without the two special characters is its own lower-case form. */
  lemma {:induction false} LowerOfLowered(s: string)
    requires forall i :: 0 <= i < |s| ==> !('A' <= s[i] <= 'Z') && s[i] != KelvinSign && s[i] != CapitalIWithDot
    ensures Lower(s) == s
  {
    if s != [] {
      LowerOfLowered(s[1..]);
    }
  }

  // ---------------------------------------------------------------------------
  // str.strip()
  // ---------------------------------------------------------------------------

  /** Python's `str.isspace()` for one character. */
  predicate IsSpace(c: char) {
    || c == '\t' || c == '\n' || c == '\U{000B}' || c == '\U{000C}' || c == '\r'
    || ('\U{001C}' <= c <= '\U{001F}') || c == ' ' || c == '\U{0085}' || c == '\U{00A0}'
    || c == '\U{1680}' || ('\U{2000}' <= c <= '\U{200A}') || c == '\U{2028}' || c == '\U{2029}'
    || c == '\U{202F}' || c == '\U{205F}' || c == '\U{3000}'
  }

  predicate AllSpace(s: string) {
    forall i :: 0 <= i < |s| ==> IsSpace(s[i])
  }

  /** `s.lstrip()`: the suffix of `s` left after dropping its leading white space. */
  function TrimLeft(s: string): (r: string)
    ensures |r| <= |s| && r == s[|s| - |r|..]
    ensures r != [] ==> !IsSpace(r[0])
    ensures AllSpace(s[..|s| - |r|])
  {
    if s != [] && IsSpace(s[0]) then
      var r := TrimLeft(s[1..]);
      TrimLeftStep(s, r);
      r
    else s
  }

  /** `s.rstrip()`: the prefix of `s` left after dropping its trailing white space. */
  function TrimRight(s: string): (r: string)
    ensures |r| <= |s| && r == s[..|r|]
    ensures r != [] ==> !IsSpace(r[|r| - 1])
    ensures AllSpace(s[|r|..])
  {
    if s != [] && IsSpace(s[|s| - 1]) then
      var r := TrimRight(s[..|s| - 1]);
      TrimRightStep(s, r);
      r
    else s
  }
  /** Dropping one more leading space keeps the trimmed text a suffix behind spaces only. */
  lemma TrimLeftStep(s: string, r: string)
    requires s != [] && IsSpace(s[0])
    requires |r| <= |s| - 1 && r == s[1..][|s| - 1 - |r|..] && AllSpace(s[1..][..|s| - 1 - |r|])
    ensures r == s[|s| - |r|..] && AllSpace(s[..|s| - |r|])
  {
    var gap := s[..|s| - |r|];
    forall k | 0 <= k < |gap|
      ensures IsSpace(gap[k])
    {
      if k > 0 {
        assert gap[k] == s[1..][..|s| - 1 - |r|][k - 1];
      }
    }
  }

  /** Dropping one more trailing space keeps the trimmed text a prefix before spaces only. */
  lemma TrimRightStep(s: string, r: string)
    requires s != [] && IsSpace(s[|s| - 1])
    requires |r| <= |s| - 1 && r == s[..|s| - 1][..|r|] && AllSpace(s[..|s| - 1][|r|..])
    ensures r == s[..|r|] && AllSpace(s[|r|..])
  {
    var gap := s[|r|..];
    forall k | 0 <= k < |gap|
      ensures IsSpace(gap[k])
    {
      if k < |gap| - 1 {
        assert gap[k] == s[..|s| - 1][|r|..][k];
      }
    }
  }


  /** `s.strip()` */
  function Strip(s: string): (r: string)
    ensures r != [] ==> !IsSpace(r[0]) && !IsSpace(r[|r| - 1])
  {
    TrimRight(TrimLeft(s))
  }

  /** A text that neither starts nor ends with white space is its own strip. */
  lemma StripOfUnpadded(s: string)
    requires s != [] && !IsSpace(s[0]) && !IsSpace(s[|s| - 1])
    ensures Strip(s) == s
  {
    assert TrimLeft(s) == s;
  }

  /** `s.strip()` is empty exactly when `s` is all white space (the empty text included). */
  lemma StripEmptyIffAllSpace(s: string)
    ensures Strip(s) == [] <==> AllSpace(s)
  {
    var l := TrimLeft(s);
    if Strip(s) == [] {
      assert AllSpace(l[0..]);
      assert s[..|s| - |l|] == s;
    }
  }

  /** What `strip` keeps is a contiguous piece of the text. */
  lemma StripIsSlice(s: string)
    ensures exists i, j :: 0 <= i <= j <= |s| && Strip(s) == s[i..j]
  {
    var l := TrimLeft(s);
    var r := TrimRight(l);
    var i := |s| - |l|;
    assert r == s[i..i + |r|];
  }

  /** Stripping twice is stripping once. */
  lemma StripIdempotent(s: string)
    ensures Strip(Strip(s)) == Strip(s)
  {
  }

  // ---------------------------------------------------------------------------
  // str.replace(p, "")
  // ---------------------------------------------------------------------------

  /**
   * `s.replace(p, "")` for a non-empty `p`: one left-to-right pass that deletes
   * each non-overlapping occurrence of `p` it meets.
   */
  function RemoveAll(s: string, p: string): (r: string)
    requires p != []
    ensures |r| <= |s|
    decreases |s|
  {
    if |s| < |p| then s
    else if s[..|p|] == p then RemoveAll(s[|p|..], p)
    else [s[0]] + RemoveAll(s[1..], p)
  }

  /** A text in which `p` does not occur is left unchanged. */
  lemma {:induction false} RemoveAllAbsent(s: string, p: string)
    requires p != [] && !Contains(s, p)
    ensures RemoveAll(s, p) == s
    decreases |s|
  {
    if |s| >= |p| {
      assert !OccursAt(s, p, 0);
      assert !Contains(s[1..], p) by {
        forall i | OccursAt(s[1..], p, i) ensures OccursAt(s, p, i + 1) {
          assert s[i + 1..i + 1 + |p|] == s[1..][i..i + |p|];
        }
      }
      RemoveAllAbsent(s[1..], p);
    }
  }

  /** A pattern whose first character is absent from the text does not occur in it. */
  lemma FirstCharAbsent(s: string, p: string)
    requires p != [] && p[0] !in s
    ensures !Contains(s, p)
  {
    forall i | 0 <= i <= |s| - |p|
      ensures !OccursAt(s, p, i)
    {
      assert s[i..i + |p|][0] == s[i] && s[i] in s;
    }
  }

  /** Where `p` does not start the text, its first character is kept. */
  lemma RemoveAllSkip(s: string, p: string)
    requires p != [] && |s| >= |p| && s[..|p|] != p
    ensures RemoveAll(s, p) == [s[0]] + RemoveAll(s[1..], p)
  {
  }

  /** Text that cannot start the pattern is kept, and the first occurrence after it is removed. */
  lemma {:induction false} RemoveAllAfterPrefix(a: string, p: string, b: string)
    requires p != [] && p[0] !in a
    ensures RemoveAll(a + p + b, p) == a + RemoveAll(b, p)
    decreases |a|
  {
    if a == [] {
      assert a + p + b == p + b;
      RemoveAllLeading(p, b);
    } else {
      var t := a[1..];
      assert a[0] in a;
      SlicesKeepAbsence(a, 1, p[0]);
      RemoveAllAfterPrefix(t, p, b);
      RemoveAllPrefixStep(a[0], t, t + p + b, p, RemoveAll(b, p));
      assert a + p + b == [a[0]] + (t + p + b);
      assert a == [a[0]] + t;
    }
  }

  lemma RemoveAllPrefixStep(c: char, t: string, u: string, p: string, rest: string)
    requires p != [] && c != p[0] && RemoveAll(u, p) == t + rest
    ensures RemoveAll([c] + u, p) == [c] + t + rest
  {
    RemoveAllCons(c, u, p);
  }

  /** A leading character that cannot start the pattern is kept. */
  lemma RemoveAllCons(c: char, u: string, p: string)
    requires p != [] && c != p[0]
    ensures RemoveAll([c] + u, p) == [c] + RemoveAll(u, p)
  {
    var s := [c] + u;
    assert s[1..] == u;
    if |s| >= |p| {
      assert s[..|p|][0] == c;
    }
  }

  /** A leading occurrence is removed and the rest is processed on its own. */
  lemma RemoveAllLeading(p: string, s: string)
    requires p != []
    ensures RemoveAll(p + s, p) == RemoveAll(s, p)
  {
    assert (p + s)[..|p|] == p;
    assert (p + s)[|p|..] == s;
  }

  // ---------------------------------------------------------------------------
  // str.split(sep) and sep.join(pieces)
  // ---------------------------------------------------------------------------

  /** `s.split(sep)`: never empty. */
  function Split(s: string, sep: char): (r: seq<string>)
    ensures |r| >= 1
  {
    if s == [] then [""]
    else
      var r := Split(s[1..], sep);
      if s[0] == sep then [""] + r
      else [[s[0]] + r[0]] + r[1..]
  }

  /** No piece of a split holds the separator. */
  lemma {:induction false} SplitPiecesFree(s: string, sep: char)
    ensures forall i :: 0 <= i < |Split(s, sep)| ==> sep !in Split(s, sep)[i]
  {
    if s != [] {
      SplitPiecesFree(s[1..], sep);
      var r := Split(s[1..], sep);
      if s[0] != sep {
        assert forall x :: x in [s[0]] + r[0] ==> x == s[0] || x in r[0];
      }
    }
  }

  /** `sep.join(pieces)` */
  function Join(pieces: seq<string>, sep: char): string {
    if pieces == [] then ""
    else if |pieces| == 1 then pieces[0]
    else pieces[0] + [sep] + Join(pieces[1..], sep)
  }

  /** A piece in front of a non-empty list is followed by one separator. */
  lemma JoinCons(piece: string, pieces: seq<string>, sep: char)
    requires |pieces| >= 1
    ensures Join([piece] + pieces, sep) == piece + [sep] + Join(pieces, sep)
  {
    assert ([piece] + pieces)[1..] == pieces;
  }

  /** Joining the pieces of a split gives the text back. */
  lemma {:induction false} JoinSplit(s: string, sep: char)
    ensures Join(Split(s, sep), sep) == s
  {
    if s != [] {
      var r := Split(s[1..], sep);
      JoinSplit(s[1..], sep);
      if s[0] == sep {
        JoinCons("", r, sep);
      } else if |r| > 1 {
        JoinCons([s[0]] + r[0], r[1..], sep);
        JoinCons(r[0], r[1..], sep);
        assert [r[0]] + r[1..] == r;
      }
      assert s == [s[0]] + s[1..];
    }
  }

  /** A text without the separator is a single piece. */
  lemma {:induction false} SplitFree(s: string, sep: char)
    requires sep !in s
    ensures Split(s, sep) == [s]
  {
    if s != [] {
      assert sep !in s[1..] by {
        assert forall x :: x in s[1..] ==> x in s;
      }
      SplitFree(s[1..], sep);
      assert s == [s[0]] + s[1..];
    }
  }

  /** Growing the first piece commutes with appending more pieces. */
  lemma GrowFirstPiece(c: char, left: seq<string>, right: seq<string>)
    requires |left| >= 1
    ensures [[c] + (left + right)[0]] + (left + right)[1..] == ([[c] + left[0]] + left[1..]) + right
  {
    assert (left + right)[0] == left[0];
    assert (left + right)[1..] == left[1..] + right;
  }

  /** A separator splits the text into the pieces of either side. */
  lemma {:induction false} SplitAround(a: string, sep: char, b: string)
    ensures Split(a + [sep] + b, sep) == Split(a, sep) + Split(b, sep)
  {
    if a == [] {
      assert a + [sep] + b == [sep] + b;
      SplitSepCons(sep, b);
    } else {
      var t := a[1..];
      SplitAround(t, sep, b);
      SplitAroundStep(a[0], t, t + [sep] + b, sep, Split(b, sep));
      assert a == [a[0]] + t;
      assert a + [sep] + b == [a[0]] + (t + [sep] + b);
    }
  }

  /** A leading character joins the first piece on both sides, or opens a new one. */
  lemma SplitAroundStep(c: char, t: string, u: string, sep: char, more: seq<string>)
    requires Split(u, sep) == Split(t, sep) + more
    ensures Split([c] + u, sep) == Split([c] + t, sep) + more
  {
    var left := Split(t, sep);
    if c == sep {
      SplitSepCons(sep, u);
      SplitSepCons(sep, t);
      assert [""] + (left + more) == ([""] + left) + more;
    } else {
      SplitCharCons(c, u, sep);
      SplitCharCons(c, t, sep);
      GrowFirstPiece(c, left, more);
    }
  }

  lemma SplitSepCons(sep: char, t: string)
    ensures Split([sep] + t, sep) == [""] + Split(t, sep)
  {
    assert ([sep] + t)[1..] == t;
  }

  lemma SplitCharCons(c: char, t: string, sep: char)
    requires c != sep
    ensures Split([c] + t, sep) == [[c] + Split(t, sep)[0]] + Split(t, sep)[1..]
  {
    assert ([c] + t)[1..] == t;
  }

  /** Splitting a join of separator-free pieces gives the pieces back. */
  lemma {:induction false} SplitJoin(pieces: seq<string>, sep: char)
    requires |pieces| >= 1
    requires forall i :: 0 <= i < |pieces| ==> sep !in pieces[i]
    ensures Split(Join(pieces, sep), sep) == pieces
  {
    SplitFree(pieces[0], sep);
    if |pieces| > 1 {
      SplitAround(pieces[0], sep, Join(pieces[1..], sep));
      SplitJoin(pieces[1..], sep);
      assert [pieces[0]] + pieces[1..] == pieces;
    }
  }

  // ---------------------------------------------------------------------------
  // str(n) and f"{n:,}"
  // ---------------------------------------------------------------------------

  function DigitChar(d: nat): (c: char)
    requires d < 10
    ensures IsDigit(c) && DigitValue(c) == d
  {
    (d + '0' as int) as char
  }

  predicate IsDigit(c: char) {
    '0' <= c <= '9'
  }

  function DigitValue(c: char): nat
    requires IsDigit(c)
  {
    c as int - '0' as int
  }

  /** `str(n)` for a non-negative integer: decimal digits, no leading zero. */
  function Decimal(n: nat): (r: string)
    ensures 1 <= |r|
    ensures forall i :: 0 <= i < |r| ==> IsDigit(r[i])
    ensures |r| > 1 ==> r[0] != '0'
  {
    if n < 10 then [DigitChar(n)] else Decimal(n / 10) + [DigitChar(n % 10)]
  }

  /** The value of a text of decimal digits (`int(s)`). */
  function DecimalValue(s: string): nat
    requires forall i :: 0 <= i < |s| ==> IsDigit(s[i])
  {
    if s == [] then 0 else 10 * DecimalValue(s[..|s| - 1]) + DigitValue(s[|s| - 1])
  }

  /** `int(str(n)) == n` */
  lemma {:induction false} DecimalRoundTrip(n: nat)
    ensures DecimalValue(Decimal(n)) == n
  {
    if n >= 10 {
      var s := Decimal(n);
      assert s[..|s| - 1] == Decimal(n / 10);
      DecimalRoundTrip(n / 10);
    }
  }

  /** Digits with a comma before every group of three, counted from the right. */
  function Grouped(digits: string): string
    decreases |digits|
  {
    if |digits| <= 3 then digits
    else Grouped(digits[..|digits| - 3]) + "," + digits[|digits| - 3..]
  }

  /** `f"{n:,}"` for an integer. */
  function Thousands(n: int): string {
    if n < 0 then "-" + Grouped(Decimal(-n)) else Grouped(Decimal(n))
  }

  /** The text with every comma deleted. */
  function DropCommas(s: string): string {
    if s == [] then [] else (if s[0] == ',' then [] else [s[0]]) + DropCommas(s[1..])
  }

  /** A text without commas is left as it is. */
  lemma {:induction false} DropCommasAbsent(s: string)
    requires ',' !in s
    ensures DropCommas(s) == s
  {
    if s != [] {
      SlicesKeepAbsence(s, 1, ',');
      DropCommasAbsent(s[1..]);
      assert s == [s[0]] + s[1..];
    }
  }

  lemma {:induction false} DropCommasAppend(a: string, b: string)
    ensures DropCommas(a + b) == DropCommas(a) + DropCommas(b)
  {
    if a != [] {
      assert (a + b)[0] == a[0];
      assert (a + b)[1..] == a[1..] + b;
      DropCommasAppend(a[1..], b);
    } else {
      assert a + b == b;
    }
  }

  /** Deleting the separators from a grouped number gives its plain digits back. */
  lemma {:induction false} GroupedDropCommas(digits: string)
    requires ',' !in digits
    ensures DropCommas(Grouped(digits)) == digits
    decreases |digits|
  {
    if |digits| > 3 {
      var head, tail := digits[..|digits| - 3], digits[|digits| - 3..];
      SlicesKeepAbsence(digits, |digits| - 3, ',');
      GroupedDropCommas(head);
      DropAroundComma(Grouped(head), tail);
      DropCommasAbsent(tail);
      assert digits == head + tail;
    } else {
      DropCommasAbsent(digits);
    }
  }

  /** Both sides of a cut miss a character the whole text misses. */
  lemma SlicesKeepAbsence(s: string, k: nat, c: char)
    requires k <= |s| && c !in s
    ensures c !in s[..k] && c !in s[k..]
  {
    assert forall x :: x in s[..k] ==> x in s;
    assert forall x :: x in s[k..] ==> x in s;
  }

  /** Deleting the commas of `a + "," + b` deletes those of each side. */
  lemma {:induction false} DropAroundComma(a: string, b: string)
    ensures DropCommas(a + "," + b) == DropCommas(a) + DropCommas(b)
  {
    var comma := ",";
    assert comma[1..] == [];
    assert DropCommas(comma) == [];
    DropCommasAppend(a + comma, b);
    DropCommasAppend(a, comma);
  }

  /** `f"{n:,}"` with its commas deleted is `str(n)`. */
  lemma ThousandsIsDecimal(n: int)
    ensures n >= 0 ==> DropCommas(Thousands(n)) == Decimal(n)
    ensures n < 0 ==> DropCommas(Thousands(n)) == "-" + Decimal(-n)
  {
    var d := Decimal(if n < 0 then -n else n);
    GroupedDropCommas(d);
    if n < 0 {
      DropCommasAppend("-", Grouped(d));
      assert DropCommas("-") == "-" + DropCommas([]);
    }
  }

  /** Two-digit zero-padded form, as in `%02d`. */
  function Pad2(n: nat): (r: string)
    requires n < 100
    ensures |r| == 2 && IsDigit(r[0]) && IsDigit(r[1])
    ensures 10 * DigitValue(r[0]) + DigitValue(r[1]) == n
  {
    [DigitChar(n / 10), DigitChar(n % 10)]
  }

  /** Four-digit zero-padded form, as in `%04d`. */
  /** Four digits, zero-padded on the left, that read back as `n`. */
  function Pad4(n: nat): (r: string)
    requires n < 10000
    ensures |r| == 4 && forall i :: 0 <= i < 4 ==> IsDigit(r[i])
    ensures DecimalValue(r) == n
  {
    Pad2Value(n / 100);
    Pad2Value(n % 100);
    DecimalValueAppend2(Pad2(n / 100), Pad2(n % 100));
    Pad2(n / 100) + Pad2(n % 100)
  }

  /** Two digits read back as the number they pad. */
  lemma Pad2Value(n: nat)
    requires n < 100
    ensures DecimalValue(Pad2(n)) == n
  {
    var r := Pad2(n);
    var head := r[..1];
    assert head[..0] == [] && head[0] == r[0];
    assert DecimalValue(head) == DigitValue(r[0]);
    assert r[..|r| - 1] == head;
  }

  /** Appending two digits multiplies the value by a hundred and adds theirs. */
  lemma DecimalValueAppend2(a: string, b: string)
    requires forall i :: 0 <= i < |a| ==> IsDigit(a[i])
    requires |b| == 2 && IsDigit(b[0]) && IsDigit(b[1])
    ensures forall i :: 0 <= i < |a + b| ==> IsDigit((a + b)[i])
    ensures DecimalValue(a + b) == 100 * DecimalValue(a) + 10 * DigitValue(b[0]) + DigitValue(b[1])
  {
    var ab := a + b;
    var a1 := a + [b[0]];
    assert ab[..|ab| - 1] == a1;
    assert a1[..|a1| - 1] == a;
  }
}
