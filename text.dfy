/** The string primitives of Python that the ingest relies on: `str.strip`,
    `str.lower`, `str.join`, `str(n)` and the `{:020d}` format, over
    ASCII whitespace and ASCII letters. `Split` and `DigitsValue` are the
    inverses used to state what the encodings preserve. */
module Text {

  /** The ASCII characters `str.isspace` holds for, which `str.strip`
      removes: space, tab, the line and page breaks and the four
      information separators. */
  predicate IsSpace(c: char) {
    c == ' ' || c == '\t' || c == '\n' || c == '\r' || c == '\U{000B}' || c == '\U{000C}'
    || '\U{001C}' <= c <= '\U{001F}'
  }

  /** `s` without its leading whitespace. */
  function StripStart(s: string): string
  {
    if s != [] && IsSpace(s[0]) then StripStart(s[1..]) else s
  }

  /** `s` without its trailing whitespace. */
  function StripEnd(s: string): string
  {
    if s != [] && IsSpace(s[|s| - 1]) then StripEnd(s[..|s| - 1]) else s
  }

  /** StripStart drops a prefix of whitespace and keeps the rest, which
      does not start with whitespace. */
  lemma {:induction false} StripStartShape(s: string)
    ensures var r := StripStart(s);
      && |r| <= |s| && r == s[|s| - |r|..]
      && (r == [] || !IsSpace(r[0]))
      && forall k | 0 <= k < |s| - |r| :: IsSpace(s[k])
    decreases |s|
  {
    if s != [] && IsSpace(s[0]) {
      StripStartShape(s[1..]);
    }
  }

  /** StripEnd drops a suffix of whitespace and keeps the rest, which does
      not end with whitespace. */
  lemma {:induction false} StripEndShape(s: string)
    ensures var r := StripEnd(s);
      && |r| <= |s| && r == s[..|r|]
      && (r == [] || !IsSpace(r[|r| - 1]))
      && forall k | |r| <= k < |s| :: IsSpace(s[k])
    decreases |s|
  {
    if s != [] && IsSpace(s[|s| - 1]) {
      StripEndShape(s[..|s| - 1]);
    }
  }

  /** Python's `s.strip()`: `s` with whitespace removed from both ends. */
  function Strip(s: string): string {
    StripEnd(StripStart(s))
  }

  /** What `Strip` keeps is a slice of `s` that neither starts nor ends with
      whitespace, and what it drops is whitespace only. */
  lemma StripIsTrimmedSlice(s: string)
    ensures var r := Strip(s);
      && (r == [] || (!IsSpace(r[0]) && !IsSpace(r[|r| - 1])))
      && exists i, j | 0 <= i <= j <= |s| :: r == s[i..j]
           && (forall k | 0 <= k < i :: IsSpace(s[k]))
           && (forall k | j <= k < |s| :: IsSpace(s[k]))
  {
    var t := StripStart(s);
    var r := StripEnd(t);
    StripStartShape(s);
    StripEndShape(t);
    var i := |s| - |t|;
    var j := i + |r|;
    assert r == s[i..j];
    assert forall k | 0 <= k < i :: IsSpace(s[k]);
    forall k | j <= k < |s| ensures IsSpace(s[k]) {
      assert s[k] == t[k - i];
    }
    if r != [] {
      assert r[0] == t[0];
    }
    assert r == s[i..j] && (forall k | 0 <= k < i :: IsSpace(s[k])) && (forall k | j <= k < |s| :: IsSpace(s[k]));
  }

  lemma {:induction false} StripStartOfTrimmed(s: string)
    requires s == [] || !IsSpace(s[0])
    ensures StripStart(s) == s
  {
  }

  lemma {:induction false} StripEndOfTrimmed(s: string)
    requires s == [] || !IsSpace(s[|s| - 1])
    ensures StripEnd(s) == s
  {
  }

  /** Stripping twice is stripping once. */
  lemma StripIdempotent(s: string)
    ensures Strip(Strip(s)) == Strip(s)
  {
    var r := Strip(s);
    StripIsTrimmedSlice(s);
    StripStartOfTrimmed(r);
    StripEndOfTrimmed(r);
  }

  /** Whitespace around a value never changes what it strips to. */
  lemma {:induction false} StripIgnoresPadding(pre: string, s: string, post: string)
    requires forall k | 0 <= k < |pre| :: IsSpace(pre[k])
    requires forall k | 0 <= k < |post| :: IsSpace(post[k])
    ensures Strip(pre + s + post) == Strip(s)
  {
    StripStartPadding(pre, s + post);
    assert pre + s + post == pre + (s + post);
    StripEndPadding(StripStart(s), post);
    StripStartKeepsTail(s, post);
  }

  lemma {:induction false} StripStartPadding(pre: string, s: string)
    requires forall k | 0 <= k < |pre| :: IsSpace(pre[k])
    ensures StripStart(pre + s) == StripStart(s)
    decreases |pre|
  {
    if pre != [] {
      assert (pre + s)[1..] == pre[1..] + s;
      StripStartPadding(pre[1..], s);
    } else {
      assert pre + s == s;
    }
  }

  lemma {:induction false} StripEndPadding(s: string, post: string)
    requires forall k | 0 <= k < |post| :: IsSpace(post[k])
    ensures StripEnd(s + post) == StripEnd(s)
    decreases |post|
  {
    if post != [] {
      assert (s + post)[..|s + post| - 1] == s + post[..|post| - 1];
      StripEndPadding(s, post[..|post| - 1]);
    } else {
      assert s + post == s;
    }
  }

  /** StripStart only looks at the front: what follows is carried along. */
  lemma {:induction false} StripStartKeepsTail(s: string, post: string)
    requires forall k | 0 <= k < |post| :: IsSpace(post[k])
    ensures StripEnd(StripStart(s + post)) == StripEnd(StripStart(s))
    decreases |s|
  {
    if s != [] && IsSpace(s[0]) {
      assert (s + post)[1..] == s[1..] + post;
      StripStartKeepsTail(s[1..], post);
    } else if s != [] {
      StripEndPadding(s, post);
    } else {
      assert s + post == post + [];
      StripStartPadding(post, []);
    }
  }

  /** ASCII `str.lower` on one character. */
  function LowerChar(c: char): char {
    if 'A' <= c <= 'Z' then (c as int + 32) as char else c
  }

  /** Python's `s.lower()` on ASCII letters. */
  function Lower(s: string): string {
    seq(|s|, i requires 0 <= i < |s| => LowerChar(s[i]))
  }

  /** Lower-casing keeps the length, leaves no upper-case ASCII letter,
      is idempotent and commutes with `Strip` (it never touches whitespace). */
  lemma LowerProperties(s: string)
    ensures |Lower(s)| == |s|
    ensures forall i | 0 <= i < |s| :: !('A' <= Lower(s)[i] <= 'Z')
    ensures Lower(Lower(s)) == Lower(s)
  {
  }

  lemma {:induction false} LowerStripCommute(s: string)
    ensures Lower(Strip(s)) == Strip(Lower(s))
  {
    LowerStripStart(s);
    LowerStripEnd(StripStart(s));
  }

  lemma {:induction false} LowerStripStart(s: string)
    ensures Lower(StripStart(s)) == StripStart(Lower(s))
    decreases |s|
  {
    if s != [] {
      assert Lower(s)[1..] == Lower(s[1..]);
      LowerStripStart(s[1..]);
    }
  }

  lemma {:induction false} LowerStripEnd(s: string)
    ensures Lower(StripEnd(s)) == StripEnd(Lower(s))
    decreases |s|
  {
    if s != [] {
      assert Lower(s)[..|s| - 1] == Lower(s[..|s| - 1]);
      LowerStripEnd(s[..|s| - 1]);
    }
  }

  /** Python's `sep.join(parts)`. */
  function Join(parts: seq<string>, sep: string): string
    decreases |parts|
  {
    if |parts| == 0 then ""
    else if |parts| == 1 then parts[0]
    else parts[0] + sep + Join(parts[1..], sep)
  }

  /** The index of the first `c` in `s`. */
  function IndexOf(s: string, c: char): (i: nat)
    requires c in s
    ensures i < |s| && s[i] == c && c !in s[..i]
  {
    if s[0] == c then 0 else 1 + IndexOf(s[1..], c)
  }

  /** Python's `s.split(sep)` for a one-character separator. */
  function Split(s: string, sep: char): (parts: seq<string>)
    ensures |parts| >= 1
    decreases |s|
  {
    if sep in s then
      var i := IndexOf(s, sep);
      [s[..i]] + Split(s[i + 1..], sep)
    else [s]
  }

  /** Joining parts that do not contain the separator and splitting again
      gives back the parts: such a join loses nothing. */
  lemma {:induction false} SplitJoin(parts: seq<string>, sep: char)
    requires |parts| >= 1
    requires forall i | 0 <= i < |parts| :: sep !in parts[i]
    ensures Split(Join(parts, [sep]), sep) == parts
    decreases |parts|
  {
    if |parts| > 1 {
      var p := parts[0];
      var rest := Join(parts[1..], [sep]);
      var s := p + [sep] + rest;
      assert Join(parts, [sep]) == s;
      assert s[|p|] == sep;
      assert s[..|p|] == p;
      assert IndexOf(s, sep) == |p|;
      assert s[|p| + 1..] == rest;
      SplitJoin(parts[1..], sep);
      assert parts == [p] + parts[1..];
    }
  }

  /** Two non-empty lists of separator-free parts join to the same string
      only if they are equal. */
  lemma JoinInjective(a: seq<string>, b: seq<string>, sep: char)
    requires |a| >= 1 && |b| >= 1
    requires forall i | 0 <= i < |a| :: sep !in a[i]
    requires forall i | 0 <= i < |b| :: sep !in b[i]
    requires Join(a, [sep]) == Join(b, [sep])
    ensures a == b
  {
    SplitJoin(a, sep);
    SplitJoin(b, sep);
  }

  // ---------------------------------------------------------------- numbers

  predicate IsDigit(c: char) { '0' <= c <= '9' }

  predicate AllDigits(s: string) { forall i | 0 <= i < |s| :: IsDigit(s[i]) }

  function DigitChar(d: nat): (c: char)
    requires d < 10
    ensures IsDigit(c)
  {
    (d + '0' as int) as char
  }

  function DigitValue(c: char): (d: nat)
    requires IsDigit(c)
    ensures d < 10
  {
    c as int - '0' as int
  }

  /** Python's `str(n)` for a natural number: decimal, no leading zeros. */
  function Decimal(n: nat): (s: string)
    ensures |s| >= 1 && AllDigits(s)
    decreases n
  {
    if n < 10 then [DigitChar(n)] else Decimal(n / 10) + [DigitChar(n % 10)]
  }

  /** The number a string of decimal digits denotes (leading zeros allowed). */
  function DigitsValue(s: string): nat
    requires AllDigits(s)
    decreases |s|
  {
    if s == [] then 0 else DigitsValue(s[..|s| - 1]) * 10 + DigitValue(s[|s| - 1])
  }

  /** `str(n)` reads back as `n`. */
  lemma {:induction false} DecimalRoundTrip(n: nat)
    ensures DigitsValue(Decimal(n)) == n
    decreases n
  {
    if n >= 10 {
      DecimalRoundTrip(n / 10);
      var s := Decimal(n);
      assert s[..|s| - 1] == Decimal(n / 10);
    }
  }

  lemma DecimalInjective(a: nat, b: nat)
    requires Decimal(a) == Decimal(b)
    ensures a == b
  {
    DecimalRoundTrip(a);
    DecimalRoundTrip(b);
  }

  function Pow10(k: nat): (p: nat)
    ensures p >= 1
  {
    if k == 0 then 1 else 10 * Pow10(k - 1)
  }

  /** `str(n)` has at most `w` digits exactly when `n < 10^w`. */
  lemma {:induction false} DecimalLength(n: nat, w: nat)
    requires w >= 1
    ensures |Decimal(n)| <= w <==> n < Pow10(w)
    decreases n
  {
    if n >= 10 {
      if w == 1 {
        DecimalLengthAtLeast(n);
      } else {
        DecimalLength(n / 10, w - 1);
        assert n / 10 < Pow10(w - 1) <==> n < Pow10(w);
      }
    } else {
      Pow10AtLeast(w);
    }
  }

  lemma {:induction false} DecimalLengthAtLeast(n: nat)
    requires n >= 10
    ensures |Decimal(n)| >= 2
  {
  }

  lemma {:induction false} Pow10AtLeast(w: nat)
    requires w >= 1
    ensures Pow10(w) >= 10
    decreases w
  {
    if w > 1 {
      Pow10AtLeast(w - 1);
    }
  }

  function Zeros(k: nat): (s: string)
    ensures |s| == k && AllDigits(s)
  {
    seq(k, _ => '0')
  }

  /** Python's `f'{n:0{w}d}'`: `str(n)` left-padded with zeros to width `w`
      (a longer `str(n)` is kept whole). */
  function ZeroPadded(n: nat, w: nat): (s: string)
    ensures AllDigits(s)
  {
    var d := Decimal(n);
    if |d| < w then Zeros(w - |d|) + d else d
  }

  lemma {:induction false} DigitsValueOfZerosThen(k: nat, s: string)
    requires AllDigits(s)
    ensures DigitsValue(Zeros(k) + s) == DigitsValue(s)
    decreases |s|
  {
    if s == [] {
      assert Zeros(k) + s == Zeros(k);
      DigitsValueOfZeros(k);
    } else {
      var t := Zeros(k) + s;
      assert t[..|t| - 1] == Zeros(k) + s[..|s| - 1];
      DigitsValueOfZerosThen(k, s[..|s| - 1]);
    }
  }

  lemma {:induction false} DigitsValueOfZeros(k: nat)
    ensures DigitsValue(Zeros(k)) == 0
    decreases k
  {
    if k > 0 {
      assert Zeros(k)[..k - 1] == Zeros(k - 1);
      DigitsValueOfZeros(k - 1);
    }
  }

  /** The zero-padded form reads back as `n`, whatever the width, and has
      exactly `w` characters when `n < 10^w`. */
  lemma ZeroPaddedRoundTrip(n: nat, w: nat)
    ensures DigitsValue(ZeroPadded(n, w)) == n
    ensures w >= 1 && n < Pow10(w) ==> |ZeroPadded(n, w)| == w
  {
    var d := Decimal(n);
    DecimalRoundTrip(n);
    if |d| < w {
      DigitsValueOfZerosThen(w - |d|, d);
    }
    if w >= 1 && n < Pow10(w) {
      DecimalLength(n, w);
    }
  }

  lemma ZeroPaddedInjective(a: nat, b: nat, w: nat)
    requires ZeroPadded(a, w) == ZeroPadded(b, w)
    ensures a == b
  {
    ZeroPaddedRoundTrip(a, w);
    ZeroPaddedRoundTrip(b, w);
  }

  /** A common prefix can be cancelled from an equation between strings. */
  lemma CancelPrefix(p: string, s: string, t: string)
    requires p + s == p + t
    ensures s == t
  {
    assert s == (p + s)[|p|..];
    assert t == (p + t)[|p|..];
  }
}
