/** Text as the Go sources see it: trimming, decimal numerals, byte lengths and substring search. */
module Strings {

  /** unicode.IsSpace. */
  predicate IsSpace(c: char) {
    c in {'\t', '\n', '\U{0B}', '\U{0C}', '\r', ' ', '\U{85}', '\U{A0}', '\U{1680}', '\U{2028}', '\U{2029}',
          '\U{202F}', '\U{205F}', '\U{3000}'} ||
    '\U{2000}' <= c <= '\U{200A}'
  }

  function TrimLeft(s: string): string {
    if s != [] && IsSpace(s[0]) then TrimLeft(s[1..]) else s
  }

  function TrimRight(s: string): string {
    if s != [] && IsSpace(s[|s| - 1]) then TrimRight(s[..|s| - 1]) else s
  }

  /** strings.TrimSpace. */
  function Trim(s: string): string {
    TrimRight(TrimLeft(s))
  }

  predicate Trimmed(s: string) {
    s == [] || (!IsSpace(s[0]) && !IsSpace(s[|s| - 1]))
  }

  lemma {:induction false} TrimRightShape(s: string)
    ensures TrimRight(s) <= s
    ensures TrimRight(s) == [] || !IsSpace(TrimRight(s)[|TrimRight(s)| - 1])
  {
    if s != [] && IsSpace(s[|s| - 1]) {
      TrimRightShape(s[..|s| - 1]);
    }
  }

  lemma {:induction false} TrimLeftShape(s: string)
    ensures |TrimLeft(s)| <= |s|
    ensures TrimLeft(s) == [] || !IsSpace(TrimLeft(s)[0])
  {
    if s != [] && IsSpace(s[0]) {
      TrimLeftShape(s[1..]);
    }
  }

  /** What TrimSpace returns has no space at either end, and such a text is left alone: trimming is idempotent. */
  lemma TrimFacts(s: string)
    ensures Trimmed(Trim(s)) && |Trim(s)| <= |s|
    ensures Trimmed(s) ==> Trim(s) == s
    ensures Trim(Trim(s)) == Trim(s)
  {
    TrimLeftShape(s);
    TrimRightShape(TrimLeft(s));
    var t := Trim(s);
    if t != [] {
      assert t[0] == TrimLeft(s)[0];
    }
    assert TrimLeft(t) == t && TrimRight(t) == t;
  }

  function Digit(d: nat): char
    requires d < 10
  {
    ('0' as int + d) as char
  }

  /** strconv.Itoa and the %d verb, for numbers that are not negative. */
  function Decimal(n: nat): string {
    if n < 10 then [Digit(n)] else Decimal(n / 10) + [Digit(n % 10)]
  }

  function Value(s: string): int {
    if s == [] then 0 else 10 * Value(s[..|s| - 1]) + (s[|s| - 1] as int - '0' as int)
  }

  lemma {:induction false} DecimalValue(n: nat)
    ensures Value(Decimal(n)) == n
  {
    if n >= 10 {
      DecimalValue(n / 10);
      assert Decimal(n)[..|Decimal(n)| - 1] == Decimal(n / 10);
    } else {
      assert Decimal(n)[..0] == [];
    }
  }

  /** Different numbers have different numerals, also after a common stem. */
  lemma DecimalInjective(stem: string, m: nat, n: nat)
    requires stem + Decimal(m) == stem + Decimal(n)
    ensures m == n
  {
    assert (stem + Decimal(m))[|stem|..] == Decimal(m);
    assert (stem + Decimal(n))[|stem|..] == Decimal(n);
    DecimalValue(m);
    DecimalValue(n);
  }

  /** len(s) in Go: the number of bytes of the UTF-8 text. */
  function ByteLen(s: string): nat {
    if s == [] then 0 else
      ByteLen(s[1..]) + (if s[0] < '\U{80}' then 1 else if s[0] < '\U{800}' then 2 else if s[0] < '\U{10000}' then 3
          else 4)
  }

  /** strings.Contains. */
  predicate Contains(text: string, part: string) {
    exists k | 0 <= k <= |text| :: part <= text[k..]
  }

  /** The byte order of UTF-8 texts, which is the order of their code points. */
  predicate LexLess(a: string, b: string) {
    b != [] && (a == [] || a[0] < b[0] || (a[0] == b[0] && LexLess(a[1..], b[1..])))
  }

  lemma {:induction false} LexLessTotal(a: string, b: string)
    ensures a == b || LexLess(a, b) || LexLess(b, a)
    ensures !(LexLess(a, b) && LexLess(b, a))
    ensures !LexLess(a, a)
  {
    if a != [] && b != [] && a[0] == b[0] {
      LexLessTotal(a[1..], b[1..]);
      assert a == [a[0]] + a[1..] && b == [b[0]] + b[1..];
    }
    if a != [] && (b == [] || a[0] != b[0]) {
      LexLessTotal(a[1..], a[1..]);
    }
  }

  lemma {:induction false} LexLessTransitive(a: string, b: string, c: string)
    requires LexLess(a, b) && LexLess(b, c)
    ensures LexLess(a, c)
  {
    if a != [] && a[0] == b[0] && b[0] == c[0] {
      LexLessTransitive(a[1..], b[1..], c[1..]);
    }
  }

  predicate AllSpace(s: string) {
    forall c | c in s :: IsSpace(c)
  }

  lemma {:induction false} LeftSpace(s: string)
    ensures exists before :: AllSpace(before) && s == before + TrimLeft(s)
  {
    if s != [] && IsSpace(s[0]) {
      LeftSpace(s[1..]);
      var before :| AllSpace(before) && s[1..] == before + TrimLeft(s[1..]);
      assert s == ([s[0]] + before) + TrimLeft(s);
      assert AllSpace([s[0]] + before);
    } else {
      assert s == [] + TrimLeft(s) && AllSpace([]);
    }
  }

  lemma {:induction false} RightSpace(s: string)
    ensures exists after :: AllSpace(after) && s == TrimRight(s) + after
  {
    if s != [] && IsSpace(s[|s| - 1]) {
      var front, last := s[..|s| - 1], s[|s| - 1];
      RightSpace(front);
      var after :| AllSpace(after) && front == TrimRight(front) + after;
      assert s == TrimRight(s) + (after + [last]);
      assert AllSpace(after + [last]);
    } else {
      assert s == TrimRight(s) + [] && AllSpace([]);
    }
  }

  /** Trimming takes off nothing but spaces, at both ends. */
  lemma TrimTakesSpaces(s: string)
    ensures exists before, after :: AllSpace(before) && AllSpace(after) && s == before + Trim(s) + after
  {
    LeftSpace(s);
    RightSpace(TrimLeft(s));
    var before :| AllSpace(before) && s == before + TrimLeft(s);
    var after :| AllSpace(after) && TrimLeft(s) == Trim(s) + after;
    assert s == before + Trim(s) + after;
  }

  lemma {:induction false} NumeralHasDigits(n: nat)
    ensures Decimal(n) != [] && forall c | c in Decimal(n) :: '0' <= c <= '9'
  {
    if n >= 10 {
      NumeralHasDigits(n / 10);
    }
  }
}
