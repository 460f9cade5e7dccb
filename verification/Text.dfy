/** Strings as the repository uses them: occurrence, code-point order, decimal numerals. */
module Text {

  /** `part in text` for Python strings. */
  ghost predicate Occurs(part: string, text: string) {
    exists i :: OccursAt(part, text, i)
  }

  predicate OccursAt(part: string, text: string, i: int) {
    0 <= i && i + |part| <= |text| && text[i..i + |part|] == part
  }

  predicate EndsWith(text: string, suffix: string) {
    |suffix| <= |text| && text[|text| - |suffix|..] == suffix
  }

  /** Strict lexicographic order by code point, the order `sorted` puts strings in. */
  predicate Before(a: string, b: string) {
    if b == "" then false
    else if a == "" then true
    else if a[0] == b[0] then Before(a[1..], b[1..])
    else a[0] < b[0]
  }

  lemma {:induction false} BeforeIrreflexive(a: string)
    ensures !Before(a, a)
  {
    if a != "" { BeforeIrreflexive(a[1..]); }
  }

  lemma {:induction false} BeforeTransitive(a: string, b: string, c: string)
    requires Before(a, b) && Before(b, c)
    ensures Before(a, c)
  {
    if a != "" && a[0] == b[0] && b[0] == c[0] { BeforeTransitive(a[1..], b[1..], c[1..]); }
  }

  lemma {:induction false} BeforeTotal(a: string, b: string)
    ensures a == b || Before(a, b) || Before(b, a)
  {
    if a != "" && b != "" && a[0] == b[0] {
      BeforeTotal(a[1..], b[1..]);
      assert a == [a[0]] + a[1..] && b == [b[0]] + b[1..];
    }
  }

  lemma {:induction false} BeforeSkipsCommonPrefix(p: string, a: string, b: string)
    ensures Before(p + a, p + b) <==> Before(a, b)
  {
    if p == "" {
      assert p + a == a && p + b == b;
    } else {
      assert (p + a)[1..] == p[1..] + a && (p + b)[1..] == p[1..] + b;
      BeforeSkipsCommonPrefix(p[1..], a, b);
    }
  }

  function Digit(d: nat): (c: char)
    requires d < 10
    ensures '0' <= c <= '9'
  {
    '0' + d as char
  }

  /** `n` zero-padded to exactly `width` digits, as strftime writes a field. */
  function Pad(n: nat, width: nat): (r: string)
    ensures |r| == width
    ensures forall c <- r :: '0' <= c <= '9'
  {
    if width == 0 then "" else Pad(n / 10, width - 1) + [Digit(n % 10)]
  }

  function Pow10(w: nat): (p: nat)
    ensures p > 0
  {
    if w == 0 then 1 else 10 * Pow10(w - 1)
  }

  /** Fixed-width numerals compare as their numbers do; a tie is broken by what follows. */
  lemma {:induction false} PadOrder(a: nat, b: nat, w: nat, x: string, y: string)
    requires a < Pow10(w) && b < Pow10(w)
    ensures Before(Pad(a, w) + x, Pad(b, w) + y) <==> a < b || (a == b && Before(x, y))
  {
    if w == 0 {
      assert Pad(a, w) + x == x && Pad(b, w) + y == y;
    } else {
      var da, db := Digit(a % 10), Digit(b % 10);
      PadOrder(a / 10, b / 10, w - 1, [da] + x, [db] + y);
      assert Pad(a, w) + x == Pad(a / 10, w - 1) + ([da] + x);
      assert Pad(b, w) + y == Pad(b / 10, w - 1) + ([db] + y);
      assert ([da] + x)[1..] == x && ([db] + y)[1..] == y;
    }
  }

  /** `str(n)` for an integer. */
  function Numeral(n: int): (r: string)
    ensures r != ""
    ensures forall c <- r :: c == '-' || '0' <= c <= '9'
    decreases n < 0, if n < 0 then -n else n
  {
    if n < 0 then "-" + Numeral(-n)
    else if n < 10 then [Digit(n)]
    else Numeral(n / 10) + [Digit(n % 10)]
  }

  /** The number a decimal numeral denotes. */
  function NumeralValue(s: string): int {
    if s == "" then 0
    else if s[0] == '-' then -NumeralValue(s[1..])
    else 10 * NumeralValue(s[..|s| - 1]) + (s[|s| - 1] as int - '0' as int)
  }

  lemma {:induction false} NaturalNumeral(n: nat)
    ensures Numeral(n)[0] != '-'
    ensures NumeralValue(Numeral(n)) == n
    decreases n
  {
    if n >= 10 {
      NaturalNumeral(n / 10);
      assert Numeral(n)[..|Numeral(n)| - 1] == Numeral(n / 10);
    } else {
      assert Numeral(n)[..0] == "";
    }
  }

  lemma NumeralRoundTrip(n: int)
    ensures NumeralValue(Numeral(n)) == n
  {
    if n < 0 {
      NaturalNumeral(-n);
      assert Numeral(n)[1..] == Numeral(-n);
    } else {
      NaturalNumeral(n);
    }
  }
}
