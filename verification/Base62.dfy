/** Token encoding of internal/admin/agents.go: bytes, read as one big-endian integer, written in base 62. */
module Base62 {
  import opened Common

  type Byte = b: int | 0 <= b < 256

  const FIGURES: string := "0123456789"
  const UPPER: string := "ABCDEFGHIJKLMNOPQRSTUVWXYZ"
  const LOWER: string := "abcdefghijklmnopqrstuvwxyz"
  const ALPHABET: string := FIGURES + UPPER + LOWER
  const TOKEN_PREFIX: string := "npr_"
  const TOKEN_BYTES: nat := 48

  // ---------------------------------------------------------------- numbers

  /** big.Int.SetBytes */
  function Value(data: seq<Byte>): nat {
    if data == [] then 0 else Value(DropLast(data)) * 256 + Last(data)
  }

  predicate IsDigit(c: char) { '0' <= c <= '9' || 'A' <= c <= 'Z' || 'a' <= c <= 'z' }

  function DigitValue(c: char): (d: int)
    requires IsDigit(c)
    ensures 0 <= d < 62
  {
    if c <= '9' then c as int - '0' as int
    else if c <= 'Z' then c as int - 'A' as int + 10
    else c as int - 'a' as int + 36
  }

  /** Reads base-62 digits, most significant first. */
  function Decode(s: string): nat
    requires forall c <- s :: IsDigit(c)
  {
    if s == "" then 0 else Decode(DropLast(s)) * 62 + DigitValue(Last(s))
  }

  /** The alphabet lists the digits in the order of their values. */
  lemma AlphabetInOrder(d: nat)
    requires d < 62
    ensures |ALPHABET| == 62 && IsDigit(ALPHABET[d]) && DigitValue(ALPHABET[d]) == d
  {
    AlphabetParts(d);
    if d < 10 {
      FiguresInOrder(d);
    } else if d < 36 {
      UpperInOrder(d - 10);
    } else {
      LowerInOrder(d - 36);
    }
  }

  lemma AlphabetParts(d: nat)
    requires d < 62
    ensures |ALPHABET| == 62
    ensures ALPHABET[d] == if d < 10 then FIGURES[d] else if d < 36 then UPPER[d - 10] else LOWER[d - 36]
  {
  }

  lemma FiguresInOrder(i: nat)
    requires i < 10
    ensures FIGURES[i] as int == '0' as int + i
  {
  }

  lemma UpperInOrder(i: nat)
    requires i < 26
    ensures UPPER[i] as int == 'A' as int + i
  {
  }

  lemma LowerInOrder(i: nat)
    requires i < 26
    ensures LOWER[i] as int == 'a' as int + i
  {
  }

  function Digits(n: nat): string {
    if n == 0 then "" else (assert |ALPHABET| == 62; Digits(n / 62) + [ALPHABET[n % 62]])
  }

  // ---------------------------------------------------------------- encodeBase62

  // One turn of the loop moves the last digit over.
  lemma DigitMoves(n: nat, done: string)
    requires n > 0
    ensures |ALPHABET| == 62
    ensures Digits(n) + Reversed(done) == Digits(n / 62) + Reversed(done + [ALPHABET[n % 62]])
  {
    var digit := ALPHABET[n % 62];
    assert Reversed(done + [digit]) == [digit] + Reversed(done);
    assert (Digits(n / 62) + [digit]) + Reversed(done) == Digits(n / 62) + ([digit] + Reversed(done));
  }

  method EncodeBase62(data: seq<Byte>) returns (r: string)
    ensures r == Digits(Value(data))
  {
    var n := Value(data);
    var result := "";
    while n > 0
      invariant Digits(Value(data)) == Digits(n) + Reversed(result)
    {
      DigitMoves(n, result);
      n, result := n / 62, result + [ALPHABET[n % 62]];
    }
    var a := new char[|result|](i requires 0 <= i < |result| => result[i]);
    assert a[..] == result;
    ReverseInPlace(a);
    r := a[..];
  }

  predicate Canonical(s: string) { (forall c <- s :: IsDigit(c)) && (s != "" ==> s[0] != '0') }

  /** The digits of a number are the one text without a leading zero that reads as that number. */
  lemma {:induction false} DigitsAreCanonical(n: nat)
    ensures Canonical(Digits(n)) && Decode(Digits(n)) == n
  {
    if n > 0 {
      DigitsAreCanonical(n / 62);
      AlphabetInOrder(n % 62);
      var s := Digits(n);
      assert DropLast(s) == Digits(n / 62) && Last(s) == ALPHABET[n % 62];
      if n / 62 > 0 { assert s[0] == Digits(n / 62)[0]; }
    }
  }

  lemma QuotientAndDigit(q: nat, d: nat)
    requires d < 62
    ensures (q * 62 + d) / 62 == q && (q * 62 + d) % 62 == d
  {
  }

  lemma DigitsSnoc(q: nat, c: char, n: nat)
    requires IsDigit(c) && n == q * 62 + DigitValue(c) && n > 0
    ensures Digits(n) == Digits(q) + [c]
  {
    var d := DigitValue(c);
    QuotientAndDigit(q, d);
    AlphabetInOrder(d);
    SameDigit(c, ALPHABET[d]);
  }

  lemma InitIsCanonical(s: string)
    requires Canonical(s) && s != ""
    ensures Canonical(DropLast(s)) && s == DropLast(s) + [Last(s)]
  {
    assert DropLast(s) != "" ==> DropLast(s)[0] == s[0];
  }

  lemma {:induction false} CanonicalPositive(s: string)
    requires Canonical(s) && s != ""
    ensures Decode(s) > 0
  {
    InitIsCanonical(s);
    if DropLast(s) == "" {
      SameDigit(Last(s), '0');
    } else {
      CanonicalPositive(DropLast(s));
    }
  }

  lemma {:induction false} CanonicalIsUnique(s: string)
    requires Canonical(s)
    ensures Digits(Decode(s)) == s
  {
    if s != "" {
      var init := DropLast(s);
      InitIsCanonical(s);
      CanonicalPositive(s);
      CanonicalIsUnique(init);
      DigitsSnoc(Decode(init), Last(s), Decode(s));
    }
  }

  lemma SameDigit(c: char, c': char)
    requires IsDigit(c) && IsDigit(c')
    ensures DigitValue(c) == DigitValue(c') <==> c == c'
  {
  }

  // ---------------------------------------------------------------- which inputs share a code

  /** The bytes behind the leading zero bytes. */
  function Significant(data: seq<Byte>): (r: seq<Byte>)
    ensures r != [] ==> r[0] != 0
  {
    if data == [] || data[0] != 0 then data else Significant(data[1..])
  }

  lemma {:induction false} ZeroInFront(data: seq<Byte>)
    ensures Value([0] + data) == Value(data)
  {
    if data == [] {
      assert DropLast([0 as Byte]) == [];
    } else {
      ZeroInFront(DropLast(data));
      assert DropLast([0] + data) == [0] + DropLast(data);
    }
  }

  lemma {:induction false} SignificantKeepsValue(data: seq<Byte>)
    ensures Value(Significant(data)) == Value(data)
  {
    if data != [] && data[0] == 0 {
      SignificantKeepsValue(data[1..]);
      ZeroInFront(data[1..]);
      assert data == [0] + data[1..];
    }
  }

  lemma {:induction false} NonZeroValue(a: seq<Byte>)
    requires a != [] && a[0] != 0
    ensures Value(a) > 0
  {
    if |a| > 1 { NonZeroValue(DropLast(a)); }
  }

  lemma {:induction false} ValueIsInjective(a: seq<Byte>, b: seq<Byte>)
    requires Value(a) == Value(b) && (|a| == |b| || ((a != [] ==> a[0] != 0) && (b != [] ==> b[0] != 0)))
    ensures a == b
  {
    if a == [] || b == [] {
      if |a| != |b| {
        NonZeroValue(if a == [] then b else a);
        assert false;
      }
    } else {
      assert Value(DropLast(a)) == Value(a) / 256 && Last(a) == Value(a) % 256;
      assert Value(DropLast(b)) == Value(b) / 256 && Last(b) == Value(b) % 256;
      if |a| != |b| {
        if |a| == 1 { NonZeroValue(DropLast(b)); assert false; }
        if |b| == 1 { NonZeroValue(DropLast(a)); assert false; }
      }
      ValueIsInjective(DropLast(a), DropLast(b));
      assert a == DropLast(a) + [Last(a)] && b == DropLast(b) + [Last(b)];
    }
  }

  /** Two inputs have the same code exactly when they differ in leading zero bytes at most. */
  lemma {:induction false} SameCodeIff(a: seq<Byte>, b: seq<Byte>)
    ensures Digits(Value(a)) == Digits(Value(b)) <==> Significant(a) == Significant(b)
  {
    SignificantKeepsValue(a);
    SignificantKeepsValue(b);
    DigitsAreCanonical(Value(a));
    DigitsAreCanonical(Value(b));
    if Value(a) == Value(b) { ValueIsInjective(Significant(a), Significant(b)); }
  }

  /** So inputs of one length never share a code. */
  lemma {:induction false} EqualLengthInjective(a: seq<Byte>, b: seq<Byte>)
    requires |a| == |b| && Digits(Value(a)) == Digits(Value(b))
    ensures a == b
  {
    DigitsAreCanonical(Value(a));
    DigitsAreCanonical(Value(b));
    ValueIsInjective(a, b);
  }

  // ---------------------------------------------------------------- length

  function Pow(b: nat, e: nat): nat { if e == 0 then 1 else b * Pow(b, e - 1) }

  lemma {:induction false} PowAdd(b: nat, e: nat, f: nat)
    ensures Pow(b, e + f) == Pow(b, e) * Pow(b, f)
  {
    if e > 0 {
      PowAdd(b, e - 1, f);
      assert Pow(b, e + f) == b * (Pow(b, e - 1) * Pow(b, f)) == (b * Pow(b, e - 1)) * Pow(b, f);
    }
  }

  lemma {:induction false} PowPositive(b: nat, e: nat)
    requires b > 0
    ensures Pow(b, e) > 0
  {
    if e > 0 { PowPositive(b, e - 1); }
  }

  lemma {:induction false} ValueBound(data: seq<Byte>)
    ensures Value(data) < Pow(256, |data|)
  {
    if data != [] { ValueBound(DropLast(data)); }
  }

  /** A number has at most k digits exactly when it is below 62^k. */
  lemma {:induction false} DigitCount(n: nat, k: nat)
    ensures |Digits(n)| <= k <==> n < Pow(62, k)
  {
    PowPositive(62, k);
    if n > 0 && k > 0 {
      DigitCount(n / 62, k - 1);
      assert n == 62 * (n / 62) + n % 62;
    }
  }

  lemma PowDouble(b: nat, e: nat, v: nat)
    requires Pow(b, e) == v
    ensures Pow(b, 2 * e) == v * v
  {
    PowAdd(b, e, e);
  }

  // 256 to the power of 24, and 62 to the power of 32.
  const ROOT_256: nat := 6277101735386680763835789423207666416102355444464034512896
  const ROOT_62: nat := 2272657884496751345355241563627544170162852933518655225856

  lemma Pow256()
    ensures Pow(256, 48) == ROOT_256 * ROOT_256
  {
    assert Pow(256, 3) == 16777216;
    PowDouble(256, 3, 16777216);
    PowDouble(256, 6, 281474976710656);
    PowDouble(256, 12, 79228162514264337593543950336);
    PowDouble(256, 24, ROOT_256);
  }

  lemma Pow62()
    ensures Pow(62, 65) == 62 * (ROOT_62 * ROOT_62)
  {
    assert Pow(62, 2) == 3844;
    PowDouble(62, 2, 3844);
    PowDouble(62, 4, 14776336);
    PowDouble(62, 8, 218340105584896);
    PowDouble(62, 16, 47672401706823533450263330816);
    PowDouble(62, 32, ROOT_62);
  }

  lemma TokenFits()
    ensures Pow(256, 48) < Pow(62, 65)
  {
    Pow256();
    Pow62();
    SquareBound(ROOT_256, ROOT_62);
  }

  lemma SquareBound(a: nat, b: nat)
    requires a < 3 * b
    ensures a * a < 9 * (b * b)
  {
    assert a * a <= (3 * b) * a && (3 * b) * a < (3 * b) * (3 * b);
  }

  // ---------------------------------------------------------------- tokens

  /** generateToken, from the random bytes on; the hash is not modelled. */
  method GenerateToken(raw: seq<Byte>) returns (plaintext: string, storedPrefix: string)
    requires |raw| == 48
    ensures plaintext == "npr_" + Digits(Value(raw)) && |plaintext| <= 69
    ensures storedPrefix <= plaintext && |storedPrefix| == if |plaintext| < 8 then |plaintext| else 8
  {
    var encoded := EncodeBase62(raw);
    plaintext := TOKEN_PREFIX + encoded;
    if |plaintext| >= 8 { storedPrefix := plaintext[..8]; } else { storedPrefix := plaintext; }
    ValueBound(raw);
    TokenFits();
    DigitCount(Value(raw), 65);
  }

  /** Different random bytes give different tokens, and a token determines its bytes. */
  lemma {:induction false} TokensAreDistinct(a: seq<Byte>, b: seq<Byte>)
    requires |a| == |b| == TOKEN_BYTES
    ensures TOKEN_PREFIX + Digits(Value(a)) == TOKEN_PREFIX + Digits(Value(b)) ==> a == b
  {
    var ta, tb := TOKEN_PREFIX + Digits(Value(a)), TOKEN_PREFIX + Digits(Value(b));
    if ta == tb {
      assert ta[4..] == Digits(Value(a)) && tb[4..] == Digits(Value(b));
      EqualLengthInjective(a, b);
    }
  }
}
