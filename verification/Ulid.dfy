/** Session identifiers: 128 bits in 26 base-32 symbols (internal/session/ulid.go). */
module Ulid {
  import opened Basics

  const ALPHABET := "0123456789ABCDEFGHJKMNPQRSTVWXYZ"
  const SIZE := 26
  const TIME_LIMIT := 0x1_0000_0000_0000
  const RANDOM_LIMIT := 0x1_0000_0000_0000_0000_0000
  const VALUE_LIMIT := 0x1_0000_0000_0000_0000_0000_0000_0000_0000

  type Digit = d: nat | d < 32

  /** The symbol of a digit; the letters I, L, O and U are left out. */
  function Symbol(d: Digit): int {
    if d < 10 then 48 + d
    else if d < 18 then 55 + d
    else if d < 20 then 56 + d
    else if d < 22 then 57 + d
    else if d < 27 then 58 + d
    else 59 + d
  }

  lemma {:induction false} SymbolIsAlphabet(d: Digit)
    ensures ALPHABET[d] as int == Symbol(d)
  {}

  predicate IsSymbol(c: int) {
    || 48 <= c <= 57 || 65 <= c <= 72 || 74 <= c <= 75 || 77 <= c <= 78 || 80 <= c <= 84 || 86 <= c <= 90
  }

  function DigitOf(c: int): (d: Digit)
    requires IsSymbol(c)
    ensures Symbol(d) == c
  {
    if c <= 57 then c - 48
    else if c <= 72 then c - 55
    else if c <= 75 then c - 56
    else if c <= 78 then c - 57
    else if c <= 84 then c - 58
    else c - 59
  }

  function Pow32(k: nat): nat {
    if k == 0 then 1 else 32 * Pow32(k - 1)
  }

  /** The k lowest base-32 digits of n, highest first. */
  function Digits(n: nat, k: nat): (r: seq<Digit>)
    ensures |r| == k
  {
    if k == 0 then [] else Digits(n / 32, k - 1) + [n % 32]
  }

  function Value(digits: seq<Digit>): nat {
    if digits == [] then 0 else 32 * Value(Init(digits)) + Last(digits)
  }

  lemma {:induction false} DigitsHaveValue(n: nat, k: nat)
    requires n < Pow32(k)
    ensures Value(Digits(n, k)) == n
    decreases k
  {
    if k > 0 {
      DigitsHaveValue(n / 32, k - 1);
      assert Init(Digits(n, k)) == Digits(n / 32, k - 1);
    }
  }

  lemma {:induction false} ValueHasDigits(digits: seq<Digit>)
    ensures Value(digits) < Pow32(|digits|)
    ensures Digits(Value(digits), |digits|) == digits
    decreases |digits|
  {
    if digits != [] {
      ValueHasDigits(Init(digits));
      var v := Value(Init(digits));
      assert (32 * v + Last(digits)) / 32 == v && (32 * v + Last(digits)) % 32 == Last(digits);
      InitLast(digits);
    }
  }

  lemma {:induction false} Scale(a: int, b: int, p: int)
    ensures a * (32 * p) == 32 * (a * p)
    ensures a <= b && p >= 0 ==> a * p <= b * p
  {
    if a <= b && p >= 0 {
      assert (b - a) * p >= 0;
    }
  }

  /** The first digit says how large the value can be. */
  lemma {:induction false} FirstDigit(digits: seq<Digit>)
    requires digits != []
    ensures var d: int := digits[0]; d * Pow32(|digits| - 1) <= Value(digits) < (d + 1) * Pow32(|digits| - 1)
    decreases |digits|
  {
    if |digits| == 1 {
      assert Init(digits) == [];
    } else {
      FirstDigit(Init(digits));
      var p, d: int := Pow32(|digits| - 2), digits[0];
      assert Pow32(|digits| - 1) == 32 * p;
      Scale(d, d, p);
      Scale(d + 1, d + 1, p);
    }
  }

  // ----- Encoding

  function Encode(n: nat): (s: seq<int>)
    ensures |s| == SIZE
  {
    var digits := Digits(n, SIZE);
    seq(SIZE, i requires 0 <= i < SIZE => Symbol(digits[i]))
  }

  /** The shape check: 26 symbols, the first at most '7'. */
  predicate WellFormed(s: seq<int>) {
    |s| == SIZE && s[0] <= 55 && forall i | 0 <= i < SIZE :: IsSymbol(s[i])
  }

  function DigitsOf(s: seq<int>): (r: seq<Digit>)
    requires forall i | 0 <= i < |s| :: IsSymbol(s[i])
    ensures |r| == |s|
  {
    seq(|s|, i requires 0 <= i < |s| => DigitOf(s[i]))
  }

  function Decode(s: seq<int>): nat
    requires WellFormed(s)
  {
    Value(DigitsOf(s))
  }

  lemma {:induction false} Powers()
    ensures 8 * Pow32(SIZE - 1) == VALUE_LIMIT
    ensures Pow32(SIZE) == 4 * VALUE_LIMIT
  {
    assert Pow32(5) == 0x200_0000;
    assert Pow32(10) == 0x4_0000_0000_0000;
    assert Pow32(15) == 0x800_0000_0000_0000_0000;
    assert Pow32(20) == 0x10_0000_0000_0000_0000_0000_0000;
    assert Pow32(25) == 0x2000_0000_0000_0000_0000_0000_0000_0000;
  }

  /** Every 128-bit value is encoded as a well-formed id that decodes to it. */
  lemma {:induction false} EncodeThenDecode(n: nat)
    requires n < VALUE_LIMIT
    ensures WellFormed(Encode(n)) && Decode(Encode(n)) == n
  {
    Powers();
    hide Pow32, Value, Digits;
    DigitsHaveValue(n, SIZE);
    var digits := Digits(n, SIZE);
    FirstDigit(digits);
    Scale(8, digits[0], Pow32(SIZE - 1));
    assert DigitsOf(Encode(n)) == digits;
  }

  /** Every well-formed id is the encoding of its 128-bit value. */
  lemma {:induction false} DecodeThenEncode(s: seq<int>)
    requires WellFormed(s)
    ensures Decode(s) < VALUE_LIMIT && Encode(Decode(s)) == s
  {
    Powers();
    hide Pow32, Value, Digits;
    var digits := DigitsOf(s);
    ValueHasDigits(digits);
    FirstDigit(digits);
    assert digits[0] <= 7;
    var d: int := digits[0];
    Scale(d + 1, 8, Pow32(SIZE - 1));
    assert forall i | 0 <= i < SIZE :: Encode(Decode(s))[i] == s[i];
  }

  /** The accepted ids are exactly the encodings of the values below 2^128. */
  lemma {:induction false} WellFormedIffEncoding(s: seq<int>)
    ensures WellFormed(s) <==> exists n: nat :: n < VALUE_LIMIT && Encode(n) == s
  {
    hide WellFormed, Encode, Decode;
    if WellFormed(s) {
      DecodeThenEncode(s);
    }
    forall n: nat | n < VALUE_LIMIT && Encode(n) == s ensures WellFormed(s) {
      EncodeThenDecode(n);
    }
  }

  // ----- Order

  ghost predicate Lower(a: seq<int>, b: seq<int>) {
    exists i :: LowerAt(a, b, i)
  }

  predicate LowerAt(a: seq<int>, b: seq<int>, i: int) {
    0 <= i < |a| && i < |b| && a[..i] == b[..i] && a[i] < b[i]
  }

  lemma {:induction false} DigitsOrder(n: nat, m: nat, k: nat) returns (i: nat)
    requires n < m < Pow32(k)
    ensures i < k && Digits(n, k)[..i] == Digits(m, k)[..i] && Digits(n, k)[i] < Digits(m, k)[i]
    decreases k
  {
    if n / 32 == m / 32 {
      i := k - 1;
    } else {
      i := DigitsOrder(n / 32, m / 32, k - 1);
      assert Digits(n, k)[..i] == Digits(n / 32, k - 1)[..i];
      assert Digits(m, k)[..i] == Digits(m / 32, k - 1)[..i];
    }
  }

  /** A smaller value has a lexicographically smaller id. */
  lemma {:induction false} EncodeKeepsOrder(n: nat, m: nat)
    requires n < m < VALUE_LIMIT
    ensures Lower(Encode(n), Encode(m))
  {
    Powers();
    hide Pow32, Digits;
    var i := DigitsOrder(n, m, SIZE);
    var x, y := Digits(n, SIZE), Digits(m, SIZE);
    assert forall j | 0 <= j < i :: x[j] == x[..i][j] && y[j] == y[..i][j];
    assert LowerAt(Encode(n), Encode(m), i);
  }

  // ----- The generator

  function BigEndian(bytes: seq<byte>): nat {
    if bytes == [] then 0 else 256 * BigEndian(Init(bytes)) + Last(bytes)
  }

  function Pow256(k: nat): nat {
    if k == 0 then 1 else 256 * Pow256(k - 1)
  }

  lemma {:induction false} BigEndianConcat(a: seq<byte>, b: seq<byte>)
    ensures BigEndian(a + b) == BigEndian(a) * Pow256(|b|) + BigEndian(b)
    ensures BigEndian(b) < Pow256(|b|)
    decreases |b|
  {
    if b == [] {
      assert a + b == a;
    } else {
      BigEndianConcat(a, Init(b));
      assert Init(a + b) == a + Init(b);
      var p := Pow256(|b| - 1);
      assert 256 * (BigEndian(a) * p) == BigEndian(a) * (256 * p);
    }
  }

  function TimeBytes(ms: nat): seq<byte> {
    [ms / 0x100_0000_0000 % 256, ms / 0x1_0000_0000 % 256, ms / 0x100_0000 % 256,
     ms / 0x1_0000 % 256, ms / 0x100 % 256, ms % 256]
  }

  lemma {:induction false} ModStep(n: nat, m: nat)
    requires m > 0
    ensures n % (256 * m) == 256 * (n / 256 % m) + n % 256
    ensures n / (256 * m) == n / 256 / m
  {
    var q, r := n / 256 / m, 256 * (n / 256 % m) + n % 256;
    assert n == 256 * (n / 256) + n % 256;
    assert n / 256 == m * q + n / 256 % m;
    assert n == (256 * m) * q + r && 0 <= r < 256 * m;
    DivModUnique(n, 256 * m, q, r);
  }

  lemma {:induction false} Multiple(d: int, x: int)
    requires d > 0 && -d < d * x < d
    ensures x == 0
  {
    if x >= 1 {
      Ordered(d, 1, x);
    } else if x <= -1 {
      Ordered(d, x, -1);
    }
  }

  lemma {:induction false} Ordered(d: int, x: int, y: int)
    requires d > 0 && x <= y
    ensures d * x <= d * y
  {
    assert d * (y - x) >= 0;
  }

  lemma {:induction false} DivModUnique(n: nat, d: nat, q: nat, r: nat)
    requires d > 0 && n == d * q + r && r < d
    ensures n % d == r && n / d == q
  {
    var k, rest := n / d, n % d;
    assert n == d * k + rest;
    assert d * (q - k) == d * q - d * k == rest - r;
    Multiple(d, q - k);
  }

  lemma {:induction false} SixBytes(b: seq<byte>)
    requires |b| == 6
    ensures var high := 256 * (256 * (b[0] as int) + (b[1] as int)) + (b[2] as int);
            BigEndian(b) == 256 * (256 * (256 * high + (b[3] as int)) + (b[4] as int)) + (b[5] as int)
  {
    assert Init(b) == b[..5] && Init(b[..5]) == b[..4] && Init(b[..4]) == b[..3];
    assert Init(b[..3]) == b[..2] && Init(b[..2]) == b[..1] && Init(b[..1]) == [];
    assert BigEndian(b[..1]) == (b[0] as int);
    assert BigEndian(b[..2]) == 256 * (b[0] as int) + (b[1] as int);
    assert BigEndian(b[..3]) == 256 * (256 * (b[0] as int) + (b[1] as int)) + (b[2] as int);
    assert BigEndian(b[..4]) == 256 * (256 * (256 * (b[0] as int) + (b[1] as int)) + (b[2] as int)) + (b[3] as int);
  }

  lemma {:induction false} TimeBytesValue(ms: nat)
    ensures BigEndian(TimeBytes(ms)) == ms % TIME_LIMIT
  {
    hide BigEndian;
    SixBytes(TimeBytes(ms));
    var t1 := ms / 256;
    var t2 := t1 / 256;
    var t3 := t2 / 256;
    var t4 := t3 / 256;
    var t5 := t4 / 256;
    Shifts(ms);
    ModStep(ms, 0x100_0000_0000);
    ModStep(t1, 0x1_0000_0000);
    ModStep(t2, 0x100_0000);
    ModStep(t3, 0x1_0000);
    ModStep(t4, 0x100);
  }

  /** Shifting by bytes, one at a time. */
  lemma {:induction false} Shifts(ms: nat)
    ensures ms / 0x1_0000 == ms / 256 / 256
    ensures ms / 0x100_0000 == ms / 256 / 256 / 256
    ensures ms / 0x1_0000_0000 == ms / 256 / 256 / 256 / 256
    ensures ms / 0x100_0000_0000 == ms / 256 / 256 / 256 / 256 / 256
  {
    var t1 := ms / 256;
    ModStep(ms, 0x100);
    ModStep(ms, 0x1_0000);
    ModStep(ms, 0x100_0000);
    ModStep(ms, 0x1_0000_0000);
    ModStep(t1, 0x100);
    ModStep(t1, 0x1_0000);
    ModStep(t1, 0x100_0000);
    ModStep(t1 / 256, 0x100);
    ModStep(t1 / 256, 0x1_0000);
    ModStep(t1 / 256 / 256, 0x100);
  }

  /** The 128-bit value of an id: 48 bits of time, then 80 random bits. */
  function IdValue(ms: nat, random: seq<byte>): nat
    requires |random| == 10
  {
    (ms % TIME_LIMIT) * RANDOM_LIMIT + BigEndian(random)
  }

  lemma {:induction false} IdValueIsBytes(ms: nat, random: seq<byte>)
    requires |random| == 10
    ensures BigEndian(TimeBytes(ms) + random) == IdValue(ms, random) < VALUE_LIMIT
    ensures BigEndian(random) < RANDOM_LIMIT
  {
    assert Pow256(5) == 0x100_0000_0000;
    assert Pow256(10) == RANDOM_LIMIT;
    BigEndianConcat(TimeBytes(ms), random);
    TimeBytesValue(ms);
  }

  /** A later millisecond gives a larger id, whatever the random bits. */
  lemma {:induction false} LaterIsLarger(early: nat, late: nat, r: seq<byte>, r': seq<byte>)
    requires early < late < TIME_LIMIT && |r| == |r'| == 10
    ensures Lower(Encode(IdValue(early, r)), Encode(IdValue(late, r')))
  {
    hide BigEndian, Encode;
    IdValueIsBytes(early, r);
    IdValueIsBytes(late, r');
    EncodeKeepsOrder(IdValue(early, r), IdValue(late, r'));
  }

  /** `newULID`: fill the 16 bytes, then divide the number in place, last symbol first. */
  method NewUlid(ms: nat, random: seq<byte>) returns (id: seq<int>)
    requires |random| == 10
    ensures id == Encode(IdValue(ms, random))
    ensures WellFormed(id) && Decode(id) == IdValue(ms, random)
  {
    var bytes := TimeBytes(ms) + random;
    var n := BigEndian(bytes);
    ghost var value := n;
    IdValueIsBytes(ms, random);
    EncodeThenDecode(value);
    hide Encode, BigEndian, Decode, WellFormed, IdValue, Symbol;
    var out := new int[SIZE];
    var i := SIZE;
    SymbolsOf(value);
    while i > 0
      invariant 0 <= i <= SIZE
      invariant Digits(value, SIZE)[..i] == Digits(n, i)
      invariant forall k | i <= k < SIZE :: out[k] == Symbol(Digits(value, SIZE)[k])
    {
      i := i - 1;
      DigitsStep(value, n, i);
      out[i] := Symbol(n % 32);
      n := n / 32;
    }
    id := out[..];
  }

  lemma {:induction false} SymbolsOf(n: nat)
    ensures |Encode(n)| == SIZE && forall k | 0 <= k < SIZE :: Encode(n)[k] == Symbol(Digits(n, SIZE)[k])
    ensures Digits(n, SIZE)[..SIZE] == Digits(n, SIZE)
  {}

  lemma {:induction false} DigitsStep(value: nat, n: nat, i: nat)
    requires i < SIZE && Digits(value, SIZE)[..i + 1] == Digits(n, i + 1)
    ensures Digits(value, SIZE)[i] == n % 32 && Digits(value, SIZE)[..i] == Digits(n / 32, i)
  {
    var d := Digits(value, SIZE);
    assert d[..i + 1][i] == n % 32;
    TakeTwice(d, i, i + 1);
  }

  /** The scan of `isULID`, byte by byte. */
  method IsUlid(value: seq<int>) returns (ok: bool)
    ensures ok <==> WellFormed(value)
    ensures ok <==> exists n: nat :: n < VALUE_LIMIT && Encode(n) == value
  {
    hide Encode;
    WellFormedIffEncoding(value);
    if |value| != SIZE || value[0] > 55 {
      return false;
    }
    for i := 0 to |value|
      invariant forall k | 0 <= k < i :: IsSymbol(value[k])
    {
      if !IsSymbol(value[i]) {
        return false;
      }
    }
    return true;
  }
}
