/** Key text out of a credential blob, stored as UTF-8 or UTF-16LE (internal/config/credential.go). */
module Credential {
  import opened Basics

  /** A Unicode scalar value. */
  type Rune = c: int | 0 <= c < 0xD800 || 0xE000 <= c < 0x11_0000

  const REPLACEMENT: Rune := 0xFFFD

  // ----- UTF-8 (section 4 of RFC 3629)

  /** The six low bits in a continuation byte. */
  function Low(c: nat): byte {
    0x80 + c % 64
  }

  function Utf8(c: Rune): seq<byte> {
    var hi6, hi12, hi18 := c / 64, c / 64 / 64, c / 64 / 64 / 64;
    if c < 0x80 then
      var b: byte := c;
      [b]
    else if c < 0x800 then
      var b: byte := 0xC0 + hi6;
      [b, Low(c)]
    else if c < 0x1_0000 then
      var b: byte := 0xE0 + hi12;
      [b, Low(hi6), Low(c)]
    else
      var b: byte := 0xF0 + hi18;
      [b, Low(hi12), Low(hi6), Low(c)]
  }

  function Utf8All(runes: seq<Rune>): seq<byte> {
    if runes == [] then [] else Utf8(runes[0]) + Utf8All(runes[1..])
  }

  predicate Tail(b: byte) {
    0x80 <= b <= 0xBF
  }

  function Bits(b: byte): int {
    b - 0x80
  }

  /** The first rune of b and its length, when b starts with a well-formed sequence. */
  function First8(b: seq<byte>): Option<(Rune, nat)>
    requires b != []
  {
    var x: int := b[0];
    if x < 0x80 then Some((x, 1))
    else if 0xC2 <= x <= 0xDF then
      if |b| >= 2 && Tail(b[1]) then Some(((x - 0xC0) * 64 + Bits(b[1]), 2)) else None
    else if 0xE0 <= x <= 0xEF then
      if |b| >= 3 && Tail(b[1]) && Tail(b[2]) && (x == 0xE0 ==> b[1] >= 0xA0) && (x == 0xED ==> b[1] <= 0x9F)
      then Some((((x - 0xE0) * 64 + Bits(b[1])) * 64 + Bits(b[2]), 3)) else None
    else if 0xF0 <= x <= 0xF4 then
      if |b| >= 4 && Tail(b[1]) && Tail(b[2]) && Tail(b[3])
         && (x == 0xF0 ==> b[1] >= 0x90) && (x == 0xF4 ==> b[1] <= 0x8F)
      then Some(((((x - 0xF0) * 64 + Bits(b[1])) * 64 + Bits(b[2])) * 64 + Bits(b[3]), 4))
      else None
    else None
  }

  function Decode8(b: seq<byte>): Option<seq<Rune>>
    decreases |b|
  {
    if b == [] then Some([])
    else
      var first := First8(b);
      if first.None? || first.value.1 > |b| || first.value.1 == 0 then None
      else
        var rest := Decode8(b[first.value.1..]);
        if rest.None? then None else Some([first.value.0] + rest.value)
  }

  lemma {:induction false} FirstOfEncoded(c: Rune, rest: seq<byte>)
    ensures First8(Utf8(c) + rest) == Some((c, |Utf8(c)|))
  {
    var b, u := Utf8(c) + rest, Utf8(c);
    assert forall i | 0 <= i < |u| :: b[i] == u[i];
    var hi6, hi12, hi18 := c / 64, c / 64 / 64, c / 64 / 64 / 64;
    assert c == hi6 * 64 + c % 64 && hi6 == hi12 * 64 + hi6 % 64 && hi12 == hi18 * 64 + hi12 % 64;
  }

  lemma {:induction false} Split64(a: nat, b: nat)
    requires b < 64
    ensures (a * 64 + b) / 64 == a && (a * 64 + b) % 64 == b
  {}

  lemma {:induction false} EncodedFirst(b: seq<byte>)
    requires b != [] && First8(b).Some?
    ensures First8(b).value.1 == |Utf8(First8(b).value.0)| <= |b|
    ensures Utf8(First8(b).value.0) == b[..First8(b).value.1]
  {
    var x: int := b[0];
    if 0xC2 <= x <= 0xDF {
      Split64(x - 0xC0, Bits(b[1]));
    } else if 0xE0 <= x <= 0xEF {
      Split64(x - 0xE0, Bits(b[1]));
      Split64((x - 0xE0) * 64 + Bits(b[1]), Bits(b[2]));
    } else if 0xF0 <= x {
      var y := (x - 0xF0) * 64 + Bits(b[1]);
      Split64(x - 0xF0, Bits(b[1]));
      Split64(y, Bits(b[2]));
      Split64(y * 64 + Bits(b[2]), Bits(b[3]));
    }
  }

  lemma {:induction false} Decode8Step(b: seq<byte>)
    requires b != [] && Decode8(b).Some?
    ensures First8(b).Some? && 0 < First8(b).value.1 <= |b|
    ensures var (c, n) := First8(b).value; Decode8(b[n..]).Some? && Decode8(b).value == [c] + Decode8(b[n..]).value
  {}

  lemma {:induction false} Utf8Cons(c: Rune, rest: seq<Rune>)
    ensures Utf8All([c] + rest) == Utf8(c) + Utf8All(rest)
  {
    assert ([c] + rest)[1..] == rest;
  }

  /** Decoding gives the runes whose encoding the bytes are. */
  lemma {:induction false} Decode8Sound(b: seq<byte>)
    requires Decode8(b).Some?
    ensures Utf8All(Decode8(b).value) == b
    decreases |b|
  {
    if b == [] {
      assert Utf8All([]) == [];
    } else {
      hide First8, Utf8, Decode8, Utf8All;
      Decode8Step(b);
      EncodedFirst(b);
      var (c, n) := First8(b).value;
      Decode8Sound(b[n..]);
      Utf8Cons(c, Decode8(b[n..]).value);
    }
  }

  lemma {:induction false} Decode8Complete(runes: seq<Rune>)
    ensures Decode8(Utf8All(runes)) == Some(runes)
    decreases |runes|
  {
    if runes != [] {
      hide First8;
      var rest := Utf8All(runes[1..]);
      FirstOfEncoded(runes[0], rest);
      Decode8Complete(runes[1..]);
      assert Utf8All(runes)[|Utf8(runes[0])|..] == rest;
      assert runes == [runes[0]] + runes[1..];
    }
  }

  // ----- UTF-16 (sections 2.1 and 2.2 of RFC 2781)

  type Unit = u: int | 0 <= u < 0x1_0000

  function Utf16(c: Rune): seq<Unit> {
    if c < 0x1_0000 then
      var u: Unit := c;
      [u]
    else
      var hi: Unit, lo: Unit := 0xD800 + (c - 0x1_0000) / 0x400, 0xDC00 + (c - 0x1_0000) % 0x400;
      [hi, lo]
  }

  function Utf16All(runes: seq<Rune>): seq<Unit> {
    if runes == [] then [] else Utf16(runes[0]) + Utf16All(runes[1..])
  }

  predicate HighSurrogate(u: Unit) {
    0xD800 <= u < 0xDC00
  }

  predicate LowSurrogate(u: Unit) {
    0xDC00 <= u < 0xE000
  }

  /** The library's decoder: a surrogate without its partner becomes the replacement character. */
  function Decode16(units: seq<Unit>): seq<Rune> {
    if units == [] then []
    else if !HighSurrogate(units[0]) && !LowSurrogate(units[0]) then [units[0]] + Decode16(units[1..])
    else if HighSurrogate(units[0]) && |units| >= 2 && LowSurrogate(units[1]) then
      [(units[0] as int - 0xD800) * 0x400 + (units[1] as int - 0xDC00) + 0x1_0000] + Decode16(units[2..])
    else [REPLACEMENT] + Decode16(units[1..])
  }

  lemma {:induction false} Decode16Complete(runes: seq<Rune>)
    ensures Decode16(Utf16All(runes)) == runes
    decreases |runes|
  {
    if runes != [] {
      var head, tail := Utf16(runes[0]), Utf16All(runes[1..]);
      Decode16Complete(runes[1..]);
      assert (head + tail)[|head|..] == tail;
      assert runes == [runes[0]] + runes[1..];
    }
  }

  /** Without a replacement character in the result, nothing was lost. */
  lemma {:induction false} Decode16Sound(units: seq<Unit>)
    requires REPLACEMENT !in Decode16(units)
    ensures Utf16All(Decode16(units)) == units
    decreases |units|
  {
    if units != [] {
      var runes := Decode16(units);
      assert runes[0] in runes;
      var n := if HighSurrogate(units[0]) then 2 else 1;
      assert runes[1..] == Decode16(units[n..]);
      Decode16Sound(units[n..]);
      assert Utf16(runes[0]) == units[..n];
    }
  }

  function LittleEndian(units: seq<Unit>): (b: seq<byte>)
    ensures |b| == 2 * |units|
  {
    if units == [] then [] else [units[0] % 0x100, units[0] / 0x100] + LittleEndian(units[1..])
  }

  function UnitAt(blob: seq<byte>, i: nat): Unit
    requires 2 * i + 1 < |blob|
  {
    blob[2 * i] as int + blob[2 * i + 1] as int * 0x100
  }

  function UnitsOf(blob: seq<byte>): seq<Unit>
    requires |blob| % 2 == 0
  {
    seq(|blob| / 2, i requires 0 <= i < |blob| / 2 => UnitAt(blob, i))
  }

  lemma {:induction false} UnitsFirst(blob: seq<byte>)
    requires |blob| % 2 == 0 && blob != []
    ensures UnitsOf(blob) == [UnitAt(blob, 0)] + UnitsOf(blob[2..])
  {
    var rest := blob[2..];
    assert forall i | 0 <= i < |rest| / 2 :: UnitAt(blob, i + 1) == UnitAt(rest, i);
  }

  lemma {:induction false} UnitsBack(blob: seq<byte>)
    requires |blob| % 2 == 0
    ensures LittleEndian(UnitsOf(blob)) == blob
    decreases |blob|
  {
    if blob != [] {
      UnitsFirst(blob);
      UnitsBack(blob[2..]);
      var u := UnitAt(blob, 0);
      assert u % 0x100 == blob[0] && u / 0x100 == blob[1];
      assert UnitsOf(blob)[1..] == UnitsOf(blob[2..]);
      assert blob == [blob[0], blob[1]] + blob[2..];
    }
  }

  lemma {:induction false} BytesBack(units: seq<Unit>)
    ensures UnitsOf(LittleEndian(units)) == units
    decreases |units|
  {
    if units != [] {
      var blob := LittleEndian(units);
      UnitsFirst(blob);
      BytesBack(units[1..]);
      assert blob[2..] == LittleEndian(units[1..]);
      assert UnitAt(blob, 0) == units[0];
    }
  }

  function Utf16Le(runes: seq<Rune>): seq<byte> {
    LittleEndian(Utf16All(runes))
  }

  // ----- The decoder

  predicate PlainUtf8(blob: seq<byte>) {
    Decode8(blob).Some? && 0 !in blob
  }

  /** What a blob is taken for: the text, in UTF-8, or nothing usable. */
  function Outcome(blob: seq<byte>): Option<seq<byte>> {
    if blob == [] then None
    else if PlainUtf8(blob) then Some(blob)
    else if |blob| % 2 != 0 then None
    else
      var runes := Decode16(UnitsOf(blob));
      if 0 in runes || REPLACEMENT in runes then None else Some(Utf8All(runes))
  }

  method DecodeCredentialBlob(blob: seq<byte>) returns (text: Option<seq<byte>>)
    ensures text == Outcome(blob)
  {
    hide Decode8, Decode16, Utf8All, UnitAt;
    if |blob| == 0 {
      return None;
    }
    if Decode8(blob).Some? && 0 !in blob {
      return Some(blob);
    }
    if |blob| % 2 != 0 {
      return None;
    }
    var units := new Unit[|blob| / 2];
    for i := 0 to units.Length
      invariant forall k | 0 <= k < i :: units[k] == UnitAt(blob, k)
    {
      units[i] := UnitAt(blob, i);
    }
    assert units[..] == UnitsOf(blob);
    var runes := Decode16(units[..]);
    if 0 in runes || REPLACEMENT in runes {
      return None;
    }
    return Some(Utf8All(runes));
  }

  lemma {:induction false} NulInUtf8(runes: seq<Rune>)
    ensures 0 in Utf8All(runes) <==> 0 in runes
    decreases |runes|
  {
    if runes != [] {
      NulInUtf8(runes[1..]);
      assert 0 in Utf8(runes[0]) <==> runes[0] == 0;
      assert forall b :: b in Utf8All(runes) <==> b in Utf8(runes[0]) || b in Utf8All(runes[1..]);
      assert forall c :: c in runes <==> c == runes[0] || c in runes[1..];
    }
  }

  /**
   * An accepted blob is exactly the UTF-8 or the UTF-16LE encoding of its text, which has no NUL. Only a text
   * that was stored as UTF-8 can hold a replacement character.
   */
  lemma {:induction false} AcceptedIsEncoding(blob: seq<byte>) returns (runes: seq<Rune>)
    requires Outcome(blob).Some?
    ensures runes != [] && 0 !in runes && Outcome(blob) == Some(Utf8All(runes))
    ensures blob == Utf8All(runes) || (blob == Utf16Le(runes) && REPLACEMENT !in runes)
  {
    hide Decode8, Decode16, Utf8All, UnitsOf, Utf16All, LittleEndian;
    if PlainUtf8(blob) {
      runes := Decode8(blob).value;
      Decode8Sound(blob);
      NulInUtf8(runes);
      NothingToEncode();
    } else {
      runes := Decode16(UnitsOf(blob));
      Decode16Sound(UnitsOf(blob));
      UnitsBack(blob);
      NothingToEncode();
    }
  }

  lemma {:induction false} NothingToEncode()
    ensures Utf8All([]) == [] && Utf16Le([]) == []
  {}

  /** The replacement character itself, stored as UTF-8, is accepted. */
  lemma {:induction false} ReplacementAccepted()
    ensures Outcome([0xEF, 0xBF, 0xBD]) == Some(Utf8All([REPLACEMENT]))
  {
    var blob: seq<byte> := [0xEF, 0xBF, 0xBD];
    var runes: seq<Rune> := [REPLACEMENT];
    assert Utf8(REPLACEMENT) == blob;
    assert runes[1..] == [] && Utf8All(runes) == blob + Utf8All([]);
    assert Utf8All(runes) == blob;
    Decode8Complete(runes);
  }

  /** Every non-empty text without NUL comes back from its UTF-8 form. */
  lemma {:induction false} Utf8ComesBack(runes: seq<Rune>)
    requires runes != [] && 0 !in runes
    ensures Outcome(Utf8All(runes)) == Some(Utf8All(runes))
  {
    hide Decode8, Decode16, UnitsOf;
    Decode8Complete(runes);
    NulInUtf8(runes);
    assert |Utf8(runes[0])| > 0;
  }

  lemma {:induction false} HighBytes(runes: seq<Rune>)
    requires 0 !in Utf16Le(runes)
    ensures forall c | c in runes :: c >= 0x100
    decreases |runes|
  {
    if runes != [] {
      var head, tail := LittleEndian(Utf16(runes[0])), Utf16Le(runes[1..]);
      LittleEndianConcat(Utf16(runes[0]), Utf16All(runes[1..]));
      assert Utf16Le(runes) == head + tail;
      assert head[1] in Utf16Le(runes);
      assert head[1] == Utf16(runes[0])[0] / 0x100;
      assert forall b | b in tail :: b in Utf16Le(runes);
      HighBytes(runes[1..]);
      assert forall c | c in runes :: c == runes[0] || c in runes[1..];
    }
  }

  lemma {:induction false} LittleEndianConcat(a: seq<Unit>, b: seq<Unit>)
    ensures LittleEndian(a + b) == LittleEndian(a) + LittleEndian(b)
    decreases |a|
  {
    if a == [] {
      assert a + b == b;
    } else {
      assert (a + b)[1..] == a[1..] + b;
      LittleEndianConcat(a[1..], b);
    }
  }

  /** Where both encodings have the same length, they differ in the second byte. */
  lemma {:induction false} EncodingsDiffer(runes: seq<Rune>)
    requires forall c | c in runes :: c >= 0x100
    ensures |Utf8All(runes)| >= |Utf16Le(runes)|
    ensures runes != [] ==> Utf8All(runes) != Utf16Le(runes)
    decreases |runes|
  {
    if runes != [] {
      var c, rest := runes[0], runes[1..];
      assert forall d | d in rest :: d in runes;
      assert c in runes;
      EncodingsDiffer(rest);
      LittleEndianConcat(Utf16(c), Utf16All(rest));
      assert Utf16Le(runes) == LittleEndian(Utf16(c)) + Utf16Le(rest);
      SecondByteDiffers(c);
      if |Utf8(c)| == |LittleEndian(Utf16(c))| {
        assert Utf8All(runes)[1] == Utf8(c)[1];
        assert Utf16Le(runes)[1] == LittleEndian(Utf16(c))[1];
      }
    }
  }

  lemma {:induction false} SecondByteDiffers(c: Rune)
    requires c >= 0x100
    ensures |Utf8(c)| >= |LittleEndian(Utf16(c))| >= 2
    ensures |Utf8(c)| == |LittleEndian(Utf16(c))| ==> Utf8(c)[1] != LittleEndian(Utf16(c))[1]
  {
    assert LittleEndian(Utf16(c))[1] == Utf16(c)[0] / 0x100;
  }

  /**
   * A non-empty text without NUL and replacement characters comes back from its UTF-16LE form exactly when
   * those bytes are not themselves NUL-free UTF-8; a zero byte is enough.
   */
  lemma {:induction false} Utf16ComesBackIff(runes: seq<Rune>)
    requires runes != [] && 0 !in runes && REPLACEMENT !in runes
    ensures Outcome(Utf16Le(runes)) == Some(Utf8All(runes)) <==> !PlainUtf8(Utf16Le(runes))
    ensures 0 in Utf16Le(runes) ==> !PlainUtf8(Utf16Le(runes))
  {
    hide Decode8, Decode16, UnitsOf, Utf8All, Utf16All, LittleEndian;
    BytesBack(Utf16All(runes));
    Decode16Complete(runes);
    Utf16NotEmpty(runes);
    if PlainUtf8(Utf16Le(runes)) {
      HighBytes(runes);
      EncodingsDiffer(runes);
    }
  }

  lemma {:induction false} Utf16NotEmpty(runes: seq<Rune>)
    requires runes != []
    ensures Utf16Le(runes) != []
  {}

  /** One such text: stored as UTF-16LE, the character U+6161 comes back as two letters. */
  lemma {:induction false} Utf16MisreadExample()
    ensures Utf16Le([0x6161]) == [0x61, 0x61]
    ensures Outcome(Utf16Le([0x6161])) == Some([0x61, 0x61]) && Utf8All([0x6161]) == [0xE6, 0x85, 0xA1]
  {
    var c: Rune := 0x6161;
    assert Utf16(c) == [0x6161] && Utf16All([]) == [] && LittleEndian([]) == [];
    assert Utf16All([c]) == [0x6161] + [] && LittleEndian([0x6161]) == [0x61, 0x61];
    TwoLetters();
    assert Utf8All([]) == [] && Utf8All([c]) == Utf8(c) + [];
    hide Decode8, First8;
  }

  lemma {:induction false} TwoLetters()
    ensures Outcome([0x61, 0x61]) == Some([0x61, 0x61])
  {
    var a: Rune := 0x61;
    assert Utf8All([]) == [] && Utf8All([a]) == [0x61] && Utf8All([a, a]) == [0x61, 0x61] by {
      assert [a, a][1..] == [a] && [a][1..] == [];
    }
    Utf8ComesBack([a, a]);
  }

  /** A character beyond the basic plane is stored as two units, each with its low byte first. */
  lemma {:induction false} Utf16PairExample()
    ensures Utf16Le([0x1_F600]) == [0x3D, 0xD8, 0x00, 0xDE]
    ensures Outcome([0x3D, 0xD8, 0x00, 0xDE]) == Some([0xF0, 0x9F, 0x98, 0x80])
  {
    var c: Rune := 0x1_F600;
    assert Utf16(c) == [0xD83D, 0xDE00];
    assert [c][1..] == [] && Utf16All([c]) == Utf16(c) + Utf16All([]) == [0xD83D, 0xDE00];
    assert [0xD83D, 0xDE00][1..] == [0xDE00] && [0xDE00][1..] == [];
    PairBytes();
    assert Utf16Le([c]) == [0x3D, 0xD8, 0x00, 0xDE];
    NothingToEncode();
    assert Utf8(c) == [0xF0, 0x9F, 0x98, 0x80] && Utf8All([c]) == Utf8(c) + [] == [0xF0, 0x9F, 0x98, 0x80];
    hide Decode8, First8, Outcome, Utf8All, Utf16Le;
    assert Utf16Le([c])[2] == 0;
    Utf16ComesBackIff([c]);
  }

  lemma {:induction false} PairBytes()
    ensures LittleEndian([0xD83D, 0xDE00]) == [0x3D, 0xD8, 0x00, 0xDE]
  {
    LittleEndianConcat([0xD83D], [0xDE00]);
    assert [0xD83D] + [0xDE00] == [0xD83D, 0xDE00];
    assert [0xD83D][1..] == [] && [0xDE00][1..] == [];
    assert LittleEndian([0xD83D]) == [0x3D, 0xD8] && LittleEndian([0xDE00]) == [0x00, 0xDE];
  }
}
