/** Base32 secrets: the shift-register loop against the bits of the text. */
module Base32 {
  import opened Common
  import opened Powers
  import opened Text

  type Byte = b: nat | b < 256

  type Symbol = v: nat | v < 32

  const ALPHABET := "ABCDEFGHIJKLMNOPQRSTUVWXYZ234567"

  predicate Ignored(ch: char) {
    IsWhitespace(ch) || ch == '='
  }

  function ToAsciiUppercase(ch: char): char {
    if 'a' <= ch <= 'z' then (ch as int - 32) as char else ch
  }

  /** The cast of a character to `u8` keeps its low byte. */
  function LowByte(ch: char): Byte {
    ch as int % 256
  }

  /** A letter of the alphabet by its position. */
  function Letter(v: Symbol): char {
    if v < 26 then ('A' as int + v) as char else ('2' as int + (v - 26)) as char
  }

  lemma LetterIsAlphabet(v: Symbol)
    ensures Letter(v) == ALPHABET[v]
  {
  }

  /** The position of a byte in the alphabet. */
  function Position(up: Byte): (v: Option<Symbol>)
    ensures v.Some? ==> Letter(v.value) as int == up
    ensures v.None? ==> forall i: Symbol :: Letter(i) as int != up
  {
    if 65 <= up <= 90 then Some(up - 65)
    else if 50 <= up <= 55 then Some(up - 24)
    else None
  }

  function SymbolOf(ch: char): Option<Symbol> {
    Position(LowByte(ToAsciiUppercase(ch)))
  }

  /** One more character: it is ignored, it is a symbol, or it spoils the text. */
  function AddChar(values: Option<seq<Symbol>>, ch: char): Option<seq<Symbol>> {
    if values.None? || Ignored(ch) then values
    else
      match SymbolOf(ch)
      case Some(v) => Some(values.value + [v])
      case None => None
  }

  /** The symbols of a text, or `None` when a character is not one. */
  function Symbols(text: string): Option<seq<Symbol>> {
    if text == "" then Some([]) else AddChar(Symbols(text[..|text| - 1]), text[|text| - 1])
  }

  /** The symbols written one after the other, five bits each, as one number. */
  function Concat(values: seq<Symbol>): nat {
    if values == [] then 0 else 32 * Concat(values[..|values| - 1]) + values[|values| - 1]
  }

  /** Bits `8i` to `8i + 7` of the concatenated symbols, counted from the first. */
  function ByteAt(values: seq<Symbol>, i: nat): Byte
    requires 8 * (i + 1) <= 5 * |values|
  {
    Concat(values) / Pow2(5 * |values| - 8 * (i + 1)) % 256
  }

  /** All whole bytes of the concatenated symbols. */
  function Bytes(values: seq<Symbol>): (out: seq<Byte>)
    ensures |out| == 5 * |values| / 8
  {
    seq(5 * |values| / 8, i requires 0 <= i < 5 * |values| / 8 => ByteAt(values, i))
  }

  function Decode(text: string): Option<seq<Byte>> {
    match Symbols(text)
    case Some(values) => Some(Bytes(values))
    case None => None
  }

  // ---- The loop ----

  const U64: nat := 0x1_0000_0000_0000_0000

  /** One more symbol does not change the bytes already complete. */
  lemma ByteStable(values: seq<Symbol>, v: Symbol, i: nat)
    requires 8 * (i + 1) <= 5 * |values|
    ensures ByteAt(values + [v], i) == ByteAt(values, i)
  {
    var more := values + [v];
    var p := 5 * |values| - 8 * (i + 1);
    assert more[..|more| - 1] == values;
    assert Concat(more) / 32 == Concat(values);
    assert Pow2(5) == 32;
    DivPow2(Concat(more), 5, p);
    assert 5 + p == 5 * |more| - 8 * (i + 1);
  }

  /** The 64-bit buffer drops the oldest bits only. */
  lemma Shifted(acc: nat, v: Symbol)
    ensures acc % U64 * 32 % U64 + v == (acc * 32 + v) % U64
  {
  }

  /** A byte is read from the lowest twelve bits of the buffer. */
  lemma ByteRead(acc: nat, bits: nat)
    requires bits <= 4
    ensures acc % U64 / Pow2(bits) % 256 == acc / Pow2(bits) % 256
  {
    var k := if bits == 0 then 0x100_0000_0000_0000 else if bits == 1 then 0x80_0000_0000_0000
             else if bits == 2 then 0x40_0000_0000_0000 else if bits == 3 then 0x20_0000_0000_0000
             else 0x10_0000_0000_0000;
    assert Pow2(1) == 2 && Pow2(2) == 4 && Pow2(3) == 8 && Pow2(4) == 16;
    assert Pow2(bits) * (256 * k) == U64;
    DropHigh(acc, Pow2(bits), k);
  }

  lemma {:induction false} NoneStays(text: string, k: nat)
    requires k <= |text| && Symbols(text[..k]).None?
    ensures Symbols(text).None?
    decreases |text|
  {
    if k < |text| {
      var shorter := text[..|text| - 1];
      assert shorter[..k] == text[..k];
      NoneStays(shorter, k);
    } else {
      assert text[..k] == text;
    }
  }

  /** The bytes read off so far are bits of these symbols. */
  ghost predicate ReadOff(values: seq<Symbol>, out: seq<Byte>) {
    8 * |out| <= 5 * |values| && forall i :: 0 <= i < |out| ==> out[i] == ByteAt(values, i)
  }

  /** The register after some symbols: their last bits, and the bytes already complete. */
  ghost predicate Register(values: seq<Symbol>, buffer: nat, bits: nat, out: seq<Byte>) {
    buffer == Concat(values) % U64 && bits == 5 * |values| - 8 * |out| && bits < 8 && ReadOff(values, out)
  }

  lemma ReadOffMore(values: seq<Symbol>, out: seq<Byte>, v: Symbol)
    requires ReadOff(values, out)
    ensures ReadOff(values + [v], out)
  {
    forall i | 0 <= i < |out| ensures ByteAt(values + [v], i) == out[i] {
      ByteStable(values, v, i);
    }
  }

  lemma ConcatMore(values: seq<Symbol>, v: Symbol)
    ensures Concat(values + [v]) == Concat(values) * 32 + v
  {
    var more := values + [v];
    assert more[..|values|] == values;
  }

  /** A symbol that does not complete a byte. */
  lemma RegisterShift(values: seq<Symbol>, buffer: nat, bits: nat, out: seq<Byte>, v: Symbol)
    requires Register(values, buffer, bits, out) && bits + 5 < 8
    ensures Register(values + [v], buffer * 32 % U64 + v, bits + 5, out)
  {
    ConcatMore(values, v);
    Shifted(Concat(values), v);
    ReadOffMore(values, out, v);
  }

  /** The next byte, read above the last `bits` bits. */
  lemma ReadOffNext(values: seq<Symbol>, buffer: nat, bits: nat, out: seq<Byte>)
    requires ReadOff(values, out) && buffer == Concat(values) % U64
    requires bits <= 4 && bits == 5 * |values| - 8 * (|out| + 1)
    ensures ReadOff(values, out + [buffer / Pow2(bits) % 256])
  {
    ByteRead(Concat(values), bits);
    assert buffer / Pow2(bits) % 256 == ByteAt(values, |out|);
  }

  /** A symbol that completes a byte: the right one, although the register has overflowed. */
  lemma RegisterEmit(values: seq<Symbol>, buffer: nat, bits: nat, out: seq<Byte>, v: Symbol)
    requires Register(values, buffer, bits, out) && bits + 5 >= 8
    ensures var shifted := buffer * 32 % U64 + v;
            Register(values + [v], shifted, bits - 3, out + [shifted / Pow2(bits - 3) % 256])
  {
    ConcatMore(values, v);
    Shifted(Concat(values), v);
    ReadOffMore(values, out, v);
    ReadOffNext(values + [v], buffer * 32 % U64 + v, bits - 3, out);
  }

  /** `base32_decode`: the shift register delivers exactly the bits of the text. */
  method Base32Decode(input: string) returns (r: Option<seq<Byte>>)
    ensures r == Decode(input)
  {
    var buffer: nat, bits: nat := 0, 0;
    var out: seq<Byte> := [];
    ghost var values: seq<Symbol> := [];
    var k := 0;
    while k < |input|
      invariant k <= |input| && Symbols(input[..k]) == Some(values)
      invariant Register(values, buffer, bits, out)
    {
      var ch := input[k];
      assert input[..k + 1][..k] == input[..k];
      k := k + 1;
      if Ignored(ch) {
        continue;
      }
      var position := SymbolOf(ch);
      if position.None? {
        NoneStays(input, k);
        return None;
      }
      if bits + 5 < 8 {
        RegisterShift(values, buffer, bits, out, position.value);
      } else {
        RegisterEmit(values, buffer, bits, out, position.value);
      }
      buffer := buffer * 32 % U64 + position.value;
      bits := bits + 5;
      if bits >= 8 {
        bits := bits - 8;
        out := out + [buffer / Pow2(bits) % 256];
      }
      values := values + [position.value];
    }
    assert input[..k] == input;
    assert out == Bytes(values);
    r := Some(out);
  }

  // ---- Encoding, section 6 of RFC 4648 ----

  /** The bytes written one after the other as one number. */
  function ConcatBytes(bytes: seq<Byte>): nat {
    if bytes == [] then 0 else 256 * ConcatBytes(bytes[..|bytes| - 1]) + bytes[|bytes| - 1]
  }

  /** The number of symbols for `m` bytes: the last one is completed with zero bits. */
  function SymbolCount(m: nat): (n: nat)
    ensures 8 * m <= 5 * n < 8 * m + 5
  {
    (8 * m + 4) / 5
  }

  /** The lowest `n` groups of five bits of `x`, the highest first. */
  function Groups(x: nat, n: nat): (values: seq<Symbol>)
    ensures |values| == n
  {
    if n == 0 then [] else Groups(x / 32, n - 1) + [x % 32]
  }

  function EncodeSymbols(bytes: seq<Byte>): seq<Symbol> {
    var n := SymbolCount(|bytes|);
    Groups(ConcatBytes(bytes) * Pow2(5 * n - 8 * |bytes|), n)
  }

  function Letters(values: seq<Symbol>): string {
    seq(|values|, i requires 0 <= i < |values| => Letter(values[i]))
  }

  function Padding(n: nat): string {
    seq((8 - n % 8) % 8, i => '=')
  }

  function Encode(bytes: seq<Byte>): string {
    var values := EncodeSymbols(bytes);
    Letters(values) + Padding(|values|)
  }

  /** A text without whitespace, padding and lower case. */
  function Canonical(text: string): string {
    if text == "" then ""
    else
      var rest, ch := Canonical(text[..|text| - 1]), text[|text| - 1];
      if Ignored(ch) then rest else rest + [ToAsciiUppercase(ch)]
  }

  lemma {:induction false} ConcatBytesBound(bytes: seq<Byte>)
    ensures ConcatBytes(bytes) < Pow2(8 * |bytes|)
  {
    if bytes != [] {
      var n := |bytes| - 1;
      ConcatBytesBound(bytes[..n]);
      Pow2Add(8, 8 * n);
      assert Pow2(8) == 256;
    }
  }

  lemma {:induction false} ConcatBytesAt(bytes: seq<Byte>, i: nat)
    requires i < |bytes|
    ensures ConcatBytes(bytes) / Pow2(8 * (|bytes| - 1 - i)) % 256 == bytes[i]
  {
    var n := |bytes| - 1;
    if i < n {
      ConcatBytesAt(bytes[..n], i);
      assert Pow2(8) == 256;
      assert ConcatBytes(bytes) / 256 == ConcatBytes(bytes[..n]);
      DivPow2(ConcatBytes(bytes), 8, 8 * (n - 1 - i));
      assert 8 + 8 * (n - 1 - i) == 8 * (n - i);
    }
  }

  /** Cutting a number into groups of five bits loses nothing. */
  lemma {:induction false} ConcatGroups(x: nat, n: nat)
    requires x < Pow2(5 * n)
    ensures Concat(Groups(x, n)) == x
  {
    if n > 0 {
      Pow2Add(5, 5 * (n - 1));
      assert Pow2(5) == 32;
      ConcatGroups(x / 32, n - 1);
      var values := Groups(x, n);
      assert values[..n - 1] == Groups(x / 32, n - 1);
    }
  }

  /** Decoding the symbols of an encoding gives the bytes back. */
  lemma DecodeSymbols(bytes: seq<Byte>)
    ensures Bytes(EncodeSymbols(bytes)) == bytes
  {
    var m, n := |bytes|, SymbolCount(|bytes|);
    var pad := 5 * n - 8 * m;
    var x := ConcatBytes(bytes) * Pow2(pad);
    ConcatBytesBound(bytes);
    MulLess(ConcatBytes(bytes), Pow2(8 * m), Pow2(pad));
    Pow2Add(8 * m, pad);
    ConcatGroups(x, n);
    var values := EncodeSymbols(bytes);
    forall i | 0 <= i < m ensures ByteAt(values, i) == bytes[i] {
      assert 5 * n - 8 * (i + 1) == pad + 8 * (m - 1 - i);
      MulDivPow2(ConcatBytes(bytes), pad, 8 * (m - 1 - i));
      ConcatBytesAt(bytes, i);
    }
  }

  /** A text that is the letters of some symbols up to case, whitespace and padding reads as them. */
  lemma {:induction false} SymbolsOfLetters(text: string, values: seq<Symbol>)
    requires Canonical(text) == Letters(values)
    ensures Symbols(text) == Some(values)
  {
    if text == "" {
      assert |Letters(values)| == |values|;
    } else {
      var n, ch := |text| - 1, text[|text| - 1];
      if Ignored(ch) {
        SymbolsOfLetters(text[..n], values);
      } else {
        assert |Letters(values)| == |values| > 0;
        var fewer := values[..|values| - 1];
        assert Canonical(text)[..|values| - 1] == Canonical(text[..n]);
        assert Letters(fewer) == Letters(values)[..|values| - 1];
        SymbolsOfLetters(text[..n], fewer);
        assert Canonical(text)[|values| - 1] == ToAsciiUppercase(ch);
        assert ToAsciiUppercase(ch) == Letter(values[|values| - 1]);
        LetterSymbol(values[|values| - 1]);
        assert values == fewer + [values[|values| - 1]];
      }
    }
  }

  lemma LetterSymbol(v: Symbol)
    ensures Position(LowByte(Letter(v))) == Some(v)
    ensures !Ignored(Letter(v)) && ToAsciiUppercase(Letter(v)) == Letter(v)
  {
  }

  /** Round trip: whatever the case, with or without padding, and with whitespace anywhere. */
  lemma RoundTrip(bytes: seq<Byte>, text: string)
    requires Canonical(text) == Canonical(Encode(bytes))
    ensures Decode(text) == Some(bytes)
  {
    var values := EncodeSymbols(bytes);
    CanonicalEncode(values);
    SymbolsOfLetters(text, values);
    DecodeSymbols(bytes);
  }

  lemma {:induction false} CanonicalPadded(text: string, n: nat)
    ensures Canonical(text + seq(n, i => '=')) == Canonical(text)
  {
    var padded := text + seq(n, i => '=');
    if n > 0 {
      assert padded[..|padded| - 1] == text + seq(n - 1, i => '=');
      CanonicalPadded(text, n - 1);
    } else {
      assert padded == text;
    }
  }

  lemma {:induction false} CanonicalLetters(values: seq<Symbol>)
    ensures Canonical(Letters(values)) == Letters(values)
  {
    var text := Letters(values);
    if values != [] {
      var fewer := values[..|values| - 1];
      assert text[..|text| - 1] == Letters(fewer);
      CanonicalLetters(fewer);
      LetterSymbol(values[|values| - 1]);
    }
  }

  lemma CanonicalEncode(values: seq<Symbol>)
    ensures Canonical(Letters(values) + Padding(|values|)) == Letters(values)
  {
    var n := (8 - |values| % 8) % 8;
    CanonicalPadded(Letters(values), n);
    CanonicalLetters(values);
    assert Padding(|values|) == seq(n, i => '=');
  }

  // ---- Which texts are accepted ----

  predicate Accepted(ch: char) {
    Ignored(ch) || SymbolOf(ch).Some?
  }

  /** A text decodes exactly when every character is accepted. */
  lemma {:induction false} DecodesIff(text: string)
    ensures Decode(text).Some? <==> forall ch :: ch in text ==> Accepted(ch)
  {
    if text != "" {
      var n := |text| - 1;
      DecodesIff(text[..n]);
      assert forall ch :: ch in text <==> ch in text[..n] || ch == text[n];
      assert Symbols(text).Some? <==> Symbols(text[..n]).Some? && Accepted(text[n]);
    }
  }

  predicate InAlphabet(ch: char) {
    ch in ALPHABET
  }

  predicate IsLetter(ch: char) {
    exists v: Symbol :: Letter(v) == ch
  }

  /** The alphabet is what `Letter` computes. */
  lemma InAlphabetIff(ch: char)
    ensures InAlphabet(ch) <==> IsLetter(ch)
  {
    forall v: Symbol ensures Letter(v) == ALPHABET[v] {
      LetterIsAlphabet(v);
    }
    if InAlphabet(ch) {
      var i :| 0 <= i < |ALPHABET| && ALPHABET[i] == ch;
      var v: Symbol := i;
      assert Letter(v) == ch;
    }
  }

  lemma AcceptedLetter(ch: char)
    ensures Accepted(ch) <==>
              if ch as int < 128 then Ignored(ch) || IsLetter(ToAsciiUppercase(ch))
              else IsWhitespace(ch) || IsLetter((ch as int % 256) as char)
  {
    var v := SymbolOf(ch);
    if v.Some? {
      assert Letter(v.value) as int == LowByte(ToAsciiUppercase(ch));
    }
  }

  /** The accepted characters: for ASCII the documented alphabet in either case, padding and the six whitespace characters;
    * beyond ASCII the cast to one byte also lets in every character whose low byte is a letter of the alphabet in
    * upper case or a digit 2 to 7. */
  lemma AcceptedIff(ch: char)
    ensures Accepted(ch) <==>
              if ch as int < 128
              then 'A' <= ch <= 'Z' || 'a' <= ch <= 'z' || '2' <= ch <= '7' || ch == '=' || ch == ' ' || '\t' <= ch <= '\r'
              else IsWhitespace(ch) || 65 <= ch as int % 256 <= 90 || 50 <= ch as int % 256 <= 55
  {
    AcceptedLetter(ch);
    var up := if ch as int < 128 then ToAsciiUppercase(ch) else (ch as int % 256) as char;
    if IsLetter(up) {
      var v: Symbol :| Letter(v) == up;
    }
    if 'A' <= up <= 'Z' { assert Letter(up as int - 65) == up; }
    if '2' <= up <= '7' { assert Letter(up as int - 24) == up; }
  }

  /** A text of two letters is one byte long. */
  lemma TwoSymbols(a: char, b: char)
    requires !Ignored(a) && !Ignored(b) && SymbolOf(a).Some? && SymbolOf(b).Some?
    ensures Decode([a, b]) == Some([(32 * SymbolOf(a).value + SymbolOf(b).value) / 4])
  {
    var text, x, y := [a, b], SymbolOf(a).value, SymbolOf(b).value;
    assert text[..1] == [a] && [a][..0] == [];
    assert Symbols([a]) == Some([x]) by {
      assert Symbols([a]) == AddChar(Symbols([]), a);
      assert [] + [x] == [x];
    }
    var values: seq<Symbol> := [x] + [y];
    assert Symbols(text) == AddChar(Symbols([a]), b) == Some(values);
    assert values[..1] == [x] && [x][..0] == [];
    assert Concat([x]) == x;
    assert Concat(values) == 32 * Concat([x]) + y;
    assert Pow2(2) == 4;
    assert Bytes(values) == [ByteAt(values, 0)];
  }

  /** U+0141 is not in the alphabet, yet it reads as the letter A. */
  lemma WideCharacterAccepted()
    ensures !InAlphabet('Ł') && Decode(['Ł', 'Ł']) == Decode(['A', 'A']) == Some([0])
  {
    InAlphabetIff('Ł');
    TwoSymbols('Ł', 'Ł');
    TwoSymbols('A', 'A');
  }
}
