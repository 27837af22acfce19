/**
 * The Base58 text form of a byte string (draft-msporny-base58, section 3):
 * one '1' for every leading zero byte, then the number the remaining bytes
 * spell, in base 58. `Encode` is the encoder as it is written: a growing list
 * of digits, least significant first, multiplied by 256 in place once a byte.
 */
module Base58 {
  import opened Options
  import opened Numerals

  type Byte = b: nat | b < 256

  /** The letters and digits that cannot be mistaken for one another: no 0, I, O or l. */
  const ALPHABET := "123456789" + "ABCDEFGH" + "JKLMN" + "PQRSTUVWXYZ" + "abcdefghijk" + "mnopqrstuvwxyz"

  /** The letter of a digit: the alphabet is six runs of consecutive characters. */
  function Letter(d: nat): (c: char)
    requires d < 58
  {
    if d < 9 then '1' + d as char
    else if d < 17 then 'A' + (d - 9) as char
    else if d < 22 then 'J' + (d - 17) as char
    else if d < 33 then 'P' + (d - 22) as char
    else if d < 44 then 'a' + (d - 33) as char
    else 'm' + (d - 44) as char
  }

  function LeadingZeros(bytes: seq<Byte>): (z: nat)
    ensures z <= |bytes|
    ensures forall i :: 0 <= i < z ==> bytes[i] == 0
    ensures z < |bytes| ==> bytes[z] != 0
  {
    if bytes != [] && bytes[0] == 0 then 1 + LeadingZeros(bytes[1..]) else 0
  }

  function Letters(digits: seq<nat>): (text: string)
    requires forall i :: 0 <= i < |digits| ==> digits[i] < 58
    ensures |text| == |digits|
  {
    if digits == [] then "" else [Letter(digits[0])] + Letters(digits[1..])
  }

  function Ones(n: nat): (text: string)
    ensures |text| == n && forall i :: 0 <= i < n ==> text[i] == '1'
  {
    if n == 0 then "" else "1" + Ones(n - 1)
  }

  /** The text form of `bytes`, without saying how it is computed. */
  function Encoding(bytes: seq<Byte>): (text: string) {
    Ones(LeadingZeros(bytes)) + Letters(Digits(Value(bytes, 256), 58))
  }

  // ----- the reference decoder ------------------------------------------------

  function Digit(c: char): (d: Option<nat>)
    ensures d.Some? ==> d.value < 58 && Letter(d.value) == c
  {
    if '1' <= c <= '9' then Some((c - '1') as nat)
    else if 'A' <= c <= 'H' then Some(9 + (c - 'A') as nat)
    else if 'J' <= c <= 'N' then Some(17 + (c - 'J') as nat)
    else if 'P' <= c <= 'Z' then Some(22 + (c - 'P') as nat)
    else if 'a' <= c <= 'k' then Some(33 + (c - 'a') as nat)
    else if 'm' <= c <= 'z' then Some(44 + (c - 'm') as nat)
    else None
  }

  lemma DigitOfLetter(d: nat)
    requires d < 58
    ensures Digit(Letter(d)) == Some(d)
  {
  }

  function DigitsOf(text: string): (d: Option<seq<nat>>)
    ensures d.Some? ==> |d.value| == |text|
    ensures d.Some? ==> forall i :: 0 <= i < |text| ==> d.value[i] < 58 && Letter(d.value[i]) == text[i]
  {
    if text == "" then Some([])
    else
      match (Digit(text[0]), DigitsOf(text[1..]))
      case (Some(first), Some(rest)) => Some([first] + rest)
      case _ => None
  }

  function LeadingOnes(text: string): (z: nat)
    ensures z <= |text|
    ensures forall i :: 0 <= i < z ==> text[i] == '1'
    ensures z < |text| ==> text[z] != '1'
  {
    if text != "" && text[0] == '1' then 1 + LeadingOnes(text[1..]) else 0
  }

  function Decode(text: string): (bytes: Option<seq<Byte>>) {
    match DigitsOf(text)
    case None => None
    case Some(digits) => Some(Zeros(LeadingOnes(text)) + Digits(Value(digits, 58), 256))
  }

  // ----- the encoder ----------------------------------------------------------

  function Reverse(digits: seq<nat>): (r: seq<nat>)
    ensures |r| == |digits|
    ensures forall i :: 0 <= i < |r| ==> r[i] == digits[|digits| - 1 - i]
  {
    if digits == [] then [] else Reverse(digits[1..]) + [digits[0]]
  }

  /** The value of a digit list held least significant digit first. */
  function LittleEndian(digits: seq<nat>): nat {
    if digits == [] then 0 else digits[0] + 58 * LittleEndian(digits[1..])
  }

  lemma {:induction false} LittleEndianIsReversed(digits: seq<nat>)
    ensures LittleEndian(digits) == Value(Reverse(digits), 58)
  {
    if digits != [] {
      LittleEndianIsReversed(digits[1..]);
      assert Reverse(digits)[..|digits| - 1] == Reverse(digits[1..]);
    }
  }

  /** The digits of a carry that has nothing above it. */
  function Spill(carry: nat): seq<nat> {
    if carry == 0 then [] else [carry % 58] + Spill(carry / 58)
  }

  /** The digit list times 256, plus `carry`. */
  function Pushed(digits: seq<nat>, carry: nat): seq<nat> {
    if digits == [] then Spill(carry)
    else
      var c := carry + digits[0] * 256;
      [c % 58] + Pushed(digits[1..], c / 58)
  }

  lemma {:induction false} SpillValue(carry: nat)
    ensures LittleEndian(Spill(carry)) == carry
    ensures Normal(Spill(carry))
  {
    if carry > 0 {
      SpillValue(carry / 58);
      assert Spill(carry)[1..] == Spill(carry / 58);
    }
  }

  /** Digits and carry trade without loss, whatever the list. */
  lemma {:induction false} PushedValue(digits: seq<nat>, carry: nat)
    ensures LittleEndian(Pushed(digits, carry)) == 256 * LittleEndian(digits) + carry
  {
    if digits == [] {
      SpillValue(carry);
    } else {
      var c := carry + digits[0] * 256;
      PushedValue(digits[1..], c / 58);
      assert Pushed(digits, carry)[1..] == Pushed(digits[1..], c / 58);
    }
  }

  ghost predicate Normal(digits: seq<nat>) {
    && (forall i :: 0 <= i < |digits| ==> digits[i] < 58)
    && (digits != [] ==> digits[|digits| - 1] != 0)
  }

  /** The most significant digit is never zero. */
  lemma {:induction false} PushedNormal(digits: seq<nat>, carry: nat)
    requires Normal(digits)
    ensures Normal(Pushed(digits, carry))
    ensures digits != [] ==> Pushed(digits, carry) != []
  {
    if digits == [] {
      SpillValue(carry);
    } else {
      var c := carry + digits[0] * 256;
      PushedNormal(digits[1..], c / 58);
      if |digits| == 1 {
        SpillValue(c / 58);
      }
    }
  }

  /** One turn of the inner loop, on the list as a whole. */
  lemma PushedStep(digits: seq<nat>, j: nat, carry: nat)
    requires j < |digits|
    ensures var c := carry + digits[j] * 256;
      digits[..j] + Pushed(digits[j..], carry) == digits[j := c % 58][..j + 1] + Pushed(digits[j + 1..], c / 58)
  {
    var c := carry + digits[j] * 256;
    assert digits[j..][1..] == digits[j + 1..];
    assert digits[j := c % 58][..j + 1] == digits[..j] + [c % 58];
  }

  /** Multiplies the digit list by 256 and adds `byte`, in place; the carry never outgrows a byte. */
  method PushByte(before: seq<nat>, byte: Byte) returns (digits: seq<nat>)
    requires Normal(before)
    ensures digits == Pushed(before, byte)
  {
    hide Pushed, Spill;
    digits := before;
    var carry: nat := byte;
    var j := 0;
    assert digits[0..] == digits;
    while j < |digits|
      invariant 0 <= j <= |digits| == |before|
      invariant forall i :: j <= i < |digits| ==> digits[i] < 58
      invariant carry < 256
      invariant Pushed(before, byte) == digits[..j] + Pushed(digits[j..], carry)
    {
      PushedStep(digits, j, carry);
      var c := carry + digits[j] * 256;
      assert digits[j + 1..] == digits[j := c % 58][j + 1..];
      digits := digits[j := c % 58];
      carry := c / 58;
      j := j + 1;
    }
    assert digits[j..] == [] && digits[..j] == digits;
    PushedNothing(carry);
    while carry > 0
      invariant carry < 256
      invariant Pushed(before, byte) == digits + Spill(carry)
      decreases carry
    {
      SpillStep(digits, carry);
      digits := digits + [carry % 58];
      carry := carry / 58;
    }
    SpillNothing();
  }

  lemma PushedNothing(carry: nat)
    ensures Pushed([], carry) == Spill(carry)
  {
  }

  lemma SpillNothing()
    ensures Spill(0) == []
  {
  }

  lemma SpillStep(digits: seq<nat>, carry: nat)
    requires carry > 0
    ensures digits + Spill(carry) == digits + [carry % 58] + Spill(carry / 58)
  {
  }

  /** The digit list after all of `bytes` has been pushed. */
  function Collected(bytes: seq<Byte>): seq<nat> {
    if bytes == [] then [] else Pushed(Collected(bytes[..|bytes| - 1]), bytes[|bytes| - 1])
  }

  /** The base-58 value of the list is the base-256 value of the bytes consumed. */
  lemma {:induction false} CollectedValue(bytes: seq<Byte>)
    ensures LittleEndian(Collected(bytes)) == Value(bytes, 256)
    ensures Normal(Collected(bytes))
  {
    if bytes != [] {
      var front := bytes[..|bytes| - 1];
      CollectedValue(front);
      PushedValue(Collected(front), bytes[|bytes| - 1]);
      PushedNormal(Collected(front), bytes[|bytes| - 1]);
    }
  }

  /** Writes the leading ones, then the digits from the most significant down. */
  method Render(zeros: nat, digits: seq<nat>) returns (text: string)
    requires forall i :: 0 <= i < |digits| ==> digits[i] < 58
    ensures text == Ones(zeros) + Letters(Reverse(digits))
  {
    hide Letter;
    text := Ones(zeros);
    assert Reverse(digits[|digits|..]) == [];
    for i := |digits| downto 0
      invariant text == Ones(zeros) + Letters(Reverse(digits[i..]))
    {
      LettersAppend(Reverse(digits[i + 1..]), digits[i]);
      assert digits[i..][1..] == digits[i + 1..];
      text := text + [Letter(digits[i])];
    }
    assert digits[0..] == digits;
  }

  method Encode(bytes: seq<Byte>) returns (text: string)
    ensures text == Encoding(bytes)
  {
    hide Letter, Letters, Pushed;
    if |bytes| == 0 {
      assert Encoding(bytes) == "";
      return "";
    }
    var zeros := 0;
    while zeros < |bytes| && bytes[zeros] == 0
      invariant zeros <= |bytes|
      invariant forall i :: 0 <= i < zeros ==> bytes[i] == 0
    {
      zeros := zeros + 1;
    }
    var digits: seq<nat> := [];
    for i := zeros to |bytes|
      invariant digits == Collected(bytes[zeros..i])
    {
      CollectedValue(bytes[zeros..i]);
      assert bytes[zeros..i + 1][..i - zeros] == bytes[zeros..i];
      digits := PushByte(digits, bytes[i]);
    }
    CollectedValue(bytes[zeros..|bytes|]);
    text := Render(zeros, digits);
    LittleEndianIsReversed(digits);
    EncodingFromParts(bytes, zeros, Reverse(digits));
  }

  lemma EncodingFromParts(bytes: seq<Byte>, zeros: nat, digits: seq<nat>)
    requires zeros <= |bytes|
    requires forall i :: 0 <= i < zeros ==> bytes[i] == 0
    requires zeros < |bytes| ==> bytes[zeros] != 0
    requires Canonical(digits, 58) && Value(digits, 58) == Value(bytes[zeros..|bytes|], 256)
    ensures Ones(zeros) + Letters(digits) == Encoding(bytes)
  {
    hide Letter, Letters;
    DigitsOfValue(digits, 58);
    LeadingZerosUnique(bytes, zeros);
    assert bytes == Zeros(zeros) + bytes[zeros..|bytes|];
    ValueOfPadded(zeros, bytes[zeros..|bytes|], 256);
  }

  lemma {:induction false} LettersAppend(digits: seq<nat>, d: nat)
    requires forall i :: 0 <= i < |digits| ==> digits[i] < 58
    requires d < 58
    ensures Letters(digits + [d]) == Letters(digits) + [Letter(d)]
  {
    hide Letter;
    if digits == [] {
      assert [d][1..] == [];
    } else {
      LettersAppend(digits[1..], d);
      assert (digits + [d])[1..] == digits[1..] + [d];
    }
  }

  lemma LeadingZerosUnique(bytes: seq<Byte>, z: nat)
    requires z <= |bytes|
    requires forall i :: 0 <= i < z ==> bytes[i] == 0
    requires z < |bytes| ==> bytes[z] != 0
    ensures LeadingZeros(bytes) == z
  {
  }

  // ----- the round trips ------------------------------------------------------

  lemma OneIsZero()
    ensures Letter(0) == '1' && Digit('1') == Some(0)
    ensures forall c :: Digit(c) == Some(0) ==> c == '1'
  {
  }

  /** `Letter` is the lookup in the alphabet. */
  lemma LetterIsAlphabet(d: nat)
    requires d < 58
    ensures |ALPHABET| == 58 && ALPHABET[d] == Letter(d)
  {
    if d < 9 {
      assert ALPHABET[d] == "123456789"[d];
    } else if d < 17 {
      assert ALPHABET[d] == "ABCDEFGH"[d - 9];
    } else if d < 22 {
      assert ALPHABET[d] == "JKLMN"[d - 17];
    } else if d < 33 {
      assert ALPHABET[d] == "PQRSTUVWXYZ"[d - 22];
    } else if d < 44 {
      assert ALPHABET[d] == "abcdefghijk"[d - 33];
    } else {
      assert ALPHABET[d] == "mnopqrstuvwxyz"[d - 44];
    }
  }

  lemma {:induction false} DigitsOfLetters(digits: seq<nat>)
    requires forall i :: 0 <= i < |digits| ==> digits[i] < 58
    ensures DigitsOf(Letters(digits)) == Some(digits)
  {
    hide Letter, Digit;
    if digits != [] {
      DigitsOfLetters(digits[1..]);
      DigitOfLetter(digits[0]);
      assert Letters(digits)[1..] == Letters(digits[1..]);
      assert [digits[0]] + digits[1..] == digits;
    }
  }

  lemma {:induction false} LettersOfDigits(text: string)
    requires DigitsOf(text).Some?
    ensures Letters(DigitsOf(text).value) == text
  {
    hide Letter, Digit;
    if text != "" {
      LettersOfDigits(text[1..]);
      assert DigitsOf(text).value[1..] == DigitsOf(text[1..]).value;
      assert [text[0]] + text[1..] == text;
    }
  }

  lemma {:induction false} LettersOfPadded(zeros: nat, digits: seq<nat>)
    requires forall i :: 0 <= i < |digits| ==> digits[i] < 58
    ensures Letters(Zeros(zeros) + digits) == Ones(zeros) + Letters(digits)
  {
    hide Letters;
    if zeros == 0 {
      assert Zeros(0) + digits == digits;
      assert Ones(0) + Letters(digits) == Letters(digits);
    } else {
      var padded := Zeros(zeros - 1) + digits;
      LettersOfPadded(zeros - 1, digits);
      LettersOfZero(padded);
      assert Zeros(zeros) + digits == [0] + padded;
      assert Ones(zeros) + Letters(digits) == "1" + (Ones(zeros - 1) + Letters(digits));
    }
  }

  lemma LettersOfZero(digits: seq<nat>)
    requires forall i :: 0 <= i < |digits| ==> digits[i] < 58
    ensures Letters([0] + digits) == "1" + Letters(digits)
  {
    assert ([0] + digits)[1..] == digits;
  }

  lemma {:induction false} LeadingOnesOfPadded(zeros: nat, digits: seq<nat>)
    requires forall i :: 0 <= i < |digits| ==> digits[i] < 58
    requires digits != [] ==> digits[0] != 0
    ensures LeadingOnes(Ones(zeros) + Letters(digits)) == zeros
  {
    hide Letter, Digit;
    OneIsZero();
    if digits != [] {
      DigitOfLetter(digits[0]);
    }
    var text := Ones(zeros) + Letters(digits);
    if zeros > 0 {
      LeadingOnesOfPadded(zeros - 1, digits);
      assert text[1..] == Ones(zeros - 1) + Letters(digits);
    } else if digits != [] {
      assert text[0] == Letter(digits[0]);
    }
  }

  lemma DecodeOfPadded(zeros: nat, digits: seq<nat>)
    requires Canonical(digits, 58)
    ensures Decode(Ones(zeros) + Letters(digits)) == Some(Zeros(zeros) + Digits(Value(digits, 58), 256))
  {
    hide Letter, Letters, Digit, DigitsOf;
    LettersOfPadded(zeros, digits);
    DigitsOfLetters(Zeros(zeros) + digits);
    ValueOfPadded(zeros, digits, 58);
    LeadingOnesOfPadded(zeros, digits);
  }

  lemma BytesFromValue(bytes: seq<Byte>)
    ensures Zeros(LeadingZeros(bytes)) + Digits(Value(bytes, 256), 256) == bytes
  {
    var zeros := LeadingZeros(bytes);
    var rest := bytes[zeros..];
    assert bytes == Zeros(zeros) + rest;
    ValueOfPadded(zeros, rest, 256);
    DigitsOfValue(rest, 256);
  }

  /** Every byte string comes back from its text form. */
  lemma RoundTrip(bytes: seq<Byte>)
    ensures Decode(Encoding(bytes)) == Some(bytes)
  {
    hide Decode, Letters;
    var n := Value(bytes, 256);
    DecodeOfPadded(LeadingZeros(bytes), Digits(n, 58));
    ValueOfDigits(n, 58);
    BytesFromValue(bytes);
  }

  /** Distinct byte strings have distinct text forms. */
  lemma EncodingInjective(a: seq<Byte>, b: seq<Byte>)
    requires Encoding(a) == Encoding(b)
    ensures a == b
  {
    RoundTrip(a);
    RoundTrip(b);
  }

  lemma {:induction false} LeadingOnesAreZeros(text: string)
    requires DigitsOf(text).Some?
    ensures var ones, digits := LeadingOnes(text), DigitsOf(text).value;
      && ones <= |digits|
      && (forall i :: 0 <= i < ones ==> digits[i] == 0)
      && (ones < |digits| ==> digits[ones] > 0)
      && (forall i :: 0 <= i < |digits| ==> digits[i] < 58)
  {
    hide Letter, Digit;
    OneIsZero();
    if text != "" { LeadingOnesAreZeros(text[1..]); }
  }

  /** The leading ones of a text are its leading zero digits. */
  lemma LeadingZeroDigits(text: string)
    requires DigitsOf(text).Some?
    ensures var ones, digits := LeadingOnes(text), DigitsOf(text).value;
      && digits == Zeros(ones) + digits[ones..]
      && Canonical(digits[ones..], 58)
  {
    LeadingOnesAreZeros(text);
    hide DigitsOf, LeadingOnes, Zeros;
    var ones, digits := LeadingOnes(text), DigitsOf(text).value;
    assert digits[..ones] == Zeros(ones);
    assert digits == digits[..ones] + digits[ones..];
  }

  lemma TextFromDigits(text: string)
    requires DigitsOf(text).Some?
    ensures var ones, digits := LeadingOnes(text), DigitsOf(text).value;
      && Canonical(digits[ones..], 58)
      && digits == Zeros(ones) + digits[ones..]
      && text == Ones(ones) + Letters(digits[ones..])
  {
    hide Letter, Letters, Digit, DigitsOf;
    LeadingZeroDigits(text);
    LettersOfDigits(text);
    LettersOfPadded(LeadingOnes(text), DigitsOf(text).value[LeadingOnes(text)..]);
  }

  /** Every text over the alphabet is the text form of exactly the bytes it decodes to. */
  lemma TextRoundTrip(text: string)
    requires Decode(text).Some?
    ensures Encoding(Decode(text).value) == text
  {
    hide Letter, Letters, Digit, DigitsOf;
    TextFromDigits(text);
    var ones := LeadingOnes(text);
    var rest := DigitsOf(text).value[ones..];
    var n := Value(rest, 58);
    ValueOfPadded(ones, rest, 58);
    ValueOfDigits(n, 256);
    EncodingOfPadded(ones, Digits(n, 256));
    DigitsOfValue(rest, 58);
  }

  lemma EncodingOfPadded(zeros: nat, tail: seq<Byte>)
    requires tail != [] ==> tail[0] != 0
    ensures Encoding(Zeros(zeros) + tail) == Ones(zeros) + Letters(Digits(Value(tail, 256), 58))
  {
    hide Letter, Letters;
    LeadingZerosUnique(Zeros(zeros) + tail, zeros);
    ValueOfPadded(zeros, tail, 256);
  }
}
