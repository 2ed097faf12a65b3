/**
 The codec that packs bytes into digits of five bits. Its alphabet has 36 characters, of
 which the encoder uses the first 32.
 */
module Base36 {
  import opened Wrappers
  import opened Arithmetic
  import opened Sequences

  const DIGITS := "ABCDEFGHIJKLMNOPQRSTUVWXYZ0123456789"

  // unsigned int
  const WORD := 0x1_0000_0000

  // std::string::find of one character in the alphabet
  function IndexOf(c: char): (index: Option<nat>)
    ensures index.Some? ==> index.value < 36
  {
    if 'A' <= c <= 'Z' then Some(c as int - 'A' as int)
    else if '0' <= c <= '9' then Some(26 + (c as int - '0' as int))
    else None
  }

  function Digit(d: nat): (c: char)
    requires d < 36
    ensures IndexOf(c) == Some(d)
  {
    if d < 26 then ('A' as int + d) as char else ('0' as int + (d - 26)) as char
  }

  /** Looking for a character finds its place in the alphabet, and only a character that is not
      there is not found. */
  lemma IndexIsPlaceInAlphabet(c: char)
    ensures forall d: nat :: d < 36 ==> (IndexOf(c) == Some(d) <==> DIGITS[d] == c)
    ensures IndexOf(c).None? <==> c !in DIGITS
  {
    forall d: nat | d < 36
      ensures DIGITS[d] == Digit(d)
    {
      DigitHasPlace(d);
    }
    if IndexOf(c).Some? {
      assert DIGITS[IndexOf(c).value] == c;
    }
  }

  lemma DigitHasPlace(d: nat)
    requires d < 36
    ensures DIGITS[d] == Digit(d)
  {
  }

  // ---------- Bits ----------

  function Pow(k: nat): (p: nat)
    ensures p > 0
  {
    if k == 0 then 1 else 2 * Pow(k - 1)
  }

  lemma Pow5()
    ensures Pow(5) == 32
  {
  }

  lemma Pow8()
    ensures Pow(8) == 256
  {
  }

  // n in k bits, the highest first
  function Bits(n: nat, k: nat): (bits: seq<bool>)
    ensures |bits| == k
  {
    if k == 0 then [] else Bits(n / 2, k - 1) + [n % 2 == 1]
  }

  function ValueOf(bits: seq<bool>): (n: nat)
    ensures n < Pow(|bits|)
  {
    if bits == [] then 0
    else 2 * ValueOf(bits[..|bits| - 1]) + if bits[|bits| - 1] then 1 else 0
  }

  lemma {:induction false} BitsOfValue(bits: seq<bool>)
    ensures Bits(ValueOf(bits), |bits|) == bits
  {
    if bits != [] {
      BitsOfValue(bits[..|bits| - 1]);
    }
  }

  lemma {:induction false} ValueOfBits(n: nat, k: nat)
    ensures ValueOf(Bits(n, k)) == n % Pow(k)
  {
    if k > 0 {
      ValueOfBits(n / 2, k - 1);
      assert Bits(n, k)[..k - 1] == Bits(n / 2, k - 1);
      RemainderOfHalf(n, Pow(k - 1));
    }
  }

  lemma {:induction false} ValueOfSmall(n: nat, k: nat)
    requires n < Pow(k)
    ensures ValueOf(Bits(n, k)) == n
  {
    if k > 0 {
      ValueOfSmall(n / 2, k - 1);
      assert Bits(n, k)[..k - 1] == Bits(n / 2, k - 1);
    }
  }

  function Zeros(k: nat): (bits: seq<bool>)
    ensures |bits| == k
  {
    seq(k, i => false)
  }

  lemma {:induction false} BitsOfZero(k: nat)
    ensures Bits(0, k) == Zeros(k)
  {
    if k > 0 {
      BitsOfZero(k - 1);
    }
  }

  // The values one after the other, each in `width` bits.
  function Flat(values: seq<nat>, width: nat): seq<bool> {
    if values == [] then [] else Bits(values[0], width) + Flat(values[1..], width)
  }

  // The values of the full pieces of `width` bits; what is left over is dropped.
  function Cut(bits: seq<bool>, width: nat): (values: seq<nat>)
    requires 0 < width
    ensures forall i :: 0 <= i < |values| ==> values[i] < Pow(width)
  {
    if |bits| < width then [] else [ValueOf(bits[..width])] + Cut(bits[width..], width)
  }

  lemma CutTakesFirst(first: seq<bool>, rest: seq<bool>, width: nat)
    requires |first| == width > 0
    ensures Cut(first + rest, width) == [ValueOf(first)] + Cut(rest, width)
  {
    assert (first + rest)[..width] == first && (first + rest)[width..] == rest;
  }

  lemma FlatCons(value: nat, values: seq<nat>, width: nat)
    ensures Flat([value] + values, width) == Bits(value, width) + Flat(values, width)
  {
    assert ([value] + values)[1..] == values;
  }

  /** Cutting undoes flattening, whatever is left over. */
  lemma {:induction false} CutOfFlat(values: seq<nat>, width: nat, extra: seq<bool>)
    requires 0 < width && |extra| < width
    requires forall i :: 0 <= i < |values| ==> values[i] < Pow(width)
    ensures Cut(Flat(values, width) + extra, width) == values
  {
    if values == [] {
      AddNothing(extra);
    } else {
      CutOfFlat(values[1..], width, extra);
      ValueOfSmall(values[0], width);
      CutTakesFirst(Bits(values[0], width), Flat(values[1..], width) + extra, width);
      Associate(Bits(values[0], width), Flat(values[1..], width), extra);
      assert values == [values[0]] + values[1..];
    }
  }

  /** Flattening undoes cutting into digits, if nothing is left over. */
  lemma {:induction false} FlatOfCut(bits: seq<bool>, n: nat)
    requires |bits| == 5 * n
    ensures Flat(Cut(bits, 5), 5) == bits && |Cut(bits, 5)| == n
  {
    if n > 0 {
      var first, rest := bits[..5], bits[5..];
      FlatOfCut(rest, n - 1);
      BitsOfValue(first);
      FlatCons(ValueOf(first), Cut(rest, 5), 5);
      SplitAt(bits, 5);
    }
  }

  // ---------- What the codec computes ----------

  // How many zeros fill up the last digit of n bits.
  function Fill(n: nat): nat {
    (5 - n % 5) % 5
  }

  function FilledBits(input: seq<Byte>): seq<bool> {
    Flat(input, 8) + Zeros(Fill(8 * |input|))
  }

  function Encoded(input: seq<Byte>): string {
    Pow5();
    Spell(Cut(FilledBits(input), 5))
  }

  function Spell(digits: seq<nat>): (text: string)
    requires forall i :: 0 <= i < |digits| ==> digits[i] < 36
    ensures |text| == |digits|
  {
    seq(|digits|, i requires 0 <= i < |digits| => Digit(digits[i]))
  }

  // A digit from 32 on does not fit: its sixth bit is or-ed into the bit before.
  function WithDigit(pending: seq<bool>, index: nat): seq<bool> {
    (if index >= 32 && pending != [] then pending[|pending| - 1 := true] else pending) + Bits(index % 32, 5)
  }

  function DecodedFrom(pending: seq<bool>, input: string): seq<Byte>
    requires |pending| < 8
    decreases |input|
  {
    if input == [] || IndexOf(input[0]).None? then []
    else
      var more := WithDigit(pending, IndexOf(input[0]).value);
      if |more| < 8 then DecodedFrom(more, input[1..])
      else
        assert Pow(8) == 256;
        [ValueOf(more[..8])] + DecodedFrom(more[8..], input[1..])
  }

  // ---------- The accumulator ----------

  // The low bits of the 32-bit accumulator are the pending ones.
  ghost predicate Tracks(value: nat, pending: seq<bool>) {
    value < WORD && |pending| <= 32 && Bits(value, |pending|) == pending
  }

  // << and >> on an unsigned int, one place at a time
  function ShiftLeft(value: nat, k: nat): nat {
    if k == 0 then value else ShiftLeft(value, k - 1) * 2 % WORD
  }

  function ShiftRight(value: nat, k: nat): nat {
    if k == 0 then value else ShiftRight(value / 2, k - 1)
  }

  lemma {:induction false} HighBitIsOutOfSight(value: nat, m: nat, k: nat)
    requires k <= m && Pow(m) <= value
    ensures Bits(value - Pow(m), k) == Bits(value, k)
  {
    if k > 0 {
      HalfOfDifference(value, Pow(m - 1));
      HighBitIsOutOfSight(value / 2, m - 1, k - 1);
    }
  }

  lemma HalfOfDifference(value: nat, p: nat)
    requires 2 * p <= value
    ensures (value - 2 * p) / 2 == value / 2 - p && (value - 2 * p) % 2 == value % 2
  {
  }

  // What fits into the room that a shift has made does not carry.
  lemma {:induction false} FitsIntoRoom(value: nat, room: nat, n: nat, m: nat)
    requires room <= m && Bits(value, room) == Zeros(room) && n < Pow(room) && value < Pow(m)
    ensures value + n < Pow(m)
  {
    if room > 0 {
      assert Bits(value, room)[room - 1] == Zeros(room)[room - 1];
      assert Bits(value / 2, room - 1) == Bits(value, room)[..room - 1] == Zeros(room - 1);
      FitsIntoRoom(value / 2, room - 1, n / 2, m - 1);
    }
  }

  lemma {:induction false} SplitBits(value: nat, m: nat, k: nat)
    ensures Bits(value, m + k) == Bits(ShiftRight(value, k), m) + Bits(value, k)
  {
    if k > 0 {
      SplitBits(value / 2, m, k - 1);
      assert Bits(value, m + k) == Bits(value / 2, m + (k - 1)) + [value % 2 == 1];
    }
  }

  lemma {:induction false} ShiftLeftBits(value: nat, n: nat, j: nat, k: nat)
    requires value < WORD && j + k <= 32 && n < Pow(k)
    ensures ShiftLeft(value, k) + n < WORD
    ensures Bits(ShiftLeft(value, k) + n, j + k) == Bits(value, j) + Bits(n, k)
  {
    WordIsPow();
    if k > 0 {
      var before := ShiftLeft(value, k - 1);
      ShiftLeftBits(value, n / 2, j, k - 1);
      RoomOfShift(value, k - 1);
      DoubleBits(before, n, j + k);
      FitsWhenDoubled(before, n, k);
    }
  }

  lemma WordIsPow()
    ensures Pow(32) == WORD && Pow(31) == WORD / 2
  {
    assert Pow(8) == 256;
    assert Pow(16) == 0x1_0000;
    assert Pow(24) == 0x100_0000;
  }

  lemma {:induction false} RoomOfShift(value: nat, k: nat)
    requires value < WORD && k <= 31
    ensures ShiftLeft(value, k) < WORD && Bits(ShiftLeft(value, k), k) == Zeros(k)
  {
    if k > 0 {
      RoomOfShift(value, k - 1);
      BitsOfZero(k);
      BitsOfZero(k - 1);
      DoubleBits(ShiftLeft(value, k - 1), 0, k);
    }
  }

  // The word is doubled, its highest bit is lost, and the lowest bit of n comes in, while the
  // others of n are in already.
  lemma DoubleBits(before: nat, n: nat, k: nat)
    requires 0 < k <= 32 && before < WORD
    ensures Bits(before * 2 % WORD + n, k) == Bits(before + n / 2, k - 1) + [n % 2 == 1]
  {
    DoubledWord(before, n);
    if before >= WORD / 2 {
      WordIsPow();
      HighBitIsOutOfSight(before + n / 2, 31, k - 1);
    }
  }

  lemma DoubledWord(before: nat, n: nat)
    requires before < WORD
    ensures var after := before * 2 % WORD + n;
            && after % 2 == n % 2
            && after / 2 == before + n / 2 - (if before < WORD / 2 then 0 else WORD / 2)
  {
    assert before * 2 % WORD == before * 2 - (if before < WORD / 2 then 0 else WORD);
  }

  lemma FitsWhenDoubled(before: nat, n: nat, k: nat)
    requires 0 < k <= 32 && before < WORD && n < Pow(k) && Bits(before, k - 1) == Zeros(k - 1)
    ensures before * 2 % WORD + n < WORD
  {
    WordIsPow();
    BitsOfZero(k);
    BitsOfZero(k - 1);
    DoubleBits(before, 0, k);
    FitsIntoRoom(before * 2 % WORD, k, n, 32);
  }

  lemma ShiftInTracks(value: nat, pending: seq<bool>, n: nat, k: nat)
    requires Tracks(value, pending) && |pending| + k <= 32 && n < Pow(k)
    ensures Tracks(ShiftLeft(value, k) + n, pending + Bits(n, k))
  {
    ShiftLeftBits(value, n, |pending|, k);
  }

  // The first m pending bits come out by a shift to the right; the others stay.
  lemma TakeOutTracks(value: nat, pending: seq<bool>, m: nat)
    requires Tracks(value, pending) && m <= |pending|
    ensures ShiftRight(value, |pending| - m) % Pow(m) == ValueOf(pending[..m])
    ensures Tracks(value, pending[m..])
  {
    SplitBits(value, m, |pending| - m);
    ValueOfBits(ShiftRight(value, |pending| - m), m);
    assert pending[..m] == Bits(ShiftRight(value, |pending| - m), m);
  }

  // `shifted | index` for an index of at most six bits, where the low five of shifted are 0
  function Or(shifted: nat, index: nat): nat {
    if index >= 32 && shifted / 32 % 2 == 1 then shifted + index % 32 else shifted + index
  }

  function SetLow(value: nat): nat {
    if value % 2 == 1 then value else value + 1
  }

  lemma OrTracks(value: nat, pending: seq<bool>, index: nat)
    requires Tracks(value, pending) && |pending| < 8 && index < 36
    ensures Tracks(Or(ShiftLeft(value, 5), index), WithDigit(pending, index))
  {
    if index < 32 {
      FiveMoreTrack(value, pending, index);
      PlainDigit(value, pending, index);
    } else {
      MarkingDigitTracks(value, pending, if pending == [] then [] else pending[|pending| - 1 := true], index);
    }
  }

  lemma PlainDigit(value: nat, pending: seq<bool>, index: nat)
    requires index < 32
    ensures Or(ShiftLeft(value, 5), index) == ShiftLeft(value, 5) + index
    ensures WithDigit(pending, index) == pending + Bits(index, 5)
  {
  }

  lemma MarkingDigitTracks(value: nat, pending: seq<bool>, marked: seq<bool>, index: nat)
    requires Tracks(value, pending) && |pending| < 8 && 32 <= index < 36
    requires marked == if pending == [] then [] else pending[|pending| - 1 := true]
    ensures Tracks(Or(ShiftLeft(value, 5), index), WithDigit(pending, index))
  {
    SetLowTracks(value, pending);
    FiveMoreTrack(SetLow(value), marked, index % 32);
    OrSetsLow(value, index);
    DigitMarks(pending, marked, index);
  }

  lemma FiveMoreTrack(value: nat, pending: seq<bool>, n: nat)
    requires Tracks(value, pending) && |pending| < 8 && n < 32
    ensures Tracks(ShiftLeft(value, 5) + n, pending + Bits(n, 5))
  {
    Pow5();
    ShiftInTracks(value, pending, n, 5);
  }

  lemma DigitMarks(pending: seq<bool>, marked: seq<bool>, index: nat)
    requires index >= 32 && marked == if pending == [] then [] else pending[|pending| - 1 := true]
    ensures WithDigit(pending, index) == marked + Bits(index % 32, 5)
  {
  }

  lemma SetLowTracks(value: nat, pending: seq<bool>)
    requires Tracks(value, pending)
    ensures Tracks(SetLow(value), if pending == [] then [] else pending[|pending| - 1 := true])
  {
    assert SetLow(value) / 2 == value / 2;
  }

  lemma OrSetsLow(value: nat, index: nat)
    requires value < WORD && 32 <= index < 36
    ensures Or(ShiftLeft(value, 5), index) == ShiftLeft(SetLow(value), 5) + index % 32
  {
    ShiftLeftFive(value);
    ShiftLeftFive(SetLow(value));
    OrSetsSixthBit(value, index);
  }

  lemma OrSetsSixthBit(value: nat, index: nat)
    requires value < WORD && 32 <= index < 36
    ensures Or(value * 32 % WORD, index) == SetLow(value) * 32 % WORD + index % 32
  {
  }

  lemma ShiftLeftFive(value: nat)
    ensures ShiftLeft(value, 5) == value * 32 % WORD
  {
    ShiftOnce(value, 0, value);
    ShiftOnce(value, 1, value * 2);
    ShiftOnce(value, 2, value * 4);
    ShiftOnce(value, 3, value * 8);
    ShiftOnce(value, 4, value * 16);
  }

  lemma ShiftOnce(value: nat, k: nat, shifted: nat)
    requires ShiftLeft(value, k) == if k == 0 then shifted else shifted % WORD
    ensures ShiftLeft(value, k + 1) == shifted * 2 % WORD
  {
    DoubleWrapped(shifted);
  }

  lemma DoubleWrapped(x: nat)
    ensures x % WORD * 2 % WORD == x * 2 % WORD
  {
  }

  // ---------- The loops ----------

  // What is written, what is pending and what is still to be read make up the encoding.
  ghost predicate Encoding(value: nat, pending: seq<bool>, text: string, rest: seq<Byte>, input: seq<Byte>) {
    && Tracks(value, pending)
    && (|pending| + 8 * |rest|) % 5 == 8 * |input| % 5
    && text + Written(pending + (Flat(rest, 8) + Zeros(Fill(8 * |input|)))) == Encoded(input)
  }

  function Written(bits: seq<bool>): string {
    Pow5();
    Spell(Cut(bits, 5))
  }

  method Encode(input: seq<Byte>) returns (result: string)
    ensures result == Encoded(input)
  {
    result := "";
    var value: nat, bits: nat := 0, 0;
    ghost var pending: seq<bool> := [];
    NothingReadYet(input);
    for i := 0 to |input|
      invariant bits == |pending| < 5
      invariant Encoding(value, pending, result, input[i..], input)
    {
      ByteComes(value, pending, result, i, input);
      value := ShiftLeft(value, 8) + input[i];
      pending := pending + Bits(input[i], 8);
      bits, result, pending := WriteDigits(value, bits + 8, result, pending, input[i + 1..], input);
    }
    assert input[|input|..] == [];
    result := WriteLastDigit(value, bits, result, pending, input);
  }

  lemma NothingReadYet(input: seq<Byte>)
    ensures Encoding(0, [], "", input[0..], input)
  {
    assert input[0..] == input;
    AddNothing(FilledBits(input));
  }

  method WriteDigits(value: nat, bits: nat, text: string, ghost pending: seq<bool>, ghost rest: seq<Byte>,
                     ghost input: seq<Byte>)
    returns (bits': nat, text': string, ghost pending': seq<bool>)
    requires bits == |pending| && Encoding(value, pending, text, rest, input)
    ensures bits' == |pending'| < 5 && Encoding(value, pending', text', rest, input)
  {
    bits', text', pending' := bits, text, pending;
    while bits' >= 5
      invariant bits' == |pending'|
      invariant Encoding(value, pending', text', rest, input)
    {
      DigitGoes(value, pending', text', rest, input);
      bits' := bits' - 5;
      text' := text' + [Digit(ShiftRight(value, bits') % 32)];
      pending' := pending'[5..];
    }
  }

  method WriteLastDigit(value: nat, bits: nat, text: string, ghost pending: seq<bool>, ghost input: seq<Byte>)
    returns (text': string)
    requires bits == |pending| < 5 && Encoding(value, pending, text, [], input)
    ensures text' == Encoded(input)
  {
    LastDigitGoes(value, pending, text, input);
    text' := if bits > 0 then text + [Digit(ShiftLeft(value, 5 - bits) % 32)] else text;
  }

  lemma Regroup<T>(a: seq<T>, b: seq<T>, c: seq<T>, d: seq<T>)
    ensures a + ((b + c) + d) == (a + b) + (c + d)
  {
  }

  lemma ByteComes(value: nat, pending: seq<bool>, text: string, i: nat, input: seq<Byte>)
    requires i < |input| && |pending| < 5 && Encoding(value, pending, text, input[i..], input)
    ensures Encoding(ShiftLeft(value, 8) + input[i], pending + Bits(input[i], 8), text, input[i + 1..], input)
  {
    Pow8();
    ShiftInTracks(value, pending, input[i], 8);
    assert input[i..][1..] == input[i + 1..];
    Regroup(pending, Bits(input[i], 8), Flat(input[i + 1..], 8), Zeros(Fill(8 * |input|)));
  }

  lemma DigitGoes(value: nat, pending: seq<bool>, text: string, rest: seq<Byte>, input: seq<Byte>)
    requires |pending| >= 5 && Encoding(value, pending, text, rest, input)
    ensures Encoding(value, pending[5..], text + [Digit(ShiftRight(value, |pending| - 5) % 32)], rest, input)
  {
    Pow5();
    TakeOutTracks(value, pending, 5);
    WrittenTakesFirst(pending[..5], pending[5..] + (Flat(rest, 8) + Zeros(Fill(8 * |input|))));
    SplitAt(pending, 5);
    Associate(pending[..5], pending[5..], Flat(rest, 8) + Zeros(Fill(8 * |input|)));
    Associate(text, [Digit(ValueOf(pending[..5]))], Written(pending[5..] + (Flat(rest, 8) + Zeros(Fill(8 * |input|)))));
    FiveLess(|pending| + 8 * |rest|);
  }

  lemma FiveLess(n: nat)
    requires n >= 5
    ensures (n - 5) % 5 == n % 5
  {
  }

  lemma WrittenTakesFirst(first: seq<bool>, rest: seq<bool>)
    requires |first| == 5
    ensures ValueOf(first) < 32 && Written(first + rest) == [Digit(ValueOf(first))] + Written(rest)
  {
    Pow5();
    CutTakesFirst(first, rest, 5);
    SpellCons(ValueOf(first), Cut(rest, 5));
  }

  lemma SpellCons(d: nat, digits: seq<nat>)
    requires d < 32 && forall i :: 0 <= i < |digits| ==> digits[i] < 32
    ensures Spell([d] + digits) == [Digit(d)] + Spell(digits)
  {
  }

  lemma LastDigitGoes(value: nat, pending: seq<bool>, text: string, input: seq<Byte>)
    requires |pending| < 5 && Encoding(value, pending, text, [], input)
    ensures Encoded(input)
         == text + if pending == [] then [] else [Digit(ShiftLeft(value, 5 - |pending|) % 32)]
  {
    var fill := Fill(8 * |input|);
    AddNothing(Zeros(fill));
    assert fill == if pending == [] then 0 else 5 - |pending|;
    WrittenLast(value, pending);
  }

  lemma WrittenLast(value: nat, pending: seq<bool>)
    requires Tracks(value, pending) && |pending| < 5
    ensures var fill := if pending == [] then 0 else 5 - |pending|;
            Written(pending + Zeros(fill)) == if pending == [] then [] else [Digit(ShiftLeft(value, fill) % 32)]
  {
    if pending == [] {
      AddNothing(Zeros(0));
    } else {
      var last := pending + Zeros(5 - |pending|);
      LastDigit(value, pending);
      WrittenTakesFirst(last, []);
      AddNothing(last);
    }
  }

  lemma LastDigit(value: nat, pending: seq<bool>)
    requires Tracks(value, pending) && 0 < |pending| < 5
    ensures ShiftLeft(value, 5 - |pending|) % 32 == ValueOf(pending + Zeros(5 - |pending|)) < 32
  {
    Pow5();
    ShiftInTracks(value, pending, 0, 5 - |pending|);
    BitsOfZero(5 - |pending|);
    ValueOfBits(ShiftLeft(value, 5 - |pending|), 5);
  }

  ghost predicate Decoding(value: nat, pending: seq<bool>, bytes: seq<Byte>, rest: string, input: string) {
    Tracks(value, pending) && |pending| < 8 && bytes + DecodedFrom(pending, rest) == DecodedFrom([], input)
  }

  // Stops at the first character that is not in the alphabet, with what it has so far.
  method Decode(input: string) returns (result: seq<Byte>)
    ensures result == DecodedFrom([], input)
  {
    result := [];
    var value: nat, bits: nat := 0, 0;
    ghost var pending: seq<bool> := [];
    var i := 0;
    assert input[0..] == input;
    while i < |input|
      invariant i <= |input| && bits == |pending|
      invariant Decoding(value, pending, result, input[i..], input)
    {
      var index := IndexOf(input[i]);
      if index.None? {
        return;
      }
      CharacterComes(value, pending, result, i, input);
      value := Or(ShiftLeft(value, 5), index.value);
      bits := bits + 5;
      pending := WithDigit(pending, index.value);
      if bits >= 8 {
        bits := bits - 8;
        result := result + [ShiftRight(value, bits) % 256];
        pending := pending[8..];
      }
      i := i + 1;
    }
  }

  lemma CharacterComes(value: nat, pending: seq<bool>, bytes: seq<Byte>, i: nat, input: string)
    requires i < |input| && IndexOf(input[i]).Some? && Decoding(value, pending, bytes, input[i..], input)
    ensures var index := IndexOf(input[i]).value;
            var now, more := Or(ShiftLeft(value, 5), index), WithDigit(pending, index);
            && |more| == |pending| + 5
            && (|more| < 8 ==> Decoding(now, more, bytes, input[i + 1..], input))
            && (|more| >= 8 ==>
                  Decoding(now, more[8..], bytes + [ShiftRight(now, |more| - 8) % 256], input[i + 1..], input))
  {
    var index := IndexOf(input[i]).value;
    var now, more := Or(ShiftLeft(value, 5), index), WithDigit(pending, index);
    OrTracks(value, pending, index);
    assert input[i..][1..] == input[i + 1..];
    if |more| >= 8 {
      Pow8();
      TakeOutTracks(now, more, 8);
    }
  }

  // ---------- The round trip ----------

  /** Decoding proper digits cuts their bits into bytes. */
  lemma {:induction false} DecodingCuts(pending: seq<bool>, digits: seq<nat>)
    requires |pending| < 8 && forall i :: 0 <= i < |digits| ==> digits[i] < 32
    ensures DecodedFrom(pending, Spell(digits)) == Cut(pending + Flat(digits, 5), 8)
    decreases |digits|
  {
    if digits == [] {
      AddNothing(pending);
    } else {
      var more, rest := pending + Bits(digits[0], 5), digits[1..];
      SpellCons(digits[0], rest);
      assert digits == [digits[0]] + rest;
      FirstCharacter(pending, digits[0], Spell(rest));
      PlainDigit(0, pending, digits[0]);
      Associate(pending, Bits(digits[0], 5), Flat(rest, 5));
      if |more| < 8 {
        DecodingCuts(more, rest);
      } else {
        DecodingCuts(more[8..], rest);
        CutTakesFirst(more[..8], more[8..] + Flat(rest, 5), 8);
        Associate(more[..8], more[8..], Flat(rest, 5));
        SplitAt(more, 8);
      }
    }
  }

  // What is decoded once a digit has come in.
  function Continued(more: seq<bool>, rest: string): seq<Byte>
    requires |more| < 16
  {
    Pow8();
    if |more| < 8 then DecodedFrom(more, rest) else [ValueOf(more[..8])] + DecodedFrom(more[8..], rest)
  }

  lemma FirstCharacter(pending: seq<bool>, index: nat, rest: string)
    requires |pending| < 8 && index < 36
    ensures DecodedFrom(pending, [Digit(index)] + rest) == Continued(WithDigit(pending, index), rest)
  {
    assert ([Digit(index)] + rest)[1..] == rest;
  }

  lemma {:induction false} FlatBytesLength(bytes: seq<Byte>)
    ensures |Flat(bytes, 8)| == 8 * |bytes|
  {
    if bytes != [] {
      FlatBytesLength(bytes[1..]);
    }
  }

  /** Decoding the encoding of any byte string gives it back, and the encoding of n bytes has
      8n/5 characters, rounded up. */
  lemma RoundTrip(input: seq<Byte>)
    ensures DecodedFrom([], Encoded(input)) == input
    ensures |Encoded(input)| == (8 * |input| + 4) / 5
  {
    var bits := FilledBits(input);
    FilledLength(input);
    FlatOfCut(bits, (8 * |input| + 4) / 5);
    Pow5();
    DecodingCuts([], Cut(bits, 5));
    AddNothing(bits);
    Pow8();
    CutOfFlat(input, 8, Zeros(Fill(8 * |input|)));
  }

  lemma FilledLength(input: seq<Byte>)
    ensures |FilledBits(input)| == 5 * ((8 * |input| + 4) / 5)
  {
    FlatBytesLength(input);
    FillRoundsUp(8 * |input|);
  }

  lemma FillRoundsUp(n: nat)
    ensures n + Fill(n) == 5 * ((n + 4) / 5)
  {
  }

  /** The last four characters of the alphabet are not digits of five bits: within a byte they
      read as other digits, and they set the bit before them. */
  lemma LastCharactersDisturb(pending: seq<bool>, index: nat, rest: string)
    requires 0 < |pending| < 8 && 32 <= index < 36
    ensures DecodedFrom(pending, [Digit(index)] + rest)
         == DecodedFrom(pending[|pending| - 1 := true], [Digit(index - 32)] + rest)
  {
    var marked := pending[|pending| - 1 := true];
    FirstCharacter(pending, index, rest);
    FirstCharacter(marked, index - 32, rest);
    SameDigits(pending, marked, index);
  }

  lemma SameDigits(pending: seq<bool>, marked: seq<bool>, index: nat)
    requires pending != [] && 32 <= index < 36 && marked == pending[|pending| - 1 := true]
    ensures WithDigit(pending, index) == WithDigit(marked, index - 32)
  {
    assert (index - 32) % 32 == index % 32;
  }

  /** The bytes of the letters f and o, which have the same five-bit digits in every base-32
      alphabet that begins with A to Z. */
  lemma KnownDigits()
    ensures Encoded([102, 111]) == "MZXQ"
  {
    Pow5();
    KnownBits();
    KnownCut(Bits(12, 5), Bits(25, 5), Bits(23, 5), Bits(16, 5));
    KnownValues();
    assert Spell([12, 25, 23, 16]) == "MZXQ";
  }

  lemma KnownValues()
    ensures ValueOf(Bits(12, 5)) == 12 && ValueOf(Bits(25, 5)) == 25
    ensures ValueOf(Bits(23, 5)) == 23 && ValueOf(Bits(16, 5)) == 16
  {
    Pow5();
    ValueOfSmall(12, 5);
    ValueOfSmall(25, 5);
    ValueOfSmall(23, 5);
    ValueOfSmall(16, 5);
  }

  lemma KnownBits()
    ensures FilledBits([102, 111]) == Bits(12, 5) + (Bits(25, 5) + (Bits(23, 5) + Bits(16, 5)))
  {
    var input: seq<Byte> := [102, 111];
    assert input[1..] == [111] && Flat(input, 8) == Bits(102, 8) + (Bits(111, 8) + []);
    KnownPieces();
    CutSixteen(Bits(102, 8), Bits(111, 8), Zeros(Fill(16)));
  }

  lemma KnownPieces()
    ensures Bits(102, 8)[..5] == Bits(12, 5) && Bits(102, 8)[5..] + Bits(111, 8)[..2] == Bits(25, 5)
    ensures Bits(111, 8)[2..7] == Bits(23, 5) && Bits(111, 8)[7..] + Zeros(Fill(16)) == Bits(16, 5)
  {
    FirstEightBits();
    NextEightBits();
    FiveBits();
  }

  lemma CutSixteen<T>(a: seq<T>, b: seq<T>, c: seq<T>)
    requires |a| == |b| == 8
    ensures a + (b + []) + c == a[..5] + ((a[5..] + b[..2]) + (b[2..7] + (b[7..] + c)))
  {
  }

  lemma FirstEightBits()
    ensures var o, l := false, true; Bits(102, 8) == [o, l, l, o, o, l, l, o]
  {
  }

  lemma NextEightBits()
    ensures var o, l := false, true; Bits(111, 8) == [o, l, l, o, l, l, l, l] && Zeros(Fill(16)) == [o, o, o, o]
  {
  }

  lemma FiveBits()
    ensures var o, l := false, true;
            Bits(12, 5) == [o, l, l, o, o] && Bits(25, 5) == [l, l, o, o, l]
            && Bits(23, 5) == [l, o, l, l, l] && Bits(16, 5) == [l, o, o, o, o]
  {
  }

  lemma KnownCut(a: seq<bool>, b: seq<bool>, c: seq<bool>, d: seq<bool>)
    requires |a| == |b| == |c| == |d| == 5
    ensures Cut(a + (b + (c + d)), 5) == [ValueOf(a), ValueOf(b), ValueOf(c), ValueOf(d)]
  {
    CutTakesFirst(a, b + (c + d), 5);
    CutTakesFirst(b, c + d, 5);
    CutTakesFirst(c, d, 5);
    AddNothing(d);
    CutTakesFirst(d, [], 5);
  }
}
