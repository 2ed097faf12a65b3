/**
 base64encode and base64decode. As written, the encoder's test for the last group never sees
 that only one byte was left, nor that three were there.
 */
module Base64 {
  import opened Sequences

  const CHARS := "ABCDEFGHIJKLMNOPQRSTUVWXYZ" + "abcdefghijklmnopqrstuvwxyz" + "0123456789+/"

  function Char(v: nat): (c: char)
    requires v < 64
    ensures c != '=' && Value(c) == v
  {
    if v < 26 then ('A' as int + v) as char
    else if v < 52 then ('a' as int + (v - 26)) as char
    else if v < 62 then ('0' as int + (v - 52)) as char
    else if v == 62 then '+' else '/'
  }

  // What the decoder's table has for a character; a character that is not there gets 0.
  function Value(c: char): (v: nat)
    ensures v < 64
  {
    if 'A' <= c <= 'Z' then c as int - 'A' as int
    else if 'a' <= c <= 'z' then 26 + (c as int - 'a' as int)
    else if '0' <= c <= '9' then 52 + (c as int - '0' as int)
    else if c == '+' then 62
    else if c == '/' then 63
    else 0
  }

  /** The decoder's table has for each character of the alphabet its place there. */
  lemma ValueIsPlaceInAlphabet(c: char)
    ensures forall v: nat :: v < 64 && CHARS[v] == c ==> Value(c) == v
    ensures c !in CHARS ==> Value(c) == 0
  {
    forall v: nat | v < 64
      ensures CHARS[v] == Char(v)
    {
      CharHasPlace(v);
    }
    if c !in CHARS {
      assert CHARS[Value(c)] != c;
    }
  }

  lemma CharHasPlace(v: nat)
    requires v < 64
    ensures CHARS[v] == Char(v)
  {
    if v < 26 {
      UpperCaseChar(v);
    } else if v < 52 {
      LowerCaseChar(v - 26);
    } else {
      OtherChar(v - 52);
    }
  }

  lemma UpperCaseChar(v: nat)
    requires v < 26
    ensures "ABCDEFGHIJKLMNOPQRSTUVWXYZ"[v] == Char(v)
  {
  }

  lemma LowerCaseChar(v: nat)
    requires v < 26
    ensures "abcdefghijklmnopqrstuvwxyz"[v] == Char(26 + v)
  {
  }

  lemma OtherChar(v: nat)
    requires v < 12
    ensures "0123456789+/"[v] == Char(52 + v)
  {
  }

  // The four characters of three bytes: the 24 bits, six by six.
  function Group(a: Byte, b: Byte, c: Byte): (text: string)
    ensures |text| == 4
  {
    [Char(a / 4), Char(a % 4 * 16 + b / 16), Char(b % 16 * 4 + c / 64), Char(c % 64)]
  }

  // The last group of one, two or three bytes. As written, a group that ends the input always
  // gets one padding character.
  function LastGroup(rest: seq<Byte>, corrected: bool): (text: string)
    requires 1 <= |rest| <= 3
    ensures |text| == 4
  {
    var b, c := if |rest| > 1 then rest[1] else 0, if |rest| > 2 then rest[2] else 0;
    var text := Group(rest[0], b, c);
    if corrected && |rest| == 3 then text
    else if corrected && |rest| == 1 then text[..2] + "=="
    else text[..3] + "="
  }

  function Encoded(input: seq<Byte>, corrected: bool): string {
    if input == [] then ""
    else if |input| <= 3 then LastGroup(input, corrected)
    else Group(input[0], input[1], input[2]) + Encoded(input[3..], corrected)
  }

  // ---------- Decoding ----------

  // The bytes of four characters: their bits, eight by eight. A padding character stands for
  // zeros, and takes its byte away.
  function DecodedGroup(c1: char, c2: char, c3: char, c4: char): seq<Byte> {
    var v1, v2, v3, v4 := Value(c1), Value(c2), Value(c3), Value(c4);
    [v1 * 4 + v2 / 16] + (if c3 != '=' then [v2 % 16 * 16 + v3 / 4] else [])
    + (if c4 != '=' then [v3 % 4 * 64 + v4] else [])
  }

  function DecodedGroups(input: string): seq<Byte>
    requires |input| % 4 == 0
  {
    if input == [] then []
    else DecodedGroup(input[0], input[1], input[2], input[3]) + DecodedGroups(input[4..])
  }

  function Decoded(input: string): seq<Byte> {
    if |input| % 4 != 0 then [] else DecodedGroups(input)
  }

  // ---------- The loops ----------

  // The next group, as the loop of the encoder writes it: one, two or three bytes are taken,
  // and `atEnd` says whether the input ends with them.
  function NextGroup(taken: seq<Byte>, atEnd: bool, corrected: bool): string
    requires 1 <= |taken| <= 3
  {
    if atEnd then LastGroup(taken, corrected)
    else Group(taken[0], if |taken| > 1 then taken[1] else 0, if |taken| > 2 then taken[2] else 0)
  }

  lemma GroupByGroup(rest: seq<Byte>, n: nat, corrected: bool)
    requires rest != [] && n == if |rest| < 3 then |rest| else 3
    ensures Encoded(rest, corrected)
         == NextGroup(rest[..n], n == |rest|, corrected) + Encoded(rest[n..], corrected)
  {
    if |rest| <= 3 {
      assert rest[..|rest|] == rest && rest[|rest|..] == [];
      assert LastGroup(rest, corrected) + "" == LastGroup(rest, corrected);
    }
  }

  // What is written and what is still to be read make up the encoding.
  ghost predicate Encoding(text: string, rest: seq<Byte>, input: seq<Byte>, corrected: bool) {
    text + Encoded(rest, corrected) == Encoded(input, corrected)
  }

  lemma GroupWritten(text: string, input: seq<Byte>, begin: nat, i: nat, corrected: bool)
    requires begin < |input| && i == (if begin + 3 < |input| then begin + 3 else |input|)
    requires Encoding(text, input[begin..], input, corrected)
    ensures Encoding(text + NextGroup(input[begin..i], i == |input|, corrected), input[i..], input, corrected)
  {
    var rest := input[begin..];
    GroupByGroup(rest, i - begin, corrected);
    assert rest[..i - begin] == input[begin..i] && rest[i - begin..] == input[i..];
    Associate(text, NextGroup(input[begin..i], i == |input|, corrected), Encoded(input[i..], corrected));
  }

  method Encode(input: seq<Byte>, corrected: bool) returns (result: string)
    ensures result == Encoded(input, corrected)
  {
    result := "";
    var len, i := |input|, 0;
    assert input[0..] == input;
    while i < len
      invariant i <= len && Encoding(result, input[i..], input, corrected)
    {
      var octetA, octetB, octetC, next := TakeThree(input, i);
      GroupWritten(result, input, i, next, corrected);
      var text := WriteGroup(octetA, octetB, octetC, next - i, next, len, corrected);
      result := result + text;
      i := next;
    }
  }

  method TakeThree(input: seq<Byte>, i: nat) returns (octetA: Byte, octetB: Byte, octetC: Byte, next: nat)
    requires i < |input|
    ensures next == if i + 3 < |input| then i + 3 else |input|
    ensures [octetA, octetB, octetC][..next - i] == input[i..next]
    ensures (next - i < 2 ==> octetB == 0) && (next - i < 3 ==> octetC == 0)
  {
    octetA, octetB, octetC, next := input[i], 0, 0, i + 1;
    if next < |input| {
      octetB := input[next];
      next := next + 1;
    }
    if next < |input| {
      octetC := input[next];
      next := next + 1;
    }
  }

  // The test for the tail: as written, i is never more than len, and it is more than len - 1
  // whenever the input has ended.
  method WriteGroup(octetA: Byte, octetB: Byte, octetC: Byte, taken: nat, i: nat, len: nat, corrected: bool)
    returns (text: string)
    requires 1 <= taken <= 3 && i <= len && (taken < 3 ==> i == len)
    requires (taken < 2 ==> octetB == 0) && (taken < 3 ==> octetC == 0)
    ensures text == NextGroup([octetA, octetB, octetC][..taken], i == len, corrected)
  {
    var triple := octetA * 0x1_0000 + octetB * 0x100 + octetC;
    SextetsOfTriple(octetA, octetB, octetC);
    NextGroupIs(octetA, octetB, octetC, taken, i == len, corrected);
    text := [Char(triple / 0x4_0000 % 64), Char(triple / 0x1000 % 64)];
    if (if corrected then taken == 1 else i > len) {
      text := text + ['=', '='];
    } else if (if corrected then taken == 2 else i > len - 1) {
      text := text + [Char(triple / 64 % 64), '='];
    } else {
      text := text + [Char(triple / 64 % 64), Char(triple % 64)];
    }
  }

  function Padded(g: string, taken: nat, atEnd: bool, corrected: bool): string
    requires |g| == 4
  {
    if atEnd && corrected && taken == 1 then [g[0], g[1], '=', '=']
    else if atEnd && !(corrected && taken == 3) then [g[0], g[1], g[2], '=']
    else [g[0], g[1], g[2], g[3]]
  }

  lemma NextGroupIs(a: Byte, b: Byte, c: Byte, taken: nat, atEnd: bool, corrected: bool)
    requires 1 <= taken <= 3 && (taken < 2 ==> b == 0) && (taken < 3 ==> c == 0)
    ensures NextGroup([a, b, c][..taken], atEnd, corrected) == Padded(Group(a, b, c), taken, atEnd, corrected)
  {
  }

  // The shifts and masks of the 24-bit word take the right bits.
  lemma SextetsOfTriple(a: Byte, b: Byte, c: Byte)
    ensures var triple := a * 0x1_0000 + b * 0x100 + c;
            && triple / 0x4_0000 % 64 == a / 4 && triple / 0x1000 % 64 == a % 4 * 16 + b / 16
            && triple / 64 % 64 == b % 16 * 4 + c / 64 && triple % 64 == c % 64
  {
    UpperBits(a, b, c);
  }

  lemma UpperBits(a: Byte, b: Byte, c: Byte)
    ensures var triple := a * 0x1_0000 + b * 0x100 + c;
            triple / 64 == a * 1024 + b * 4 + c / 64 && triple / 0x1000 == a * 16 + b / 16
            && triple / 0x4_0000 == a / 4
  {
    var triple := a * 0x1_0000 + b * 0x100 + c;
    assert triple == 64 * (a * 1024 + b * 4 + c / 64) + c % 64;
    assert triple == 0x1000 * (a * 16 + b / 16) + (b % 16 * 256 + c);
    assert triple == 0x4_0000 * (a / 4) + (a % 4 * 0x1_0000 + b * 256 + c);
  }

  lemma OctetsOfQuad(v1: nat, v2: nat, v3: nat, v4: nat)
    requires v1 < 64 && v2 < 64 && v3 < 64 && v4 < 64
    ensures var quad := v1 * 0x4_0000 + v2 * 0x1000 + v3 * 64 + v4;
            && quad / 0x1_0000 % 256 == v1 * 4 + v2 / 16 && quad / 0x100 % 256 == v2 % 16 * 16 + v3 / 4
            && quad % 256 == v3 % 4 * 64 + v4
  {
    var quad := v1 * 0x4_0000 + v2 * 0x1000 + v3 * 64 + v4;
    assert quad / 0x100 == v1 * 1024 + v2 * 16 + v3 / 4;
    assert quad / 0x1_0000 == v1 * 4 + v2 / 16;
  }

  ghost predicate Decoding(decoded: seq<Byte>, rest: string, input: string) {
    |rest| % 4 == 0 && |input| % 4 == 0 && decoded + DecodedGroups(rest) == DecodedGroups(input)
  }

  lemma GroupRead(decoded: seq<Byte>, input: string, i: nat)
    requires i + 4 <= |input| && Decoding(decoded, input[i..], input)
    ensures Decoding(decoded + DecodedGroup(input[i], input[i + 1], input[i + 2], input[i + 3]), input[i + 4..], input)
  {
    assert input[i..][4..] == input[i + 4..];
  }

  method Decode(input: string) returns (decoded: seq<Byte>)
    ensures decoded == Decoded(input)
  {
    decoded := [];
    var len := |input|;
    if len % 4 != 0 {
      return;
    }
    var i := 0;
    assert input[0..] == input;
    while i < len
      invariant i <= len && i % 4 == 0 && Decoding(decoded, input[i..], input)
    {
      GroupRead(decoded, input, i);
      var octets := ReadGroup(input[i], input[i + 1], input[i + 2], input[i + 3]);
      decoded := decoded + octets;
      i := i + 4;
    }
  }

  method ReadGroup(c1: char, c2: char, c3: char, c4: char) returns (octets: seq<Byte>)
    ensures octets == DecodedGroup(c1, c2, c3, c4)
  {
    var v3, v4 := if c3 != '=' then Value(c3) else 0, if c4 != '=' then Value(c4) else 0;
    var quad := Value(c1) * 0x4_0000 + Value(c2) * 0x1000 + v3 * 64 + v4;
    OctetsOfQuad(Value(c1), Value(c2), v3, v4);
    octets := [quad / 0x1_0000 % 256];
    if c3 != '=' {
      octets := octets + [quad / 0x100 % 256];
    }
    if c4 != '=' {
      octets := octets + [quad % 256];
    }
  }

  // ---------- The law ----------

  lemma GroupDecodes(a: Byte, b: Byte, c: Byte)
    ensures var g := Group(a, b, c);
            && DecodedGroup(g[0], g[1], g[2], g[3]) == [a, b, c]
            && DecodedGroup(g[0], g[1], g[2], '=') == [a, b]
            && DecodedGroup(g[0], g[1], '=', '=') == [a]
  {
    var v2, v3 := a % 4 * 16 + b / 16, b % 16 * 4 + c / 64;
    assert v2 / 16 == a % 4 && v2 % 16 == b / 16;
    assert v3 / 4 == b % 16 && v3 % 4 == c / 64;
  }

  // What comes back of an input, as the encoder is written.
  function ComesBack(input: seq<Byte>): seq<Byte> {
    if input == [] || |input| % 3 == 2 then input
    else if |input| % 3 == 0 then input[..|input| - 1]
    else input + [0]
  }

  lemma LastGroupDecodes(rest: seq<Byte>, corrected: bool)
    requires 1 <= |rest| <= 3
    ensures var g := LastGroup(rest, corrected);
            DecodedGroup(g[0], g[1], g[2], g[3]) == if corrected then rest else ComesBack(rest)
  {
    var b, c := if |rest| > 1 then rest[1] else 0, if |rest| > 2 then rest[2] else 0;
    GroupDecodes(rest[0], b, c);
  }

  lemma FirstGroupDecodes(group: string, more: string, bytes: seq<Byte>)
    requires |group| == 4 && |more| % 4 == 0
    requires DecodedGroup(group[0], group[1], group[2], group[3]) == bytes
    ensures Decoded(group + more) == bytes + Decoded(more)
  {
    assert (group + more)[4..] == more;
  }

  /** The encoding has four characters for every three bytes or part of three. */
  lemma {:induction false} EncodedLength(input: seq<Byte>, corrected: bool) returns (groups: nat)
    ensures |Encoded(input, corrected)| == 4 * groups && 3 * groups - 3 < |input| <= 3 * groups
    decreases |input|
  {
    if input == [] {
      groups := 0;
    } else if |input| <= 3 {
      groups := 1;
    } else {
      groups := EncodedLength(input[3..], corrected);
      groups := groups + 1;
    }
  }

  lemma {:induction false} EncodingDecodes(input: seq<Byte>, corrected: bool)
    ensures Decoded(Encoded(input, corrected)) == if corrected then input else ComesBack(input)
    decreases |input|
  {
    if input == [] {
    } else if |input| <= 3 {
      LastGroupDecodes(input, corrected);
      FirstGroupDecodes(LastGroup(input, corrected), "", if corrected then input else ComesBack(input));
      assert LastGroup(input, corrected) + "" == LastGroup(input, corrected);
    } else {
      EncodingDecodes(input[3..], corrected);
      FirstThreeDecode(input, corrected);
      ComesBackAfterThree(input);
    }
  }

  lemma FirstThreeDecode(input: seq<Byte>, corrected: bool)
    requires |input| > 3
    ensures Decoded(Encoded(input, corrected)) == input[..3] + Decoded(Encoded(input[3..], corrected))
  {
    var groups := EncodedLength(input[3..], corrected);
    ThreeBytesDecode(input[..3]);
    FirstGroupDecodes(Group(input[0], input[1], input[2]), Encoded(input[3..], corrected), input[..3]);
  }

  lemma ThreeBytesDecode(bytes: seq<Byte>)
    requires |bytes| == 3
    ensures var g := Group(bytes[0], bytes[1], bytes[2]);
            DecodedGroup(g[0], g[1], g[2], g[3]) == bytes
  {
    GroupDecodes(bytes[0], bytes[1], bytes[2]);
  }

  lemma ComesBackAfterThree(input: seq<Byte>)
    requires |input| > 3
    ensures input == input[..3] + input[3..]
    ensures ComesBack(input) == input[..3] + ComesBack(input[3..])
  {
    assert |input[3..]| % 3 == |input| % 3;
  }

  /** With the tail tests corrected, decoding undoes encoding for every input. */
  lemma CorrectedRoundTrip(input: seq<Byte>)
    ensures Decoded(Encoded(input, true)) == input
  {
    EncodingDecodes(input, true);
  }

  /** As written, an input comes back exactly if it is empty or its length is 2 modulo 3. Of a
      length that 3 divides the last byte is lost, and with one byte left over a zero byte is
      added. */
  lemma RoundTripExactlyWhen(input: seq<Byte>)
    ensures Decoded(Encoded(input, false)) == ComesBack(input)
    ensures Decoded(Encoded(input, false)) == input <==> input == [] || |input| % 3 == 2
  {
    EncodingDecodes(input, false);
  }

  // ---------- The groups as numbers ----------

  /** The four characters are the digits of the three bytes as one number, the highest first. */
  lemma GroupIsNumber(a: Byte, b: Byte, c: Byte)
    ensures var text := Group(a, b, c);
            0x4_0000 * Value(text[0]) + 0x1000 * Value(text[1]) + 0x40 * Value(text[2]) + Value(text[3])
            == 0x1_0000 * a + 0x100 * b + c
  {
    assert 4 * (a / 4) + a % 4 == a && 16 * (b / 16) + b % 16 == b && 64 * (c / 64) + c % 64 == c;
  }

  /** The padding shows how many bytes the last group stands for; as written, it always shows
      two. */
  lemma PaddingShowsLength(rest: seq<Byte>, corrected: bool)
    requires 1 <= |rest| <= 3
    ensures var text := LastGroup(rest, corrected);
            && text[0] != '=' && text[1] != '='
            && (text[2] == '=' <==> corrected && |rest| == 1)
            && (text[3] == '=' <==> !corrected || |rest| < 3)
  {
  }
}
