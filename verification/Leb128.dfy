/**
 Unsigned LEB128, section 7.6 of DWARF Version 5: seven bits to a byte, the lowest first, and
 the eighth bit set in all bytes but the last.
 */
module Leb128 {
  import opened Wrappers
  import opened Sequences

  // std::size_t
  const WORD := 0x1_0000_0000_0000_0000

  function Encoded(n: nat): (bytes: seq<Byte>)
    ensures bytes != []
  {
    if n < 128 then [n] else [n % 128 + 128] + Encoded(n / 128)
  }

  // The number at the head of the buffer and how many bytes it takes, if it has a last byte.
  function Head(buffer: seq<Byte>): (head: Option<(nat, nat)>)
    ensures head.Some? ==> 0 < head.value.1 <= |buffer|
  {
    if buffer == [] then None
    else if buffer[0] < 128 then Some((buffer[0], 1))
    else
      var higher := Head(buffer[1..]);
      if higher.None? then None else Some((buffer[0] - 128 + 128 * higher.value.0, 1 + higher.value.1))
  }

  // The form of the decoder that does not throw: without a last byte it returns 0 and an empty
  // buffer.
  function Decoded(buffer: seq<Byte>): (r: (nat, seq<Byte>))
    requires buffer != []
    ensures |r.1| < |buffer|
  {
    var head := Head(buffer);
    if head.None? then (0, []) else (head.value.0 % WORD, buffer[head.value.1..])
  }

  // ---------- The loop ----------

  // The bytes before `end` hold the low part of the number, and `scale` is what the next seven
  // bits are worth.
  ghost predicate Reading(buffer: seq<Byte>, end: nat, low: nat, scale: nat) {
    && end <= |buffer|
    && var rest, all := Head(buffer[end..]), Head(buffer);
    && rest.None? == all.None?
    && (rest.Some? ==> all.value == (low + scale * rest.value.0, end + rest.value.1))
  }

  lemma ReadingGoesOn(buffer: seq<Byte>, end: nat, low: nat, scale: nat, bits: nat)
    requires end < |buffer| && buffer[end] == 128 + bits && Reading(buffer, end, low, scale)
    ensures Reading(buffer, end + 1, low + scale * bits, scale * 128)
  {
    assert buffer[end..][1..] == buffer[end + 1..];
    var higher := Head(buffer[end + 1..]);
    if higher.Some? {
      Scaled(scale, bits, higher.value.0);
    }
  }

  lemma Scaled(scale: nat, d: nat, v: nat)
    ensures scale * (d + 128 * v) == scale * d + scale * 128 * v
  {
  }

  lemma WrappedSum(a: nat, b: nat)
    ensures (a % WORD + b) % WORD == (a + b) % WORD
  {
  }

  method Decode(buffer: seq<Byte>) returns (value: nat, rest: seq<Byte>)
    requires buffer != []
    ensures (value, rest) == Decoded(buffer)
  {
    value := buffer[0] % 128;
    var end: nat := 0;
    if buffer[0] >= 128 {
      var scale: nat := 128;
      ghost var low: nat := buffer[0] % 128;
      end := 1;
      ReadingStarts(buffer);
      while end < |buffer| && buffer[end] >= 128
        invariant 1 <= end <= |buffer| && value == low % WORD
        invariant Reading(buffer, end, low, scale)
      {
        var bits: nat := buffer[end] % 128;
        ReadingGoesOn(buffer, end, low, scale, bits);
        WrappedSum(low, scale * bits);
        value := (value + scale * bits) % WORD;
        low := low + scale * bits;
        scale := scale * 128;
        end := end + 1;
      }
      ReadingEnds(buffer, end, low, scale);
      if end == |buffer| {
        return 0, [];
      }
      value := (value + scale * buffer[end]) % WORD;
    }
    rest := buffer[end + 1..];
  }

  lemma ReadingEnds(buffer: seq<Byte>, end: nat, low: nat, scale: nat)
    requires Reading(buffer, end, low, scale) && (end < |buffer| ==> buffer[end] < 128) && buffer != []
    ensures end == |buffer| ==> Decoded(buffer) == (0, [])
    ensures end < |buffer| ==>
              Decoded(buffer) == ((low % WORD + scale * buffer[end]) % WORD, buffer[end + 1..])
  {
    if end < |buffer| {
      WrappedSum(low, scale * buffer[end]);
    }
  }

  lemma ReadingStarts(buffer: seq<Byte>)
    requires buffer != [] && buffer[0] >= 128
    ensures Reading(buffer, 1, buffer[0] % 128, 128)
  {
  }

  // ---------- Round trip and truncation ----------

  lemma {:induction false} HeadOfEncoded(n: nat, rest: seq<Byte>)
    ensures Head(Encoded(n) + rest) == Some((n, |Encoded(n)|))
  {
    if n >= 128 {
      HeadOfEncoded(n / 128, rest);
      assert (Encoded(n) + rest)[1..] == Encoded(n / 128) + rest;
    }
  }

  /** The examples of section 7.6 of the standard. */
  lemma StandardExamples()
    ensures Encoded(2) == [2] && Encoded(127) == [127] && Encoded(128) == [0x80, 1] && Encoded(129) == [0x81, 1]
    ensures Encoded(12857) == [57 + 0x80, 100]
  {
  }

  /** What is encoded is decoded, and what follows is left. */
  lemma RoundTrip(n: nat, rest: seq<Byte>)
    requires n < 0x1_0000_0000_0000_0000
    ensures Decoded(Encoded(n) + rest) == (n, rest)
  {
    HeadOfEncoded(n, rest);
    assert (Encoded(n) + rest)[|Encoded(n)|..] == rest;
  }

  /** A number that is cut off has no last byte, wherever it is cut. */
  lemma {:induction false} CutEncodingHasNoHead(n: nat, c: nat)
    requires c < |Encoded(n)|
    ensures Head(Encoded(n)[..c]).None?
  {
    if c > 0 {
      CutEncodingHasNoHead(n / 128, c - 1);
      assert Encoded(n)[..c][1..] == Encoded(n / 128)[..c - 1];
    }
  }

  /** So its decoding cannot be told from that of a zero with nothing behind it. */
  lemma CutReadsAsZero(n: nat, c: nat)
    requires 0 < c < |Encoded(n)|
    ensures Decoded(Encoded(n)[..c]) == Decoded(Encoded(0)) == (0, [])
  {
    CutEncodingHasNoHead(n, c);
  }
}
