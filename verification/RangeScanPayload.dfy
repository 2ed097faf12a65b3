/**
 The payload of a range scan: keys, or documents with a header, each length-prefixed, one
 after the other until the payload ends.
 */
module RangeScanPayload {
  import opened Wrappers
  import opened Sequences
  import opened Leb128

  const HEADER_SIZE := 25
  const SNAPPY := 2

  // OutOfBounds: the first byte of a number is read where the buffer is empty.
  datatype Outcome = Success | ProtocolError | OutOfBounds

  datatype Document = Document(
    flags: nat, expiry: nat, sequenceNumber: nat, cas: nat, datatypeBits: Byte, key: seq<Byte>, value: seq<Byte>
  )

  // snappy::Uncompress
  type Inflate = seq<Byte> -> Option<seq<Byte>>

  // ---------- Big-endian fields ----------

  function BigEndian(n: nat, k: nat): (bytes: seq<Byte>)
    ensures |bytes| == k
  {
    if k == 0 then [] else BigEndian(n / 256, k - 1) + [n % 256]
  }

  function Read(bytes: seq<Byte>): nat {
    if bytes == [] then 0 else Read(bytes[..|bytes| - 1]) * 256 + bytes[|bytes| - 1]
  }

  function Size(k: nat): (size: nat)
    ensures size > 0
  {
    if k == 0 then 1 else 256 * Size(k - 1)
  }

  lemma {:induction false} ReadBack(n: nat, k: nat)
    requires n < Size(k)
    ensures Read(BigEndian(n, k)) == n
  {
    if k > 0 {
      ReadBack(n / 256, k - 1);
      assert BigEndian(n, k)[..k - 1] == BigEndian(n / 256, k - 1);
    }
  }

  // ---------- What the parsers compute ----------

  // The items that were handed out before the others.
  function Prepend<T>(items: seq<T>, r: (seq<T>, Outcome)): (seq<T>, Outcome) {
    (items + r.0, r.1)
  }

  lemma PrependTwice<T>(a: seq<T>, b: seq<T>, r: (seq<T>, Outcome))
    ensures Prepend(a, Prepend(b, r)) == Prepend(a + b, r)
  {
    assert a + (b + r.0) == (a + b) + r.0;
  }

  lemma PrependNothing<T>(r: (seq<T>, Outcome))
    ensures Prepend([], r) == r
  {
    assert [] + r.0 == r.0;
  }

  lemma PrependToNothing<T>(items: seq<T>, outcome: Outcome)
    ensures Prepend(items, ([], outcome)) == (items, outcome)
  {
    assert items + [] == items;
  }

  // The handler of the items may cancel the request: it does so with item number `limit`.
  function Next(limit: Option<nat>): Option<nat> {
    if limit.Some? && limit.value > 0 then Some(limit.value - 1) else limit
  }

  function ParsedKeys(data: seq<Byte>, limit: Option<nat>): (seq<seq<Byte>>, Outcome)
    decreases |data|
  {
    if data == [] || limit == Some(0) then ([], Success)
    else
      var (length, rest) := Decoded(data);
      if |rest| < length then ([], ProtocolError)
      else Prepend([rest[..length]], ParsedKeys(rest[length..], Next(limit)))
  }

  // A length and that many bytes, and what follows.
  datatype Field = Field(bytes: seq<Byte>, rest: seq<Byte>) | Bad(outcome: Outcome)

  function ParsedField(data: seq<Byte>): (field: Field)
    ensures field.Field? ==> |field.rest| < |data|
  {
    if data == [] then Bad(OutOfBounds)
    else
      var (length, rest) := Decoded(data);
      if |rest| < length then Bad(ProtocolError) else Field(rest[..length], rest[length..])
  }

  function Inflated(d: Document, inflate: Inflate): Document {
    if d.datatypeBits / SNAPPY % 2 == 1 && inflate(d.value).Some?
    then d.(value := inflate(d.value).value, datatypeBits := d.datatypeBits - SNAPPY)
    else d
  }

  function ParsedDocument(data: seq<Byte>, inflate: Inflate): (r: (Option<Document>, seq<Byte>, Outcome))
    ensures r.0.Some? ==> |r.1| < |data|
  {
    if |data| < HEADER_SIZE then (None, [], ProtocolError)
    else
      var key := ParsedField(data[HEADER_SIZE..]);
      if key.Bad? then (None, [], key.outcome)
      else
        var value := ParsedField(key.rest);
        if value.Bad? then (None, [], value.outcome)
        else
          var d := Document(Read(data[0..4]), Read(data[4..8]), Read(data[8..16]), Read(data[16..24]), data[24],
                            key.bytes, value.bytes);
          (Some(Inflated(d, inflate)), value.rest, Success)
  }

  function ParsedDocuments(data: seq<Byte>, limit: Option<nat>, inflate: Inflate): (seq<Document>, Outcome)
    decreases |data|
  {
    if data == [] || limit == Some(0) then ([], Success)
    else
      var (document, rest, outcome) := ParsedDocument(data, inflate);
      if document.None? then ([], outcome)
      else Prepend([document.value], ParsedDocuments(rest, Next(limit), inflate))
  }

  // ---------- The loops ----------

  method ParseRangeScanKeys(payload: seq<Byte>, limit: Option<nat>)
    returns (items: seq<seq<Byte>>, outcome: Outcome)
    ensures (items, outcome) == ParsedKeys(payload, limit)
  {
    items := [];
    var data, left := payload, limit;
    PrependNothing(ParsedKeys(payload, limit));
    while true
      invariant ParsedKeys(payload, limit) == Prepend(items, ParsedKeys(data, left))
      decreases |data|
    {
      PrependToNothing(items, Success);
      if data == [] || left == Some(0) {
        return items, Success;
      }
      var keyLength, remaining := Decode(data);
      PrependToNothing(items, ProtocolError);
      if |remaining| < keyLength {
        return items, ProtocolError;
      }
      PrependTwice(items, [remaining[..keyLength]], ParsedKeys(remaining[keyLength..], Next(left)));
      items, left := items + [remaining[..keyLength]], Next(left);
      PrependToNothing(items, Success);
      if |remaining| == keyLength {
        return items, Success;
      }
      data := remaining[keyLength..];
    }
  }

  method ParseRangeScanDocuments(payload: seq<Byte>, limit: Option<nat>, inflate: Inflate)
    returns (items: seq<Document>, outcome: Outcome)
    ensures (items, outcome) == ParsedDocuments(payload, limit, inflate)
  {
    items := [];
    var data, left := payload, limit;
    PrependNothing(ParsedDocuments(payload, limit, inflate));
    while true
      invariant ParsedDocuments(payload, limit, inflate) == Prepend(items, ParsedDocuments(data, left, inflate))
      decreases |data|
    {
      PrependToNothing(items, Success);
      if data == [] || left == Some(0) {
        return items, Success;
      }
      var document, rest, result := ParseDocument(data, inflate);
      PrependToNothing(items, result);
      if document.None? {
        return items, result;
      }
      PrependTwice(items, [document.value], ParsedDocuments(rest, Next(left), inflate));
      items, left := items + [document.value], Next(left);
      data := rest;
    }
  }

  method ParseDocument(payload: seq<Byte>, inflate: Inflate)
    returns (document: Option<Document>, rest: seq<Byte>, outcome: Outcome)
    ensures (document, rest, outcome) == ParsedDocument(payload, inflate)
    ensures document.Some? ==> |rest| < |payload|
  {
    if |payload| < HEADER_SIZE {
      return None, [], ProtocolError;
    }
    var flags, expiry := Read(payload[0..4]), Read(payload[4..8]);
    var sequenceNumber, cas := Read(payload[8..16]), Read(payload[16..24]);
    var datatypeBits := payload[24];
    var data := payload[HEADER_SIZE..];
    if data == [] {
      return None, [], OutOfBounds;
    }
    var keyLength, remaining := Decode(data);
    if |remaining| < keyLength {
      return None, [], ProtocolError;
    }
    var key := remaining[..keyLength];
    data := remaining[keyLength..];
    if data == [] {
      return None, [], OutOfBounds;
    }
    var valueLength;
    valueLength, remaining := Decode(data);
    if |remaining| < valueLength {
      return None, [], ProtocolError;
    }
    var value := remaining[..valueLength];
    if datatypeBits / SNAPPY % 2 == 1 {
      var uncompressed := inflate(value);
      if uncompressed.Some? {
        value := uncompressed.value;
        datatypeBits := datatypeBits - SNAPPY;
      }
    }
    return Some(Document(flags, expiry, sequenceNumber, cas, datatypeBits, key, value)), remaining[valueLength..],
           Success;
  }
}
