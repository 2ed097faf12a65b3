/**
 Parsing a range-scan payload undoes writing it, and what comes of one that is cut off.
 */
module RangeScanPayloadLaws {
  import opened Wrappers
  import opened Sequences
  import opened Leb128
  import opened RangeScanPayload

  // ---------- The wire form ----------

  function FieldBytes(bytes: seq<Byte>): seq<Byte> {
    Encoded(|bytes|) + bytes
  }

  function KeysBytes(keys: seq<seq<Byte>>): seq<Byte> {
    if keys == [] then [] else FieldBytes(keys[0]) + KeysBytes(keys[1..])
  }

  function HeaderBytes(d: Document): (bytes: seq<Byte>)
    ensures |bytes| == HEADER_SIZE
  {
    BigEndian(d.flags, 4) + BigEndian(d.expiry, 4) + BigEndian(d.sequenceNumber, 8) + BigEndian(d.cas, 8)
    + [d.datatypeBits]
  }

  function DocumentBytes(d: Document): seq<Byte> {
    HeaderBytes(d) + FieldBytes(d.key) + FieldBytes(d.value)
  }

  function DocumentsBytes(documents: seq<Document>): seq<Byte> {
    if documents == [] then [] else DocumentBytes(documents[0]) + DocumentsBytes(documents[1..])
  }

  // The fields fit their widths.
  predicate Writable(d: Document) {
    d.flags < Size(4) && d.expiry < Size(4) && d.sequenceNumber < Size(8) && d.cas < Size(8)
    && |d.key| < WORD && |d.value| < WORD
  }

  function AllInflated(documents: seq<Document>, inflate: Inflate): seq<Document> {
    seq(|documents|, i requires 0 <= i < |documents| => Inflated(documents[i], inflate))
  }

  /** What is handed out for a document: with its value decompressed and the mark for that taken
      off its datatype if it has the mark, in the second bit, and can be decompressed; otherwise
      the document itself. Nothing else of it ever changes. */
  ghost predicate HandedOut(d: Document, x: Document, inflate: Inflate) {
    && x.key == d.key && x.flags == d.flags && x.expiry == d.expiry && x.sequenceNumber == d.sequenceNumber
    && x.cas == d.cas
    && if d.datatypeBits % 4 in {2, 3} && inflate(d.value).Some?
       then x.value == inflate(d.value).value && x.datatypeBits == d.datatypeBits - 2
       else x.value == d.value && x.datatypeBits == d.datatypeBits
  }

  lemma InflatedIsHandedOut(d: Document, inflate: Inflate)
    ensures HandedOut(d, Inflated(d, inflate), inflate)
  {
    assert d.datatypeBits / 2 % 2 == 1 <==> d.datatypeBits % 4 in {2, 3};
  }

  // The items are handed out for the documents, one for each, in order.
  ghost predicate AllHandedOut(documents: seq<Document>, items: seq<Document>, inflate: Inflate) {
    |items| == |documents| && forall i :: 0 <= i < |documents| ==> HandedOut(documents[i], items[i], inflate)
  }

  lemma AllInflatedAreHandedOut(documents: seq<Document>, inflate: Inflate)
    ensures AllHandedOut(documents, AllInflated(documents, inflate), inflate)
  {
    forall i | 0 <= i < |documents|
      ensures HandedOut(documents[i], AllInflated(documents, inflate)[i], inflate)
    {
      InflatedIsHandedOut(documents[i], inflate);
    }
  }

  // ---------- Fields ----------

  lemma FieldComesBack(bytes: seq<Byte>, rest: seq<Byte>)
    requires |bytes| < WORD
    ensures ParsedField(FieldBytes(bytes) + rest) == Field(bytes, rest)
    ensures Decoded(FieldBytes(bytes) + rest) == (|bytes|, bytes + rest)
  {
    RoundTrip(|bytes|, bytes + rest);
    assert FieldBytes(bytes) + rest == Encoded(|bytes|) + (bytes + rest);
    assert (bytes + rest)[..|bytes|] == bytes && (bytes + rest)[|bytes|..] == rest;
  }

  // A field that is cut within its length reads as an empty one; cut within its bytes, as one
  // that is too short.
  lemma CutField(bytes: seq<Byte>, c: nat)
    requires |bytes| < WORD && 0 < c < |FieldBytes(bytes)|
    ensures ParsedField(FieldBytes(bytes)[..c])
         == if c < |Encoded(|bytes|)| then Field([], []) else Bad(ProtocolError)
  {
    var length := Encoded(|bytes|);
    if c < |length| {
      assert FieldBytes(bytes)[..c] == length[..c];
      CutReadsAsZero(|bytes|, c);
    } else {
      RoundTrip(|bytes|, bytes[..c - |length|]);
      assert FieldBytes(bytes)[..c] == length + bytes[..c - |length|];
    }
  }

  // ---------- Keys ----------

  /** Parsing written keys gives exactly these keys, and then whatever the bytes behind them
      give. */
  lemma {:induction false} KeysComeFirst(keys: seq<seq<Byte>>, rest: seq<Byte>)
    requires forall i :: 0 <= i < |keys| ==> |keys[i]| < WORD
    ensures ParsedKeys(KeysBytes(keys) + rest, None) == Prepend(keys, ParsedKeys(rest, None))
  {
    if keys == [] {
      assert [] + rest == rest;
      PrependNothing(ParsedKeys(rest, None));
    } else {
      KeysComeFirst(keys[1..], rest);
      OneKey(keys[0], KeysBytes(keys[1..]) + rest, None);
      Associate(FieldBytes(keys[0]), KeysBytes(keys[1..]), rest);
      PrependTwice([keys[0]], keys[1..], ParsedKeys(rest, None));
      SplitFirst(keys);
    }
  }

  lemma OneKey(key: seq<Byte>, rest: seq<Byte>, limit: Option<nat>)
    requires |key| < WORD && limit != Some(0)
    ensures ParsedKeys(FieldBytes(key) + rest, limit) == Prepend([key], ParsedKeys(rest, Next(limit)))
  {
    FieldComesBack(key, rest);
    assert (key + rest)[..|key|] == key && (key + rest)[|key|..] == rest;
  }

  lemma KeysRoundTrip(keys: seq<seq<Byte>>)
    requires forall i :: 0 <= i < |keys| ==> |keys[i]| < WORD
    ensures ParsedKeys(KeysBytes(keys), None) == (keys, Success)
  {
    KeysComeFirst(keys, []);
    assert KeysBytes(keys) + [] == KeysBytes(keys);
    PrependToNothing(keys, Success);
  }

  /** Cutting the last key off within its bytes gives the complete ones and a protocol error;
      cutting it within its length gives an empty key more, and no error. */
  lemma CutKeys(keys: seq<seq<Byte>>, last: seq<Byte>, c: nat)
    requires forall i :: 0 <= i < |keys| ==> |keys[i]| < WORD
    requires |last| < WORD && 0 < c < |FieldBytes(last)|
    ensures ParsedKeys(KeysBytes(keys) + FieldBytes(last)[..c], None)
         == if c < |Encoded(|last|)| then (keys + [[]], Success) else (keys, ProtocolError)
  {
    KeysComeFirst(keys, FieldBytes(last)[..c]);
    CutField(last, c);
    CutFieldIsCutKey(FieldBytes(last)[..c]);
    PrependToNothing(keys, ProtocolError);
  }

  lemma CutFieldIsCutKey(cut: seq<Byte>)
    requires cut != []
    ensures ParsedField(cut) == Bad(ProtocolError) ==> ParsedKeys(cut, None) == ([], ProtocolError)
    ensures ParsedField(cut) == Field([], []) ==> ParsedKeys(cut, None) == ([[]], Success)
  {
    var none: seq<Byte> := [];
    PrependToNothing([none], Success);
    assert ParsedKeys(none, None) == ([], Success);
  }

  // ---------- Documents ----------

  lemma HeaderComesBack(d: Document, rest: seq<Byte>)
    requires Writable(d)
    ensures var data := HeaderBytes(d) + rest;
            && Read(data[0..4]) == d.flags && Read(data[4..8]) == d.expiry && Read(data[8..16]) == d.sequenceNumber
            && Read(data[16..24]) == d.cas && data[24] == d.datatypeBits && data[HEADER_SIZE..] == rest
  {
    ReadBack(d.flags, 4);
    ReadBack(d.expiry, 4);
    ReadBack(d.sequenceNumber, 8);
    ReadBack(d.cas, 8);
    FieldsOfHeader(BigEndian(d.flags, 4), BigEndian(d.expiry, 4), BigEndian(d.sequenceNumber, 8), BigEndian(d.cas, 8),
                   [d.datatypeBits], rest);
  }

  lemma FieldsOfHeader(a: seq<Byte>, b: seq<Byte>, c: seq<Byte>, d: seq<Byte>, e: seq<Byte>, rest: seq<Byte>)
    requires |a| == |b| == 4 && |c| == |d| == 8 && |e| == 1
    ensures var data := a + b + c + d + e + rest;
            && data[0..4] == a && data[4..8] == b && data[8..16] == c && data[16..24] == d && data[24] == e[0]
            && data[25..] == rest
  {
  }

  lemma DocumentComesBack(d: Document, rest: seq<Byte>, inflate: Inflate)
    requires Writable(d)
    ensures ParsedDocument(DocumentBytes(d) + rest, inflate) == (Some(Inflated(d, inflate)), rest, Success)
  {
    var fields := FieldBytes(d.key) + (FieldBytes(d.value) + rest);
    assert DocumentBytes(d) + rest == HeaderBytes(d) + fields;
    HeaderComesBack(d, fields);
    FieldComesBack(d.key, FieldBytes(d.value) + rest);
    FieldComesBack(d.value, rest);
  }

  lemma OneDocument(d: Document, rest: seq<Byte>, limit: Option<nat>, inflate: Inflate)
    requires Writable(d) && limit != Some(0)
    ensures ParsedDocuments(DocumentBytes(d) + rest, limit, inflate)
         == Prepend([Inflated(d, inflate)], ParsedDocuments(rest, Next(limit), inflate))
  {
    DocumentComesBack(d, rest, inflate);
  }

  lemma {:induction false} DocumentsComeFirst(documents: seq<Document>, rest: seq<Byte>, inflate: Inflate)
    requires forall i :: 0 <= i < |documents| ==> Writable(documents[i])
    ensures ParsedDocuments(DocumentsBytes(documents) + rest, None, inflate)
         == Prepend(AllInflated(documents, inflate), ParsedDocuments(rest, None, inflate))
  {
    if documents == [] {
      assert [] + rest == rest && AllInflated(documents, inflate) == [];
      PrependNothing(ParsedDocuments(rest, None, inflate));
    } else {
      DocumentsComeFirst(documents[1..], rest, inflate);
      OneDocument(documents[0], DocumentsBytes(documents[1..]) + rest, None, inflate);
      Associate(DocumentBytes(documents[0]), DocumentsBytes(documents[1..]), rest);
      PrependTwice([Inflated(documents[0], inflate)], AllInflated(documents[1..], inflate),
                   ParsedDocuments(rest, None, inflate));
      FirstInflated(documents, inflate);
    }
  }

  lemma FirstInflated(documents: seq<Document>, inflate: Inflate)
    requires documents != []
    ensures AllInflated(documents, inflate) == [Inflated(documents[0], inflate)] + AllInflated(documents[1..], inflate)
  {
  }

  /** Parsing written documents gives exactly these documents, decompressed where they are
      marked as compressed and can be decompressed. */
  lemma DocumentsRoundTrip(documents: seq<Document>, inflate: Inflate)
    requires forall i :: 0 <= i < |documents| ==> Writable(documents[i])
    ensures var (items, outcome) := ParsedDocuments(DocumentsBytes(documents), None, inflate);
            outcome == Success && AllHandedOut(documents, items, inflate)
  {
    AllInflatedAreHandedOut(documents, inflate);
    DocumentsComeFirst(documents, [], inflate);
    assert DocumentsBytes(documents) + [] == DocumentsBytes(documents);
    PrependToNothing(AllInflated(documents, inflate), Success);
  }

  // What is left of a document that is cut off after c bytes: where its key's and its value's
  // lengths and bytes begin and end decides.
  function CutResult(d: Document, c: nat, inflate: Inflate): (seq<Document>, Outcome) {
    var keyBytes := HEADER_SIZE + |Encoded(|d.key|)|;
    var valueLength := keyBytes + |d.key|;
    var valueBytes := valueLength + |Encoded(|d.value|)|;
    if c < HEADER_SIZE then ([], ProtocolError)
    else if c < keyBytes || c == valueLength then ([], OutOfBounds)
    else if c < valueLength || valueBytes <= c then ([], ProtocolError)
    else ([Inflated(d.(value := []), inflate)], Success)
  }

  // The complete documents, and what is left of the last one.
  ghost predicate CutAs(documents: seq<Document>, last: Document, c: nat, inflate: Inflate,
                        r: (seq<Document>, Outcome)) {
    var (rest, outcome) := CutResult(last, c, inflate);
    && r.1 == outcome && |documents| <= |r.0| && AllHandedOut(documents, r.0[..|documents|], inflate)
    && |r.0| == |documents| + |rest|
    && (rest != [] ==> HandedOut(last.(value := []), r.0[|documents|], inflate))
  }

  /** Cutting the last document off gives the complete ones and then: a protocol error, if the
      cut is in the header or in the bytes of the key or the value; a read beyond the buffer,
      if nothing is left where a length is expected, or the key's length is cut; and a document
      with an empty value and no error, if the value's length is cut. */
  lemma CutDocuments(documents: seq<Document>, last: Document, c: nat, inflate: Inflate)
    requires forall i :: 0 <= i < |documents| ==> Writable(documents[i])
    requires Writable(last) && 0 < c < |DocumentBytes(last)|
    ensures CutAs(documents, last, c, inflate,
                  ParsedDocuments(DocumentsBytes(documents) + DocumentBytes(last)[..c], None, inflate))
  {
    CutDocumentsParse(documents, last, c, inflate);
    var (rest, outcome) := CutResult(last, c, inflate);
    PrependedIsCut(documents, last, c, inflate, rest, outcome);
  }

  lemma PrependedIsCut(documents: seq<Document>, last: Document, c: nat, inflate: Inflate, rest: seq<Document>,
                       outcome: Outcome)
    requires (rest, outcome) == CutResult(last, c, inflate)
    ensures CutAs(documents, last, c, inflate, Prepend(AllInflated(documents, inflate), (rest, outcome)))
  {
    AllInflatedAreHandedOut(documents, inflate);
    InflatedIsHandedOut(last.(value := []), inflate);
    var complete := AllInflated(documents, inflate);
    assert (complete + rest)[..|documents|] == complete;
    assert rest == [] || rest == [Inflated(last.(value := []), inflate)];
  }

  lemma CutDocumentsParse(documents: seq<Document>, last: Document, c: nat, inflate: Inflate)
    requires forall i :: 0 <= i < |documents| ==> Writable(documents[i])
    requires Writable(last) && 0 < c < |DocumentBytes(last)|
    ensures ParsedDocuments(DocumentsBytes(documents) + DocumentBytes(last)[..c], None, inflate)
         == Prepend(AllInflated(documents, inflate), CutResult(last, c, inflate))
  {
    DocumentsComeFirst(documents, DocumentBytes(last)[..c], inflate);
    if c >= HEADER_SIZE {
      CutDocument(last, c, inflate);
    }
  }

  lemma CutDocument(d: Document, c: nat, inflate: Inflate)
    requires Writable(d) && HEADER_SIZE <= c < |DocumentBytes(d)|
    ensures ParsedDocuments(DocumentBytes(d)[..c], None, inflate) == CutResult(d, c, inflate)
  {
    CutBehindHeader(d, c);
    CutDocumentAt(d, c - HEADER_SIZE, DocumentBytes(d)[..c], inflate);
  }

  lemma CutDocumentAt(d: Document, k: nat, data: seq<Byte>, inflate: Inflate)
    requires Writable(d) && k < |FieldBytes(d.key)| + |FieldBytes(d.value)|
    requires data == HeaderBytes(d) + (FieldBytes(d.key) + FieldBytes(d.value))[..k]
    ensures ParsedDocuments(data, None, inflate) == CutResult(d, HEADER_SIZE + k, inflate)
  {
    CutFieldsParse(d, k, data, inflate);
    FieldsMakeCutResult(d, k, inflate);
    OnlyDocument(data, DocumentOfFields(d, KeyOfCut(d, k), ValueBehindCut(d, k), inflate),
                 CutResult(d, HEADER_SIZE + k, inflate), inflate);
  }

  lemma CutBehindHeader(d: Document, c: nat)
    requires HEADER_SIZE <= c < |DocumentBytes(d)|
    ensures c - HEADER_SIZE < |FieldBytes(d.key)| + |FieldBytes(d.value)|
    ensures DocumentBytes(d)[..c] == HeaderBytes(d) + (FieldBytes(d.key) + FieldBytes(d.value))[..c - HEADER_SIZE]
  {
  }

  lemma CutFieldsParse(d: Document, k: nat, data: seq<Byte>, inflate: Inflate)
    requires Writable(d) && k < |FieldBytes(d.key)| + |FieldBytes(d.value)|
    requires data == HeaderBytes(d) + (FieldBytes(d.key) + FieldBytes(d.value))[..k]
    ensures ParsedDocument(data, inflate) == DocumentOfFields(d, KeyOfCut(d, k), ValueBehindCut(d, k), inflate)
  {
    CutFields(d, k);
    ValueIsBehindCut(d, k);
    ParsedByFields(d, (FieldBytes(d.key) + FieldBytes(d.value))[..k], KeyOfCut(d, k), ValueBehindCut(d, k), inflate);
  }

  function ValueBehindCut(d: Document, k: nat): Field {
    if k >= |FieldBytes(d.key)| then ValueOfCut(d, k - |FieldBytes(d.key)|) else Bad(OutOfBounds)
  }

  lemma ValueIsBehindCut(d: Document, k: nat)
    requires Writable(d) && k < |FieldBytes(d.key)| + |FieldBytes(d.value)|
    ensures KeyOfCut(d, k).Field? ==> ParsedField(KeyOfCut(d, k).rest) == ValueBehindCut(d, k)
  {
    if k >= |FieldBytes(d.key)| {
      CutValue(d, k - |FieldBytes(d.key)|);
    }
  }

  lemma FieldsMakeCutResult(d: Document, k: nat, inflate: Inflate)
    requires k < |FieldBytes(d.key)| + |FieldBytes(d.value)|
    ensures var (document, rest, outcome) := DocumentOfFields(d, KeyOfCut(d, k), ValueBehindCut(d, k), inflate);
            && (document.None? ==> CutResult(d, HEADER_SIZE + k, inflate) == ([], outcome))
            && (document.Some? ==> rest == [] && CutResult(d, HEADER_SIZE + k, inflate) == ([document.value], Success))
  {
  }

  // What is read as the key, k bytes behind the header.
  function KeyOfCut(d: Document, k: nat): Field
    requires k < |FieldBytes(d.key)| + |FieldBytes(d.value)|
  {
    if k == 0 then Bad(OutOfBounds)
    else if k >= |FieldBytes(d.key)| then Field(d.key, FieldBytes(d.value)[..k - |FieldBytes(d.key)|])
    else if k < |Encoded(|d.key|)| then Field([], [])
    else Bad(ProtocolError)
  }

  // What is read as the value, v bytes behind the key.
  function ValueOfCut(d: Document, v: nat): Field {
    if v == 0 then Bad(OutOfBounds) else if v < |Encoded(|d.value|)| then Field([], []) else Bad(ProtocolError)
  }

  lemma CutFields(d: Document, k: nat)
    requires Writable(d) && k < |FieldBytes(d.key)| + |FieldBytes(d.value)|
    ensures ParsedField((FieldBytes(d.key) + FieldBytes(d.value))[..k]) == KeyOfCut(d, k)
  {
    var key, value := FieldBytes(d.key), FieldBytes(d.value);
    if k < |key| {
      assert (key + value)[..k] == key[..k];
      if k > 0 { CutField(d.key, k); }
    } else {
      assert (key + value)[..k] == key + value[..k - |key|];
      FieldComesBack(d.key, value[..k - |key|]);
    }
  }

  lemma CutValue(d: Document, v: nat)
    requires Writable(d) && v < |FieldBytes(d.value)|
    ensures ParsedField(FieldBytes(d.value)[..v]) == ValueOfCut(d, v)
  {
    if v > 0 { CutField(d.value, v); }
  }

  // A document is what its header and its two fields are.
  function DocumentOfFields(d: Document, key: Field, value: Field, inflate: Inflate)
    : (Option<Document>, seq<Byte>, Outcome)
  {
    if key.Bad? then (None, [], key.outcome)
    else if value.Bad? then (None, [], value.outcome)
    else (Some(Inflated(d.(key := key.bytes, value := value.bytes), inflate)), value.rest, Success)
  }

  lemma ParsedByFields(d: Document, fields: seq<Byte>, key: Field, value: Field, inflate: Inflate)
    requires Writable(d) && key == ParsedField(fields) && (key.Field? ==> value == ParsedField(key.rest))
    ensures ParsedDocument(HeaderBytes(d) + fields, inflate) == DocumentOfFields(d, key, value, inflate)
  {
    HeaderComesBack(d, fields);
  }

  lemma OnlyDocument(data: seq<Byte>, r: (Option<Document>, seq<Byte>, Outcome), result: (seq<Document>, Outcome),
                     inflate: Inflate)
    requires data != [] && ParsedDocument(data, inflate) == r
    requires r.0.None? ==> result == ([], r.2)
    requires r.0.Some? ==> r.1 == [] && result == ([r.0.value], Success)
    ensures ParsedDocuments(data, None, inflate) == result
  {
    if r.0.Some? {
      PrependToNothing([r.0.value], Success);
    }
  }

  // ---------- A consumer that has enough ----------

  /** If the handler cancels the request with its n-th item, the items are the first n and no
      error is reported, whatever follows. */
  lemma {:induction false} CancelledKeysAreFirstKeys(keys: seq<seq<Byte>>, rest: seq<Byte>, n: nat)
    requires forall i :: 0 <= i < |keys| ==> |keys[i]| < WORD
    requires n <= |keys|
    ensures ParsedKeys(KeysBytes(keys) + rest, Some(n)) == (keys[..n], Success)
    decreases n
  {
    if n > 0 {
      CancelledKeysAreFirstKeys(keys[1..], rest, n - 1);
      OneKey(keys[0], KeysBytes(keys[1..]) + rest, Some(n));
      Associate(FieldBytes(keys[0]), KeysBytes(keys[1..]), rest);
      FirstOfPrefix(keys, n);
    }
  }

  lemma CancelledDocumentsAreFirstDocuments(documents: seq<Document>, rest: seq<Byte>, n: nat, inflate: Inflate)
    requires forall i :: 0 <= i < |documents| ==> Writable(documents[i])
    requires n <= |documents|
    ensures var (items, outcome) := ParsedDocuments(DocumentsBytes(documents) + rest, Some(n), inflate);
            outcome == Success && AllHandedOut(documents[..n], items, inflate)
  {
    FirstDocumentsAreInflated(documents, rest, n, inflate);
    AllInflatedAreHandedOut(documents[..n], inflate);
  }

  lemma {:induction false} FirstDocumentsAreInflated(documents: seq<Document>, rest: seq<Byte>, n: nat,
                                                     inflate: Inflate)
    requires forall i :: 0 <= i < |documents| ==> Writable(documents[i])
    requires n <= |documents|
    ensures ParsedDocuments(DocumentsBytes(documents) + rest, Some(n), inflate)
         == (AllInflated(documents[..n], inflate), Success)
    decreases n
  {
    if n > 0 {
      FirstDocumentsAreInflated(documents[1..], rest, n - 1, inflate);
      OneDocument(documents[0], DocumentsBytes(documents[1..]) + rest, Some(n), inflate);
      Associate(DocumentBytes(documents[0]), DocumentsBytes(documents[1..]), rest);
      FirstInflatedOfPrefix(documents, n, inflate);
    } else {
      assert AllInflated(documents[..n], inflate) == [];
    }
  }

  lemma FirstInflatedOfPrefix(documents: seq<Document>, n: nat, inflate: Inflate)
    requires 0 < n <= |documents|
    ensures AllInflated(documents[..n], inflate)
         == [Inflated(documents[0], inflate)] + AllInflated(documents[1..][..n - 1], inflate)
  {
    FirstInflated(documents[..n], inflate);
    assert documents[..n][1..] == documents[1..][..n - 1];
  }

  lemma FirstOfPrefix<T>(s: seq<T>, n: nat)
    requires 0 < n <= |s|
    ensures s[..n] == [s[0]] + s[1..][..n - 1]
  {
  }

  // ---------- The wire form, byte by byte ----------

  /** Two keys as they are on the wire. */
  lemma KnownKeys()
    ensures ParsedKeys([2, 97, 98, 1, 99], None) == ([[97, 98], [99]], Success)
  {
    var keys, last: seq<seq<Byte>> := [[97, 98], [99]], [[99]];
    assert FieldBytes([97, 98]) == [2, 97, 98] && FieldBytes([99]) == [1, 99];
    assert last[1..] == [] && keys[1..] == last;
    assert KeysBytes(last) == FieldBytes(last[0]) + KeysBytes([]);
    assert KeysBytes(keys) == FieldBytes(keys[0]) + KeysBytes(last);
    assert [2, 97, 98] + ([1, 99] + []) == [2, 97, 98, 1, 99];
    KeysRoundTrip(keys);
  }

  /** A document as it is on the wire: numbers begin with their highest byte, and the fields of
      the header come in this order. */
  lemma KnownDocument(inflate: Inflate)
    ensures var header := [0, 0, 1, 2] + [0, 0, 0, 3] + [0, 0, 0, 0, 0, 0, 0, 4] + [0, 0, 0, 0, 0, 0, 0, 5] + [1];
            ParsedDocuments(header + [1, 107] + [2, 118, 119], None, inflate)
            == ([Document(258, 3, 4, 5, 1, [107], [118, 119])], Success)
  {
    var d := Document(258, 3, 4, 5, 1, [107], [118, 119]);
    KnownHeader(d);
    assert FieldBytes(d.key) == [1, 107] && FieldBytes(d.value) == [2, 118, 119];
    PlainDocument(d, inflate);
  }

  lemma PlainDocument(d: Document, inflate: Inflate)
    requires Writable(d) && d.datatypeBits == 1
    ensures ParsedDocuments(DocumentBytes(d), None, inflate) == ([d], Success)
  {
    OneDocument(d, [], None, inflate);
    InflatedIsHandedOut(d, inflate);
    assert DocumentBytes(d) + [] == DocumentBytes(d);
    PrependToNothing([d], Success);
  }

  lemma KnownHeader(d: Document)
    requires d.flags == 258 && d.expiry == 3 && d.sequenceNumber == 4 && d.cas == 5 && d.datatypeBits == 1
    ensures HeaderBytes(d)
         == [0, 0, 1, 2] + [0, 0, 0, 3] + [0, 0, 0, 0, 0, 0, 0, 4] + [0, 0, 0, 0, 0, 0, 0, 5] + [1]
  {
    assert BigEndian(258, 4) == [0, 0, 1, 2] && BigEndian(3, 4) == [0, 0, 0, 3];
    assert BigEndian(4, 8) == [0, 0, 0, 0, 0, 0, 0, 4] && BigEndian(5, 8) == [0, 0, 0, 0, 0, 0, 0, 5];
  }
}
