// What the bounded decoder never lets through: whatever it accepts keeps within its
// limits, names no key twice, and is all there was.
module BencodeLimits {
  import opened Bencode
  import opened BencodeLaws
  import opened PythonInt
  import opened Text

  // --- Numbers ---

  lemma {:induction false} ValueBelowPower(s: string)
    requires AllDigits(s)
    ensures DigitsValue(s) < PowTen(|s|)
  {
    if s == [] {
    } else {
      ValueBelowPower(s[..|s| - 1]);
    }
  }

  lemma {:induction false} WithoutIsShorter(s: string)
    ensures |WithoutUnderscores(s)| <= |s|
  {
    if s == [] {
    } else {
      WithoutIsShorter(s[1..]);
    }
  }

  lemma DigitsStay(s: string)
    requires s != [] && IsDigit(s[0])
    ensures |WithoutUnderscores(s)| >= 1
  {
  }

  // A number that is read has at most as many digits as Python takes.
  lemma ReadNumberIsShort(text: string)
    requires PyInt(text).Some?
    ensures var i := PyInt(text).value;
      |Dec(if i < 0 then -i else i)| <= MAX_DIGITS
  {
    var s := Trim(text);
    var signed := s != [] && (s[0] == '-' || s[0] == '+');
    var group := if signed then s[1..] else s;
    MagnitudeIsShort(group);
    hide Magnitude, Trim, Dec;
  }

  lemma MagnitudeIsShort(s: string)
    requires Magnitude(s).Some?
    ensures |Dec(Magnitude(s).value)| <= MAX_DIGITS
  {
    var digits := WithoutUnderscores(s);
    UnderscoresGone(s);
    DigitsStay(s);
    ValueBelowPower(digits);
    hide Dec, WithoutUnderscores;
    DecLength(DigitsValue(digits), |digits|);
  }

  // --- Values ---

  lemma IntWithin(data: bytes, offset: nat, depth: nat)
    requires offset < |data| && depth <= MAX_DEPTH && DecodeInt(data, offset).Ok?
    ensures Within(DecodeInt(data, offset).value.0, depth)
  {
    var end := FindByte(data, 101, offset + 1);
    ReadNumberIsShort(Latin(data[offset + 1..end]));
    hide PyInt, Dec, FindByte, Latin;
  }

  lemma StringWithin(data: bytes, offset: nat, depth: nat)
    requires offset < |data| && depth <= MAX_DEPTH && DecodeString(data, offset).Ok?
    ensures Within(DecodeString(data, offset).value.0, depth)
  {
    hide PyInt, FindByte, Latin;
  }

  // Whatever is accepted keeps within every limit at its depth.
  lemma {:induction false} AcceptedWithin(data: bytes, offset: nat, depth: nat)
    requires Decode(data, offset, depth).Ok?
    ensures Within(Decode(data, offset, depth).value.0, depth)
    decreases |data| - offset, 0
  {
    hide DecodeInt, DecodeString, DecodeList, DecodeDict;
    if data[offset] == 105 {
      IntWithin(data, offset, depth);
    } else if data[offset] == 108 {
      ListWithin(data, offset + 1, depth, []);
    } else if data[offset] == 100 {
      DictWithin(data, offset + 1, depth, []);
    } else {
      StringWithin(data, offset, depth);
    }
  }

  lemma {:induction false} ListWithin(data: bytes, cursor: nat, depth: nat, done: seq<Value>)
    requires depth <= MAX_DEPTH && |done| <= MAX_LIST && forall i :: 0 <= i < |done| ==> Within(done[i], depth + 1)
    requires DecodeList(data, cursor, depth, done).Ok?
    ensures Within(DecodeList(data, cursor, depth, done).value.0, depth)
    decreases |data| - cursor, 1
  {
    hide Decode;
    if data[cursor] == 101 {
    } else {
      var element := Decode(data, cursor, depth + 1);
      AcceptedWithin(data, cursor, depth + 1);
      ListWithin(data, element.value.1, depth, done + [element.value.0]);
    }
  }

  ghost predicate EntriesWithin(items: seq<Entry<Value>>, depth: nat) {
    && |items| <= MAX_DICT && DistinctKeys(items)
    && forall i :: 0 <= i < |items| ==> |items[i].key| <= MAX_CONTROL_PACKET && Within(items[i].value, depth)
  }

  lemma {:induction false} DictWithin(data: bytes, cursor: nat, depth: nat, done: seq<Entry<Value>>)
    requires depth <= MAX_DEPTH && EntriesWithin(done, depth + 1)
    requires DecodeDict(data, cursor, depth, done).Ok?
    ensures Within(DecodeDict(data, cursor, depth, done).value.0, depth)
    decreases |data| - cursor, 1
  {
    hide Decode, Within;
    if data[cursor] == 101 {
      EntriesMakeDict(done, depth);
    } else {
      var key := Decode(data, cursor, depth + 1);
      AcceptedWithin(data, cursor, depth + 1);
      var item := Decode(data, key.value.1, depth + 1);
      AcceptedWithin(data, key.value.1, depth + 1);
      KeyIsShort(key.value.0, depth + 1);
      OneMoreEntry(done, Entry(key.value.0.b, item.value.0), depth + 1);
      DictWithin(data, item.value.1, depth, done + [Entry(key.value.0.b, item.value.0)]);
    }
  }

  lemma KeyIsShort(key: Value, depth: nat)
    requires key.Bytes? && Within(key, depth)
    ensures |key.b| <= MAX_CONTROL_PACKET
  {
  }

  lemma EntriesMakeDict(items: seq<Entry<Value>>, depth: nat)
    requires depth <= MAX_DEPTH && EntriesWithin(items, depth + 1)
    ensures Within(Dict(items), depth)
  {
  }

  lemma OneMoreEntry(done: seq<Entry<Value>>, e: Entry<Value>, depth: nat)
    requires EntriesWithin(done, depth) && !HasKey(done, e.key) && |done| < MAX_DICT
    requires |e.key| <= MAX_CONTROL_PACKET && Within(e.value, depth)
    ensures EntriesWithin(done + [e], depth)
  {
    hide Within;
    forall i | 0 <= i < |done| ensures done[i].key != e.key {
    }
  }

  // A control message is accepted as a dictionary of at most 64 entries, none of them
  // under the key of another, lists of at most 32, and 32 levels at most.
  lemma AcceptedMessageWithin(data: bytes)
    requires BdecodeDict(data).Ok?
    ensures 1 <= |data| <= 65535 && BdecodeDict(data).value.Dict? && Within(BdecodeDict(data).value, 0)
    ensures DistinctKeys(BdecodeDict(data).value.items) && |BdecodeDict(data).value.items| <= 64
  {
    AcceptedWithin(data, 0, 0);
    hide Decode;
  }

  // Octets after the dictionary make it refused.
  lemma TrailingRefused(v: Value, rest: bytes)
    requires v.Dict? && Within(v, 0) && rest != []
    ensures BdecodeDict(Encode(v) + rest).Err?
  {
    DecodeOfEncode(v, rest);
    hide Encode, Decode, Within, Canon;
  }

  // So does the lack of an end: no message can be cut short anywhere.
  lemma CutShortRefused(data: bytes, cut: nat)
    requires BdecodeDict(data).Ok? && cut < |data|
    ensures BdecodeDict(data[..cut]).Err?
  {
    hide Decode, DecodeDict, DecodeList, DecodeInt, DecodeString;
    if BdecodeDict(data[..cut]).Ok? {
      SameFront(data[..cut], data, 0, 0);
    }
  }

  // What is read depends on the octets read alone.
  lemma {:induction false} SameFront(short: bytes, data: bytes, offset: nat, depth: nat)
    requires short <= data && Decode(short, offset, depth).Ok?
    ensures Decode(data, offset, depth) == Decode(short, offset, depth)
    decreases |short| - offset, 0
  {
    hide DecodeInt, DecodeString, DecodeList, DecodeDict;
    assert data[offset] == short[offset];
    if short[offset] == 105 {
      SameInt(short, data, offset);
    } else if short[offset] == 108 {
      SameList(short, data, offset + 1, depth, []);
    } else if short[offset] == 100 {
      SameDict(short, data, offset + 1, depth, []);
    } else {
      SameString(short, data, offset);
    }
  }

  lemma SameFind(short: bytes, data: bytes, b: byte, from: nat)
    requires short <= data && from <= |short| && FindByte(short, b, from) < |short|
    ensures FindByte(data, b, from) == FindByte(short, b, from)
  {
    FindByteIs(data, b, from, FindByte(short, b, from));
  }

  lemma SameInt(short: bytes, data: bytes, offset: nat)
    requires short <= data && offset < |short| && DecodeInt(short, offset).Ok?
    ensures DecodeInt(data, offset) == DecodeInt(short, offset)
  {
    hide PyInt, FindByte, Latin;
    var end := FindByte(short, 101, offset + 1);
    assert end < |short|;
    SameFind(short, data, 101, offset + 1);
    SameSlice(short, data, offset + 1, end);
  }

  lemma SameSlice(short: bytes, data: bytes, i: nat, j: nat)
    requires short <= data && i <= j <= |short|
    ensures data[i..j] == short[i..j]
  {
  }

  lemma SameString(short: bytes, data: bytes, offset: nat)
    requires short <= data && offset < |short| && DecodeString(short, offset).Ok?
    ensures DecodeString(data, offset) == DecodeString(short, offset)
  {
    hide PyInt, FindByte, Latin;
    var colon := FindByte(short, 58, offset);
    assert colon < |short|;
    SameFind(short, data, 58, offset);
    SameSlice(short, data, offset, colon);
    SameSlice(short, data, colon + 1, DecodeString(short, offset).value.1);
  }

  lemma {:induction false} SameList(short: bytes, data: bytes, cursor: nat, depth: nat, done: seq<Value>)
    requires short <= data && DecodeList(short, cursor, depth, done).Ok?
    ensures DecodeList(data, cursor, depth, done) == DecodeList(short, cursor, depth, done)
    decreases |short| - cursor, 1
  {
    hide Decode;
    assert data[cursor] == short[cursor];
    if short[cursor] == 101 {
    } else {
      var element := Decode(short, cursor, depth + 1);
      SameFront(short, data, cursor, depth + 1);
      SameList(short, data, element.value.1, depth, done + [element.value.0]);
    }
  }

  lemma {:induction false} SameDict(short: bytes, data: bytes, cursor: nat, depth: nat, done: seq<Entry<Value>>)
    requires short <= data && DecodeDict(short, cursor, depth, done).Ok?
    ensures DecodeDict(data, cursor, depth, done) == DecodeDict(short, cursor, depth, done)
    decreases |short| - cursor, 1
  {
    hide Decode;
    assert data[cursor] == short[cursor];
    if short[cursor] == 101 {
    } else {
      var key := Decode(short, cursor, depth + 1);
      SameFront(short, data, cursor, depth + 1);
      var item := Decode(short, key.value.1, depth + 1);
      SameFront(short, data, key.value.1, depth + 1);
      SameDict(short, data, item.value.1, depth, done + [Entry(key.value.0.b, item.value.0)]);
    }
  }
}
